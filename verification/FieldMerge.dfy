/** The field-ownership merge: the agent's freshly built provider record is applied to the latest
    record read from the PDS, so that the owner's settings and every unknown field survive. */
module FieldMerge {
  import opened Wrappers
  import opened CanonicalJson

  type Fields = map<string, Json>

  const OWNER_INTENT_KEYS: seq<string> := [
    "active", "payoutsEnabled", "desiredModels", "desiredTier",
    "proBono", "shareLocation", "toolCalls", "toolCallsDisabled"]

  const AGENT_OPTIONAL_KEYS: seq<string> := [
    "gpuCores", "memoryBandwidthGBs", "cpuCores", "pCores", "eCores", "modelIdentifier",
    "os", "tier", "acceptedExchanges", "contactEndpoint", "binaryVersion", "provisioning",
    "serving", "engineFault", "attestationFault", "region", "regionSource", "regionObservedAt"]

  /** The fields that a serialized agent record always carries. */
  const AGENT_REQUIRED_KEYS: seq<string> := [
    "machineLabel", "chip", "ramGB", "supportedModels", "priceList",
    "encryptionPubKey", "attestationPubKey", "trustLevel", "createdAt"]

  const FINGERPRINT: string := "machineFingerprint"
  const ADVISOR_FAULT: string := "advisorFault"

  predicate Owned(key: string) {
    key in OWNER_INTENT_KEYS
  }

  predicate Optional(key: string) {
    key in AGENT_OPTIONAL_KEYS
  }

  function FieldsOf(v: Json): Fields {
    if v.Object? then v.fields else map[]
  }

  /** What a key holds, absence included. */
  function Get(fields: Fields, key: string): Option<Json> {
    if key in fields then Some(fields[key]) else None
  }

  /** What the merge leaves under one key, given who writes the key and what both records hold. */
  function Choose(owned: bool, optional: bool, base: Option<Json>, patch: Option<Json>): Option<Json> {
    if patch.Some? && !owned then patch
    else if optional && patch.None? then None
    else base
  }

  /** The merge, key by key. */
  function MergedGet(base: Fields, patch: Fields, key: string): Option<Json> {
    Choose(Owned(key), Optional(key), Get(base, key), Get(patch, key))
  }

  function Merged(base: Fields, patch: Fields): Fields {
    map k | k in base.Keys + patch.Keys && MergedGet(base, patch, k).Some? :: MergedGet(base, patch, k).value
  }

  lemma MergedLookup(base: Fields, patch: Fields, key: string)
    ensures Get(Merged(base, patch), key) == MergedGet(base, patch, key)
  {}

  /** `merge_agent_provider_fields`: clear the optional fields not emitted now, then overlay. */
  method MergeAgentProviderFields(base: Json, agentRecord: Json) returns (merged: Json)
    ensures merged == Object(Merged(FieldsOf(base), FieldsOf(agentRecord)))
  {
    var out := FieldsOf(base);
    var patch := FieldsOf(agentRecord);
    for i := 0 to |AGENT_OPTIONAL_KEYS|
      invariant out ==
        map k | k in FieldsOf(base) && !(k in AGENT_OPTIONAL_KEYS[..i] && k !in patch) :: FieldsOf(base)[k]
    {
      var key := AGENT_OPTIONAL_KEYS[i];
      assert AGENT_OPTIONAL_KEYS[..i + 1] == AGENT_OPTIONAL_KEYS[..i] + [key];
      if key !in patch { out := out - {key}; }
    }
    assert AGENT_OPTIONAL_KEYS[..|AGENT_OPTIONAL_KEYS|] == AGENT_OPTIONAL_KEYS;
    ghost var cleared := out;
    var remaining := patch.Keys;
    while remaining != {}
      invariant remaining <= patch.Keys
      invariant forall k ::
        Get(out, k) == (if k in patch && k !in remaining && !Owned(k) then Some(patch[k]) else Get(cleared, k))
      decreases remaining
    {
      var k :| k in remaining;
      remaining := remaining - {k};
      if !Owned(k) { out := out[k := patch[k]]; }
    }
    forall k ensures Get(out, k) == Get(Merged(FieldsOf(base), patch), k) {
      MergedLookup(FieldsOf(base), patch, k);
    }
    SameFields(out, Merged(FieldsOf(base), patch));
    merged := Object(out);
  }

  lemma SameFields(a: Fields, b: Fields)
    requires forall k :: Get(a, k) == Get(b, k)
    ensures a == b
  {
    forall k ensures (k in a <==> k in b) && (k in a ==> a[k] == b[k]) {
      assert Get(a, k) == Get(b, k);
    }
  }

  // ---------------------------------------------------------------- who writes which key

  /** The keys that an agent record may carry. Its owner fields are built as absent, but the merge
      does not rely on that. */
  predicate AgentRecord(patch: Fields) {
    && (forall k :: k in AGENT_REQUIRED_KEYS ==> k in patch)
    && (forall k :: k in patch ==> Owned(k) || Optional(k) || k in AGENT_REQUIRED_KEYS || k == FINGERPRINT)
  }

  /** A key that the agent never writes: the owner's, or one this build does not know. */
  predicate NotAgents(key: string) {
    Owned(key) || !(Optional(key) || key in AGENT_REQUIRED_KEYS || key == FINGERPRINT)
  }

  lemma OwnedIsNotAgents(key: string)
    requires Owned(key)
    ensures !Optional(key) && key !in AGENT_REQUIRED_KEYS && key != FINGERPRINT && key != ADVISOR_FAULT
  {}

  lemma FaultIsNotAgents()
    ensures NotAgents(ADVISOR_FAULT) && !Owned(ADVISOR_FAULT)
  {}

  lemma FingerprintIsAlwaysKept()
    ensures !Owned(FINGERPRINT) && !Optional(FINGERPRINT) && FINGERPRINT !in AGENT_REQUIRED_KEYS
  {}

  // ---------------------------------------------------------------- merge laws

  /** Owner settings and unknown fields come through unchanged, whatever the agent record holds
      under an owner key. */
  lemma MergeKeepsOthers(base: Fields, patch: Fields, key: string)
    requires AgentRecord(patch) && NotAgents(key)
    ensures Get(Merged(base, patch), key) == Get(base, key)
  {
    MergedLookup(base, patch, key);
    if Owned(key) { OwnedIsNotAgents(key); }
  }

  /** Who writes what, by name: an owner key keeps the base's value; a key that the agent may leave out
      is exactly as the agent record has it, absence included; any other key is the agent's if it is
      emitted and the base's if it is not. */
  lemma WhoWritesWhat(base: Fields, patch: Fields, key: string)
    ensures var merged := Get(Merged(base, patch), key);
      if key in {
        "active", "payoutsEnabled", "desiredModels", "desiredTier", "proBono", "shareLocation", "toolCalls",
        "toolCallsDisabled"}
      then merged == Get(base, key)
      else if key in {
        "gpuCores", "memoryBandwidthGBs", "cpuCores", "pCores", "eCores", "modelIdentifier", "os", "tier",
        "acceptedExchanges", "contactEndpoint", "binaryVersion", "provisioning", "serving", "engineFault",
        "attestationFault", "region", "regionSource", "regionObservedAt"}
      then merged == Get(patch, key)
      else merged == if key in patch then Some(patch[key]) else Get(base, key)
  {
    MergedLookup(base, patch, key);
    if Owned(key) { OwnedIsNotAgents(key); }
  }

  /** Several keys set, or removed with `None`. */
  function Edited(fields: Fields, edits: map<string, Option<Json>>): Fields {
    map k | k in fields.Keys + edits.Keys && EditedGet(fields, edits, k).Some? :: EditedGet(fields, edits, k).value
  }

  function EditedGet(fields: Fields, edits: map<string, Option<Json>>, key: string): Option<Json> {
    if key in edits then edits[key] else Get(fields, key)
  }

  lemma EditedLookup(fields: Fields, edits: map<string, Option<Json>>, key: string)
    ensures Get(Edited(fields, edits), key) == EditedGet(fields, edits, key)
  {}

  /** An edit of the owner's or of unknown fields can come before the merge or after it. */
  lemma MergeCommutesWithEdits(base: Fields, patch: Fields, edits: map<string, Option<Json>>)
    requires AgentRecord(patch) && forall k :: k in edits ==> NotAgents(k)
    ensures Merged(Edited(base, edits), patch) == Edited(Merged(base, patch), edits)
  {
    forall k ensures Get(Merged(Edited(base, edits), patch), k) == Get(Edited(Merged(base, patch), edits), k) {
      EditedLookup(base, edits, k);
      EditedLookup(Merged(base, patch), edits, k);
      MergedLookup(Edited(base, edits), patch, k);
      MergedLookup(base, patch, k);
      if k in edits { MergeKeepsOthers(Edited(base, edits), patch, k); }
    }
    SameFields(Merged(Edited(base, edits), patch), Edited(Merged(base, patch), edits));
  }

  lemma ChooseTwice(owned: bool, optional: bool, base: Option<Json>, first: Option<Json>, second: Option<Json>)
    requires first.Some? && second.None? ==> owned || optional
    requires !(owned && optional)
    ensures Choose(owned, optional, Choose(owned, optional, base, first), second) ==
            Choose(owned, optional, base, second)
  {}

  lemma MergeTwice(base: Fields, first: Fields, second: Fields, key: string)
    requires key in first && key !in second ==> Owned(key) || Optional(key)
    ensures Get(Merged(Merged(base, first), second), key) == Get(Merged(base, second), key)
  {
    if Owned(key) { OwnedIsNotAgents(key); }
    ChooseTwice(Owned(key), Optional(key), Get(base, key), Get(first, key), Get(second, key));
    MergedLookup(base, first, key);
    MergedLookup(base, second, key);
    MergedLookup(Merged(base, first), second, key);
  }

  lemma FingerprintStays(base: Fields, first: Fields, second: Fields)
    requires FINGERPRINT !in second
    ensures Get(Merged(Merged(base, first), second), FINGERPRINT) ==
      if FINGERPRINT in first then Some(first[FINGERPRINT]) else Get(base, FINGERPRINT)
    ensures Get(Merged(base, second), FINGERPRINT) == Get(base, FINGERPRINT)
  {
    FingerprintIsAlwaysKept();
    MergedLookup(base, first, FINGERPRINT);
    MergedLookup(base, second, FINGERPRINT);
    MergedLookup(Merged(base, first), second, FINGERPRINT);
  }

  lemma OnlyFingerprintIsDropped(first: Fields, second: Fields, key: string)
    requires AgentRecord(first) && AgentRecord(second)
    requires key in first && key !in second && !Owned(key) && !Optional(key)
    ensures key == FINGERPRINT
  {}

  /** An earlier publish leaves no trace in a later one, except that a fingerprint which the later
      record lacks stays behind. */
  lemma LaterPublishWins(base: Fields, first: Fields, second: Fields)
    requires AgentRecord(first) && AgentRecord(second)
    ensures Merged(Merged(base, first), second) == Merged(base, second)
       <==> (FINGERPRINT in first && FINGERPRINT !in second ==> Get(base, FINGERPRINT) == Some(first[FINGERPRINT]))
    ensures forall k :: k != FINGERPRINT ==>
        Get(Merged(Merged(base, first), second), k) == Get(Merged(base, second), k)
  {
    forall k | k != FINGERPRINT
      ensures Get(Merged(Merged(base, first), second), k) == Get(Merged(base, second), k) {
      if k in first && k !in second && !Owned(k) && !Optional(k) { OnlyFingerprintIsDropped(first, second, k); }
      MergeTwice(base, first, second, k);
    }
    if FINGERPRINT in second { MergeTwice(base, first, second, FINGERPRINT); }
    else { FingerprintStays(base, first, second); }
    if FINGERPRINT in first && FINGERPRINT !in second ==> Get(base, FINGERPRINT) == Some(first[FINGERPRINT]) {
      SameFields(Merged(Merged(base, first), second), Merged(base, second));
    }
  }

  /** Publishing the same record again changes nothing. */
  lemma MergeIsIdempotent(base: Fields, patch: Fields)
    requires AgentRecord(patch)
    ensures Merged(Merged(base, patch), patch) == Merged(base, patch)
  {
    LaterPublishWins(base, patch, patch);
  }

  // ---------------------------------------------------------------- a stranded fingerprint

  /** A record with the fields that an agent always writes, and no other. */
  const AGENT: Fields := map[
    "machineLabel" := String("label"), "chip" := String("chip"), "ramGB" := Number(64),
    "supportedModels" := Array([]), "priceList" := Array([]), "encryptionPubKey" := String("enc"),
    "attestationPubKey" := String("key"), "trustLevel" := String("self-attested"), "createdAt" := String("3")]

  const STAMPED_AGENT: Fields := AGENT[FINGERPRINT := String("old")]

  lemma AgentIsAgentRecord()
    ensures AgentRecord(AGENT) && AgentRecord(STAMPED_AGENT) && FINGERPRINT !in AGENT
  {
    assert AGENT.Keys == set k | k in AGENT_REQUIRED_KEYS;
  }

  /** Publishing with a fingerprint and then without one leaves the old fingerprint behind. */
  lemma FingerprintCanBeStranded()
    ensures AgentRecord(STAMPED_AGENT) && AgentRecord(AGENT)
    ensures Merged(Merged(map[], STAMPED_AGENT), AGENT) != Merged(map[], AGENT)
    ensures Get(Merged(Merged(map[], STAMPED_AGENT), AGENT), FINGERPRINT) == Some(String("old"))
  {
    AgentIsAgentRecord();
    LaterPublishWins(map[], STAMPED_AGENT, AGENT);
    FingerprintStays(map[], STAMPED_AGENT, AGENT);
  }
}
