/** Which of the provider records under one account belong to this machine, which one of them it
    adopts, which duplicates it deletes, and what the owner chose on any of them. */
module Reconcile {
  import opened Wrappers
  import opened CanonicalJson
  import opened FieldMerge

  datatype Listed = Listed(
    rkey: string,
    cid: string,
    createdAt: string,
    attestationPubKey: Option<string>,
    machineFingerprint: Option<string>,
    machineLabel: Option<string>,
    modelIdentifier: Option<string>,
    chip: Option<string>,
    value: Json)

  const CREATED_AT: string := "createdAt"
  const PUB_KEY: string := "attestationPubKey"
  const LABEL: string := "machineLabel"
  const MODEL: string := "modelIdentifier"
  const CHIP: string := "chip"

  function TextOf(v: Option<Json>): Option<string> {
    if v.Some? && v.value.String? then Some(v.value.s) else None
  }

  function TextField(value: Json, key: string): Option<string> {
    TextOf(Get(FieldsOf(value), key))
  }

  function FromValue(rkey: string, cid: string, value: Json): Listed {
    Listed(
      rkey, cid,
      match TextField(value, CREATED_AT) { case Some(at) => at case None => "" },
      TextField(value, PUB_KEY), TextField(value, FINGERPRINT), TextField(value, LABEL),
      TextField(value, MODEL), TextField(value, CHIP),
      value)
  }

  datatype Machine = Machine(
    attestationPubKey: string,
    machineFingerprint: Option<string>,
    machineLabel: string,
    modelIdentifier: Option<string>,
    chip: string,
    cachedRkey: Option<string>)

  datatype Kinship = Mine | LegacyCandidate | Other

  function Classify(rec: Listed, me: Machine): Kinship {
    if rec.machineFingerprint.Some? && me.machineFingerprint.Some? then
      if rec.machineFingerprint == me.machineFingerprint then Mine else Other
    else if rec.machineFingerprint.Some? then Other
    else if rec.attestationPubKey == Some(me.attestationPubKey) then Mine
    else if me.cachedRkey.Some? && rec.attestationPubKey.Some? && rec.rkey == me.cachedRkey.value then Mine
    else if
      && rec.machineLabel == Some(me.machineLabel)
      && rec.modelIdentifier == me.modelIdentifier
      && rec.chip == Some(me.chip)
    then LegacyCandidate
    else Other
  }

  // ---------------------------------------------------------------- the records of this machine

  function OfKind(listed: seq<Listed>, me: Machine, kind: Kinship): seq<Listed> {
    if listed == [] then []
    else (if Classify(listed[0], me) == kind then [listed[0]] else []) + OfKind(listed[1..], me, kind)
  }

  /** A record that only looks like ours counts when it is the only such one. */
  function Ours(listed: seq<Listed>, me: Machine): seq<Listed> {
    var legacy := OfKind(listed, me, LegacyCandidate);
    OfKind(listed, me, Mine) + if |legacy| == 1 then legacy else []
  }

  predicate Newer(a: Listed, b: Listed) {
    KeyLess(b.createdAt, a.createdAt)
  }

  /** Put a record in front of those that are not newer. */
  function Place(rec: Listed, sorted: seq<Listed>): seq<Listed> {
    if sorted != [] && Newer(sorted[0], rec) then [sorted[0]] + Place(rec, sorted[1..])
    else [rec] + sorted
  }

  /** The stable sort, newest first. */
  function Newest(records: seq<Listed>): seq<Listed> {
    if records == [] then [] else Place(records[0], Newest(records[1..]))
  }

  // ---------------------------------------------------------------- the decision

  function WithRkey(records: seq<Listed>, rkey: string): Option<Listed> {
    if records == [] then None
    else if records[0].rkey == rkey then Some(records[0])
    else WithRkey(records[1..], rkey)
  }

  function Adopted(sorted: seq<Listed>, me: Machine): Listed
    requires sorted != []
  {
    if me.cachedRkey.Some? && WithRkey(sorted, me.cachedRkey.value).Some?
    then WithRkey(sorted, me.cachedRkey.value).value
    else sorted[0]
  }

  predicate IsSet(v: Option<Json>) {
    v.Some? && !v.value.Null?
  }

  /** The first value under a key that is neither absent nor null. */
  function FirstSet(records: seq<Listed>, key: string): Option<Json> {
    if records == [] then None
    else if IsSet(Get(FieldsOf(records[0].value), key)) then Get(FieldsOf(records[0].value), key)
    else FirstSet(records[1..], key)
  }

  function HarvestedGet(own: Fields, sorted: seq<Listed>, key: string): Option<Json> {
    if Owned(key) && !IsSet(Get(own, key)) && FirstSet(sorted, key).Some? then FirstSet(sorted, key)
    else Get(own, key)
  }

  function Harvested(own: Fields, sorted: seq<Listed>): Fields {
    map k | k in own.Keys + (set o | o in OWNER_INTENT_KEYS) && HarvestedGet(own, sorted, k).Some?
      :: HarvestedGet(own, sorted, k).value
  }

  function Base(value: Json, sorted: seq<Listed>): Json {
    if value.Object? then Object(Harvested(value.fields, sorted)) else value
  }

  function Losers(records: seq<Listed>, rkey: string): seq<(string, string)> {
    if records == [] then []
    else (if records[0].rkey != rkey then [(records[0].rkey, records[0].cid)] else []) + Losers(records[1..], rkey)
  }

  datatype Outcome = Outcome(
    canonicalRkey: string,
    canonicalCid: string,
    base: Json,
    delete: seq<(string, string)>,
    ambiguousLegacy: nat)

  function Ambiguous(listed: seq<Listed>, me: Machine): nat {
    var legacy := |OfKind(listed, me, LegacyCandidate)|;
    if legacy > 1 then legacy else 0
  }

  function Decide(sorted: seq<Listed>, me: Machine, ambiguous: nat): Outcome
    requires sorted != []
  {
    var canonical := Adopted(sorted, me);
    Outcome(canonical.rkey, canonical.cid, Base(canonical.value, sorted), Losers(sorted, canonical.rkey), ambiguous)
  }

  function Reconciled(listed: seq<Listed>, me: Machine): Option<Outcome> {
    var sorted := Newest(Ours(listed, me));
    if sorted == [] then None else Some(Decide(sorted, me, Ambiguous(listed, me)))
  }

  // ---------------------------------------------------------------- the algorithm

  lemma HarvestedLookup(own: Fields, sorted: seq<Listed>, key: string)
    ensures Get(Harvested(own, sorted), key) == HarvestedGet(own, sorted, key)
  {}

  /** Split a listing into this machine's records and the look-alikes. */
  method Split(listed: seq<Listed>, me: Machine) returns (mine: seq<Listed>, legacy: seq<Listed>)
    ensures mine == OfKind(listed, me, Mine) && legacy == OfKind(listed, me, LegacyCandidate)
  {
    mine, legacy := [], [];
    for i := 0 to |listed|
      invariant mine + OfKind(listed[i..], me, Mine) == OfKind(listed, me, Mine)
      invariant legacy + OfKind(listed[i..], me, LegacyCandidate) == OfKind(listed, me, LegacyCandidate)
    {
      assert listed[i..][1..] == listed[i + 1..];
      match Classify(listed[i], me) {
        case Mine => mine := mine + [listed[i]];
        case LegacyCandidate => legacy := legacy + [listed[i]];
        case Other =>
      }
    }
  }

  method FindRkey(records: seq<Listed>, rkey: string) returns (found: Option<Listed>)
    ensures found == WithRkey(records, rkey)
  {
    for i := 0 to |records|
      invariant WithRkey(records[i..], rkey) == WithRkey(records, rkey)
    {
      assert records[i..][1..] == records[i + 1..];
      if records[i].rkey == rkey { return Some(records[i]); }
    }
    return None;
  }

  method FindSet(records: seq<Listed>, key: string) returns (found: Option<Json>)
    ensures found == FirstSet(records, key)
  {
    for i := 0 to |records|
      invariant FirstSet(records[i..], key) == FirstSet(records, key)
    {
      assert records[i..][1..] == records[i + 1..];
      var v := Get(FieldsOf(records[i].value), key);
      if IsSet(v) { return v; }
    }
    return None;
  }

  /** Fill the owner's keys that the adopted record lacks. */
  method Harvest(own: Fields, sorted: seq<Listed>) returns (base: Fields)
    ensures base == Harvested(own, sorted)
  {
    base := own;
    for i := 0 to |OWNER_INTENT_KEYS|
      invariant forall k ::
        Get(base, k) == (if k in OWNER_INTENT_KEYS[..i] then HarvestedGet(own, sorted, k) else Get(own, k))
    {
      var key := OWNER_INTENT_KEYS[i];
      assert OWNER_INTENT_KEYS[..i + 1] == OWNER_INTENT_KEYS[..i] + [key];
      ghost var before := base;
      assert Get(before, key) == Get(own, key) || Get(before, key) == HarvestedGet(own, sorted, key);
      if !IsSet(Get(base, key)) {
        var v := FindSet(sorted, key);
        if v.Some? { base := base[key := v.value]; }
      }
      FirstSetIsSet(sorted, key);
      assert Owned(key);
      assert Get(base, key) == HarvestedGet(own, sorted, key);
      assert forall k :: k != key ==> Get(base, k) == Get(before, k);
    }
    assert OWNER_INTENT_KEYS[..|OWNER_INTENT_KEYS|] == OWNER_INTENT_KEYS;
    forall k ensures Get(base, k) == Get(Harvested(own, sorted), k) { HarvestedLookup(own, sorted, k); }
    SameFields(base, Harvested(own, sorted));
  }

  lemma {:induction false} FirstSetIsSet(records: seq<Listed>, key: string)
    ensures FirstSet(records, key).Some? ==> IsSet(FirstSet(records, key))
  {
    if records != [] { FirstSetIsSet(records[1..], key); }
  }

  lemma Regroup<T>(a: seq<T>, b: seq<T>, c: seq<T>)
    ensures a + (b + c) == (a + b) + c
  {}

  method ListLosers(records: seq<Listed>, rkey: string) returns (delete: seq<(string, string)>)
    ensures delete == Losers(records, rkey)
  {
    delete := [];
    for i := 0 to |records|
      invariant delete + Losers(records[i..], rkey) == Losers(records, rkey)
    {
      assert records[i..][1..] == records[i + 1..];
      var loser := if records[i].rkey != rkey then [(records[i].rkey, records[i].cid)] else [];
      Regroup(delete, loser, Losers(records[i + 1..], rkey));
      assert Losers(records[i..], rkey) == loser + Losers(records[i + 1..], rkey);
      delete := delete + loser;
    }
  }

  lemma PlaceIsNonempty(rec: Listed, sorted: seq<Listed>)
    ensures Place(rec, sorted) != []
  {}

  method ReconcileProviderRecords(listed: seq<Listed>, me: Machine) returns (outcome: Option<Outcome>)
    ensures outcome == Reconciled(listed, me)
  {
    var mine, legacy := Split(listed, me);
    var ambiguous := if |legacy| > 1 then |legacy| else 0;
    if |legacy| == 1 { mine := mine + [legacy[0]]; }
    assert mine == Ours(listed, me);
    if mine == [] { return None; }
    PlaceIsNonempty(mine[0], Newest(mine[1..]));
    var sorted := Newest(mine);
    var canonical := sorted[0];
    if me.cachedRkey.Some? {
      var found := FindRkey(sorted, me.cachedRkey.value);
      if found.Some? { canonical := found.value; }
    }
    assert canonical == Adopted(sorted, me);
    var base := canonical.value;
    if base.Object? {
      var fields := Harvest(base.fields, sorted);
      base := Object(fields);
    }
    var delete := ListLosers(sorted, canonical.rkey);
    return Some(Outcome(canonical.rkey, canonical.cid, base, delete, ambiguous));
  }
}
