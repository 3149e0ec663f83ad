/** What a verifier finds in an attestation: every field under its own JSON key, and the confidential
    tier only beside the evidence that earns it. */
module AttestationClaims {
  import opened Wrappers
  import opened CanonicalJson
  import opened FieldMerge
  import opened Attestation

  /** The object that is signed, as its JSON fields. */
  function SignedFields(r: Record): Fields {
    SignedPart(r).fields
  }

  predicate SaysText(fields: Fields, key: string, text: string) {
    Get(fields, key) == Some(String(text))
  }

  predicate SaysFlag(fields: Fields, key: string, flag: bool) {
    Get(fields, key) == Some(Bool(flag))
  }

  predicate SaysOption(fields: Fields, key: string, text: Option<string>) {
    Get(fields, key) == if text.Some? then Some(String(text.value)) else None
  }

  lemma FoundUnderName(r: Record, f: Field)
    requires f != SelfSignature
    ensures Get(SignedFields(r), Name(f)) == StoredField(r, f)
  {
    StoredLookup(r, f);
    if Name(f) == Name(SelfSignature) { NamesDiffer(f, SelfSignature); }
  }

  // ---------------------------------------------------------------- every field under its key

  lemma KeyFields(r: Record)
    ensures var o := SignedFields(r);
      && SaysText(o, "publicKey", r.publicKey)
      && SaysText(o, "encryptionPubKey", r.encryptionPubKey)
  {
    FoundUnderName(r, PublicKey);
    FoundUnderName(r, EncryptionPubKey);
  }

  lemma MachineFields(r: Record)
    ensures var o := SignedFields(r);
      && SaysText(o, "chipName", r.chipName)
      && SaysText(o, "hardwareModel", r.hardwareModel)
      && SaysText(o, "serialNumberHash", r.serialNumberHash)
  {
    FoundUnderName(r, ChipName);
    FoundUnderName(r, HardwareModel);
    FoundUnderName(r, SerialNumberHash);
  }

  lemma SystemFields(r: Record)
    ensures var o := SignedFields(r);
      && SaysText(o, "osVersion", r.osVersion)
      && SaysText(o, "binaryHash", r.binaryHash)
  {
    FoundUnderName(r, OsVersion);
    FoundUnderName(r, BinaryHash);
  }

  lemma SchemeField(r: Record)
    ensures var o := SignedFields(r);
      && SaysOption(o, "encScheme", r.encScheme)
  {
    FoundUnderName(r, EncScheme);
  }

  lemma CodeFields(r: Record)
    ensures var o := SignedFields(r);
      && SaysOption(o, "cdHash", r.cdHash)
      && SaysOption(o, "teamId", r.teamId)
  {
    FoundUnderName(r, CdHash);
    FoundUnderName(r, TeamId);
  }

  lemma EngineFields(r: Record)
    ensures var o := SignedFields(r);
      && SaysOption(o, "metallibHash", r.metallibHash)
      && SaysOption(o, "engineLibHash", r.engineLibHash)
  {
    FoundUnderName(r, MetallibHash);
    FoundUnderName(r, EngineLibHash);
  }

  lemma TierField(r: Record)
    ensures SaysText(SignedFields(r), "tier", r.tier)
  {
    FoundUnderName(r, Tier);
  }

  lemma StartField(r: Record)
    ensures SaysText(SignedFields(r), "attestedAt", r.attestedAt)
  {
    FoundUnderName(r, AttestedAt);
  }

  lemma EndField(r: Record)
    ensures SaysText(SignedFields(r), "expiresAt", r.expiresAt)
  {
    FoundUnderName(r, ExpiresAt);
  }

  lemma BootFlags(r: Record)
    ensures var o := SignedFields(r);
      && SaysFlag(o, "sipEnabled", r.posture.sipEnabled)
      && SaysFlag(o, "secureBootEnabled", r.posture.secureBootEnabled)
      && SaysFlag(o, "secureEnclaveAvailable", r.posture.secureEnclaveAvailable)
  {
    FoundUnderName(r, SipEnabled);
    FoundUnderName(r, SecureBootEnabled);
    FoundUnderName(r, SecureEnclaveAvailable);
  }

  lemma RootFlags(r: Record)
    ensures var o := SignedFields(r);
      && SaysFlag(o, "authenticatedRootEnabled", r.posture.authenticatedRootEnabled)
      && SaysFlag(o, "rdmaDisabled", r.posture.rdmaDisabled)
  {
    FoundUnderName(r, AuthenticatedRootEnabled);
    FoundUnderName(r, RdmaDisabled);
  }

  lemma RuntimeFlags(r: Record)
    ensures var o := SignedFields(r);
      && SaysFlag(o, "hardenedRuntime", r.posture.hardenedRuntime)
      && SaysFlag(o, "libraryValidation", r.posture.libraryValidation)
  {
    FoundUnderName(r, HardenedRuntime);
    FoundUnderName(r, LibraryValidation);
  }

  lemma ProcessFlags(r: Record)
    ensures var o := SignedFields(r);
      && SaysFlag(o, "getTaskAllow", r.posture.getTaskAllow)
      && SaysFlag(o, "inProcessBackend", r.posture.inProcessBackend)
  {
    FoundUnderName(r, GetTaskAllow);
    FoundUnderName(r, InProcessBackend);
  }

  lemma HardeningFlags(r: Record)
    ensures var o := SignedFields(r);
      && SaysFlag(o, "antiDebug", r.posture.antiDebug)
      && SaysFlag(o, "coreDumpsDisabled", r.posture.coreDumpsDisabled)
  {
    FoundUnderName(r, AntiDebug);
    FoundUnderName(r, CoreDumpsDisabled);
  }

  lemma EnvironmentFlag(r: Record)
    ensures SaysFlag(SignedFields(r), "envScrubbed", r.posture.envScrubbed)
  {
    FoundUnderName(r, EnvScrubbed);
  }

  lemma ChainField(r: Record)
    ensures var chain := Get(SignedFields(r), "mdaCertChain");
      && (chain.None? <==> r.mdaCertChain == [])
      && (chain.Some? ==>
            && chain.value.Array? && |chain.value.items| == |r.mdaCertChain|
            && forall i :: 0 <= i < |r.mdaCertChain| ==> chain.value.items[i] == String(r.mdaCertChain[i]))
  {
    FoundUnderName(r, MdaCertChain);
  }

  lemma SignatureIsNotSigned(r: Record)
    ensures "selfSignature" !in SignedFields(r)
  {}

  lemma AppAttestIsFound(r: Record)
    ensures Get(SignedFields(r), "appAttest") ==
      if r.appAttest.None? then None
      else Some(Object(map[
        "object" := String(r.appAttest.value.object_), "keyId" := String(r.appAttest.value.keyId)]))
  {
    FoundUnderName(r, AppAttestField);
  }

  /** Every field is signed under its own JSON key, absent options and an empty chain being left out;
      the signature itself is not signed. */
  lemma FieldsAreSignedUnderTheirKeys(r: Record)
    ensures var o := SignedFields(r);
      && SaysText(o, "publicKey", r.publicKey) && SaysText(o, "encryptionPubKey", r.encryptionPubKey)
      && SaysText(o, "chipName", r.chipName) && SaysText(o, "hardwareModel", r.hardwareModel)
      && SaysText(o, "serialNumberHash", r.serialNumberHash) && SaysText(o, "osVersion", r.osVersion)
      && SaysText(o, "binaryHash", r.binaryHash) && SaysText(o, "tier", r.tier)
      && SaysText(o, "attestedAt", r.attestedAt) && SaysText(o, "expiresAt", r.expiresAt)
      && SaysOption(o, "encScheme", r.encScheme) && SaysOption(o, "cdHash", r.cdHash)
      && SaysOption(o, "teamId", r.teamId) && SaysOption(o, "metallibHash", r.metallibHash)
      && SaysOption(o, "engineLibHash", r.engineLibHash) && "selfSignature" !in o
  {
    KeyFields(r);
    MachineFields(r);
    SystemFields(r);
    TierField(r);
    StartField(r);
    EndField(r);
    SchemeField(r);
    CodeFields(r);
    EngineFields(r);
    SignatureIsNotSigned(r);
  }

  /** And so are the twelve flags of the posture. */
  lemma FlagsAreSignedUnderTheirKeys(r: Record)
    ensures var o, p := SignedFields(r), r.posture;
      && SaysFlag(o, "sipEnabled", p.sipEnabled) && SaysFlag(o, "secureBootEnabled", p.secureBootEnabled)
      && SaysFlag(o, "secureEnclaveAvailable", p.secureEnclaveAvailable)
      && SaysFlag(o, "authenticatedRootEnabled", p.authenticatedRootEnabled)
      && SaysFlag(o, "rdmaDisabled", p.rdmaDisabled) && SaysFlag(o, "hardenedRuntime", p.hardenedRuntime)
      && SaysFlag(o, "libraryValidation", p.libraryValidation) && SaysFlag(o, "getTaskAllow", p.getTaskAllow)
      && SaysFlag(o, "inProcessBackend", p.inProcessBackend) && SaysFlag(o, "antiDebug", p.antiDebug)
      && SaysFlag(o, "coreDumpsDisabled", p.coreDumpsDisabled) && SaysFlag(o, "envScrubbed", p.envScrubbed)
  {
    BootFlags(r);
    RootFlags(r);
    RuntimeFlags(r);
    ProcessFlags(r);
    HardeningFlags(r);
    EnvironmentFlag(r);
  }

  // ---------------------------------------------------------------- the confidential tier

  /** The evidence for the confidential tier, as a verifier reads it. */
  predicate ShowsFullPosture(o: Fields) {
    && SaysFlag(o, "inProcessBackend", true) && SaysFlag(o, "getTaskAllow", false)
    && SaysFlag(o, "hardenedRuntime", true) && SaysFlag(o, "libraryValidation", true)
    && SaysFlag(o, "antiDebug", true) && SaysFlag(o, "coreDumpsDisabled", true) && SaysFlag(o, "envScrubbed", true)
    && SaysFlag(o, "sipEnabled", true) && SaysFlag(o, "secureBootEnabled", true)
    && "cdHash" in o
  }

  /** The built record claims the confidential tier exactly when it shows every single piece of evidence,
      and is best-effort as soon as one is missing. */
  lemma TierIsEarned(
      i: Inputs, publicKey: string, hashSerial: string -> string, binaryHash: string, attestedAt: string,
      expiresAt: string, signature: string)
    ensures var r := RecordOf(i, Derive(i, publicKey, hashSerial, binaryHash, attestedAt, expiresAt), signature);
      var o := SignedFields(r);
      SaysText(o, "tier", if ShowsFullPosture(o) then "attested-confidential" else "best-effort")
  {
    var r := RecordOf(i, Derive(i, publicKey, hashSerial, binaryHash, attestedAt, expiresAt), signature);
    FieldsAreSignedUnderTheirKeys(r);
    FlagsAreSignedUnderTheirKeys(r);
  }
}
