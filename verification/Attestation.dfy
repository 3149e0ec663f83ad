/** The attestation record: its signature covers the canonical bytes of every other field, and the
    record that is stored must give back exactly those bytes. */
module Attestation {
  import opened Wrappers
  import opened CanonicalJson
  import opened FieldMerge
  import CanonicalReader

  // ---------------------------------------------------------------- data

  datatype AppAttest = AppAttest(object_: string, keyId: string)

  /** What checking an Apple device-attestation chain said. */
  datatype MdaVerdict = Failed | Checked(valid: bool, bindsKey: bool, deviceSerial: Option<string>)

  datatype Posture = Posture(
    sipEnabled: bool, secureBootEnabled: bool, secureEnclaveAvailable: bool, authenticatedRootEnabled: bool,
    rdmaDisabled: bool, hardenedRuntime: bool, libraryValidation: bool, getTaskAllow: bool,
    inProcessBackend: bool, antiDebug: bool, coreDumpsDisabled: bool, envScrubbed: bool)

  datatype Inputs = Inputs(
    encryptionPubKey: string, encScheme: string, chipName: string, hardwareModel: string, serialNumber: string,
    osVersion: string, posture: Posture,
    mdaCertChain: seq<string>, mda: MdaVerdict,
    appAttest: Option<AppAttest>, appAttestVerifies: bool,
    cdHash: Option<string>, teamId: Option<string>, metallibHash: Option<string>, engineLibHash: Option<string>)

  datatype Record = Record(
    publicKey: string, encryptionPubKey: string, encScheme: Option<string>, chipName: string, hardwareModel: string,
    serialNumberHash: string, osVersion: string, binaryHash: string, posture: Posture,
    mdaCertChain: seq<string>, appAttest: Option<AppAttest>,
    cdHash: Option<string>, teamId: Option<string>, metallibHash: Option<string>, engineLibHash: Option<string>,
    tier: string, selfSignature: string, attestedAt: string, expiresAt: string)

  datatype Field =
    | PublicKey | EncryptionPubKey | EncScheme | ChipName | HardwareModel | SerialNumberHash | OsVersion | BinaryHash
    | SipEnabled | SecureBootEnabled | SecureEnclaveAvailable | AuthenticatedRootEnabled | RdmaDisabled
    | MdaCertChain | AppAttestField | CdHash | TeamId | HardenedRuntime | LibraryValidation | GetTaskAllow
    | MetallibHash | EngineLibHash | InProcessBackend | AntiDebug | CoreDumpsDisabled | EnvScrubbed
    | Tier | SelfSignature | AttestedAt | ExpiresAt

  function Name(f: Field): string {
    match f
    case PublicKey => "publicKey"
    case EncryptionPubKey => "encryptionPubKey"
    case EncScheme => "encScheme"
    case ChipName => "chipName"
    case HardwareModel => "hardwareModel"
    case SerialNumberHash => "serialNumberHash"
    case OsVersion => "osVersion"
    case BinaryHash => "binaryHash"
    case SipEnabled => "sipEnabled"
    case SecureBootEnabled => "secureBootEnabled"
    case SecureEnclaveAvailable => "secureEnclaveAvailable"
    case AuthenticatedRootEnabled => "authenticatedRootEnabled"
    case RdmaDisabled => "rdmaDisabled"
    case MdaCertChain => "mdaCertChain"
    case AppAttestField => "appAttest"
    case CdHash => "cdHash"
    case TeamId => "teamId"
    case HardenedRuntime => "hardenedRuntime"
    case LibraryValidation => "libraryValidation"
    case GetTaskAllow => "getTaskAllow"
    case MetallibHash => "metallibHash"
    case EngineLibHash => "engineLibHash"
    case InProcessBackend => "inProcessBackend"
    case AntiDebug => "antiDebug"
    case CoreDumpsDisabled => "coreDumpsDisabled"
    case EnvScrubbed => "envScrubbed"
    case Tier => "tier"
    case SelfSignature => "selfSignature"
    case AttestedAt => "attestedAt"
    case ExpiresAt => "expiresAt"
  }

  /** Length and first two letters: enough to tell the names apart. */
  function Mark(name: string): (int, char, char)
    requires |name| >= 2
  {
    (|name|, name[0], name[1])
  }

  function MarkOf(f: Field): (int, char, char) {
    match f
    case PublicKey => (9, 'p', 'u')
    case EncryptionPubKey => (16, 'e', 'n')
    case EncScheme => (9, 'e', 'n')
    case ChipName => (8, 'c', 'h')
    case HardwareModel => (13, 'h', 'a')
    case SerialNumberHash => (16, 's', 'e')
    case OsVersion => (9, 'o', 's')
    case BinaryHash => (10, 'b', 'i')
    case SipEnabled => (10, 's', 'i')
    case SecureBootEnabled => (17, 's', 'e')
    case SecureEnclaveAvailable => (22, 's', 'e')
    case AuthenticatedRootEnabled => (24, 'a', 'u')
    case RdmaDisabled => (12, 'r', 'd')
    case MdaCertChain => (12, 'm', 'd')
    case AppAttestField => (9, 'a', 'p')
    case CdHash => (6, 'c', 'd')
    case TeamId => (6, 't', 'e')
    case HardenedRuntime => (15, 'h', 'a')
    case LibraryValidation => (17, 'l', 'i')
    case GetTaskAllow => (12, 'g', 'e')
    case MetallibHash => (12, 'm', 'e')
    case EngineLibHash => (13, 'e', 'n')
    case InProcessBackend => (16, 'i', 'n')
    case AntiDebug => (9, 'a', 'n')
    case CoreDumpsDisabled => (17, 'c', 'o')
    case EnvScrubbed => (11, 'e', 'n')
    case Tier => (4, 't', 'i')
    case SelfSignature => (13, 's', 'e')
    case AttestedAt => (10, 'a', 't')
    case ExpiresAt => (9, 'e', 'x')
  }

  lemma NameHasMark(f: Field)
    ensures |Name(f)| >= 2 && Mark(Name(f)) == MarkOf(f)
  {}

  lemma MarksDiffer(f: Field, g: Field)
    requires MarkOf(f) == MarkOf(g)
    ensures f == g
  {}

  lemma NamesDiffer(f: Field, g: Field)
    requires Name(f) == Name(g)
    ensures f == g
  {
    NameHasMark(f);
    NameHasMark(g);
    MarksDiffer(f, g);
  }

  // ---------------------------------------------------------------- building an object field by field

  /** Put the present fields, in the given order, under their names. */
  function Fill(order: seq<Field>, value: Field -> Option<Json>): Fields {
    if order == [] then map[]
    else
      var rest := Fill(order[..|order| - 1], value);
      var f := order[|order| - 1];
      if value(f).Some? then rest[Name(f) := value(f).value] else rest
  }

  lemma FillMore(order: seq<Field>, f: Field, value: Field -> Option<Json>)
    ensures Fill(order + [f], value) ==
      if value(f).Some? then Fill(order, value)[Name(f) := value(f).value] else Fill(order, value)
  {
    assert (order + [f])[..|order|] == order;
  }

  lemma {:induction false} FillLookup(order: seq<Field>, value: Field -> Option<Json>, f: Field)
    ensures Get(Fill(order, value), Name(f)) == if f in order then value(f) else None
  {
    if order != [] {
      var init, last := order[..|order| - 1], order[|order| - 1];
      assert order == init + [last];
      FillLookup(init, value, f);
      if Name(f) == Name(last) { NamesDiffer(f, last); }
    }
  }

  lemma {:induction false} FillUsesNames(order: seq<Field>, value: Field -> Option<Json>, key: string)
    requires key in Fill(order, value)
    ensures exists f :: f in order && key == Name(f)
  {
    var init, last := order[..|order| - 1], order[|order| - 1];
    if key == Name(last) {
      assert last in order;
    } else {
      FillUsesNames(init, value, key);
      var f :| f in init && key == Name(f);
      assert f in order;
    }
  }

  // ---------------------------------------------------------------- the stored record

  const STRUCT_ORDER: seq<Field> := [
    PublicKey, EncryptionPubKey, EncScheme, ChipName, HardwareModel, SerialNumberHash, OsVersion, BinaryHash,
    SipEnabled, SecureBootEnabled, SecureEnclaveAvailable, AuthenticatedRootEnabled, RdmaDisabled,
    MdaCertChain, AppAttestField, CdHash, TeamId, HardenedRuntime, LibraryValidation, GetTaskAllow,
    MetallibHash, EngineLibHash, InProcessBackend, AntiDebug, CoreDumpsDisabled, EnvScrubbed,
    Tier, SelfSignature, AttestedAt, ExpiresAt]

  function Text(s: Option<string>): Option<Json> {
    if s.Some? then Some(String(s.value)) else None
  }

  function Texts(ss: seq<string>): Json {
    Array(seq(|ss|, i requires 0 <= i < |ss| => String(ss[i])))
  }

  function AppAttestJson(a: AppAttest): Json {
    Object(map["object" := String(a.object_), "keyId" := String(a.keyId)])
  }

  function PostureField(p: Posture, f: Field): Option<Json> {
    match f
    case SipEnabled => Some(Bool(p.sipEnabled))
    case SecureBootEnabled => Some(Bool(p.secureBootEnabled))
    case SecureEnclaveAvailable => Some(Bool(p.secureEnclaveAvailable))
    case AuthenticatedRootEnabled => Some(Bool(p.authenticatedRootEnabled))
    case RdmaDisabled => Some(Bool(p.rdmaDisabled))
    case HardenedRuntime => Some(Bool(p.hardenedRuntime))
    case LibraryValidation => Some(Bool(p.libraryValidation))
    case GetTaskAllow => Some(Bool(p.getTaskAllow))
    case InProcessBackend => Some(Bool(p.inProcessBackend))
    case AntiDebug => Some(Bool(p.antiDebug))
    case CoreDumpsDisabled => Some(Bool(p.coreDumpsDisabled))
    case EnvScrubbed => Some(Bool(p.envScrubbed))
    case _ => None
  }

  /** How the record is stored: absent options and an empty chain are skipped. */
  function StoredField(r: Record, f: Field): Option<Json> {
    match f
    case PublicKey => Some(String(r.publicKey))
    case EncryptionPubKey => Some(String(r.encryptionPubKey))
    case EncScheme => Text(r.encScheme)
    case ChipName => Some(String(r.chipName))
    case HardwareModel => Some(String(r.hardwareModel))
    case SerialNumberHash => Some(String(r.serialNumberHash))
    case OsVersion => Some(String(r.osVersion))
    case BinaryHash => Some(String(r.binaryHash))
    case MdaCertChain => if r.mdaCertChain == [] then None else Some(Texts(r.mdaCertChain))
    case AppAttestField => if r.appAttest.Some? then Some(AppAttestJson(r.appAttest.value)) else None
    case CdHash => Text(r.cdHash)
    case TeamId => Text(r.teamId)
    case MetallibHash => Text(r.metallibHash)
    case EngineLibHash => Text(r.engineLibHash)
    case Tier => Some(String(r.tier))
    case SelfSignature => Some(String(r.selfSignature))
    case AttestedAt => Some(String(r.attestedAt))
    case ExpiresAt => Some(String(r.expiresAt))
    case _ => PostureField(r.posture, f)
  }

  function Storer(r: Record): Field -> Option<Json> {
    f => StoredField(r, f)
  }

  function StoredFields(r: Record): Fields {
    Fill(STRUCT_ORDER, Storer(r))
  }

  /** What a verifier rebuilds from the stored record: everything but the signature. */
  function SignedPart(r: Record): Json {
    Object(StoredFields(r) - {Name(SelfSignature)})
  }

  // ---------------------------------------------------------------- what is signed

  /** What the builder derives from its inputs before it signs. */
  datatype Derived = Derived(
    publicKey: string, serialHash: string, binaryHash: string, mdaChain: seq<string>, appAttest: Option<AppAttest>,
    tier: string, attestedAt: string, expiresAt: string)

  predicate ChainIsBound(i: Inputs) {
    i.mdaCertChain != [] && i.mda.Checked? && i.mda.valid && i.mda.bindsKey
  }

  predicate ConfidentialCapable(i: Inputs) {
    && i.posture.inProcessBackend && !i.posture.getTaskAllow && i.posture.hardenedRuntime
    && i.posture.libraryValidation && i.posture.antiDebug && i.posture.coreDumpsDisabled && i.posture.envScrubbed
    && i.posture.sipEnabled && i.posture.secureBootEnabled && i.cdHash.Some?
  }

  function Derive(
      i: Inputs, publicKey: string, hashSerial: string -> string, binaryHash: string,
      attestedAt: string, expiresAt: string): Derived
  {
    Derived(
      publicKey,
      hashSerial(if ChainIsBound(i) && i.mda.deviceSerial.Some? then i.mda.deviceSerial.value else i.serialNumber),
      binaryHash,
      if ChainIsBound(i) then i.mdaCertChain else [],
      if i.appAttest.Some? && i.appAttestVerifies then i.appAttest else None,
      if ConfidentialCapable(i) then "attested-confidential" else "best-effort",
      attestedAt,
      expiresAt)
  }

  const ALWAYS_SIGNED: seq<Field> := [
    PublicKey, EncryptionPubKey, ChipName, HardwareModel, SerialNumberHash, OsVersion, BinaryHash,
    SipEnabled, SecureBootEnabled, SecureEnclaveAvailable, AuthenticatedRootEnabled, RdmaDisabled,
    HardenedRuntime, LibraryValidation, GetTaskAllow, InProcessBackend, AntiDebug, CoreDumpsDisabled, EnvScrubbed,
    Tier, AttestedAt, ExpiresAt]

  const SOMETIMES_SIGNED: seq<Field> := [
    MdaCertChain, CdHash, TeamId, MetallibHash, EngineLibHash, EncScheme, AppAttestField]

  const X25519: string := "x25519"

  function SignedField(i: Inputs, d: Derived, f: Field): Option<Json> {
    match f
    case PublicKey => Some(String(d.publicKey))
    case EncryptionPubKey => Some(String(i.encryptionPubKey))
    case ChipName => Some(String(i.chipName))
    case HardwareModel => Some(String(i.hardwareModel))
    case SerialNumberHash => Some(String(d.serialHash))
    case OsVersion => Some(String(i.osVersion))
    case BinaryHash => Some(String(d.binaryHash))
    case Tier => Some(String(d.tier))
    case AttestedAt => Some(String(d.attestedAt))
    case ExpiresAt => Some(String(d.expiresAt))
    case MdaCertChain => if d.mdaChain != [] then Some(Texts(d.mdaChain)) else None
    case CdHash => Text(i.cdHash)
    case TeamId => Text(i.teamId)
    case MetallibHash => Text(i.metallibHash)
    case EngineLibHash => Text(i.engineLibHash)
    case EncScheme => if i.encScheme != X25519 then Some(String(i.encScheme)) else None
    case AppAttestField => if d.appAttest.Some? then Some(AppAttestJson(d.appAttest.value)) else None
    case SelfSignature => None
    case _ => PostureField(i.posture, f)
  }

  function Signer(i: Inputs, d: Derived): Field -> Option<Json> {
    f => SignedField(i, d, f)
  }

  const SIGNED_ORDER: seq<Field> := ALWAYS_SIGNED + SOMETIMES_SIGNED

  function Signed(i: Inputs, d: Derived): Fields {
    Fill(SIGNED_ORDER, Signer(i, d))
  }

  function RecordOf(i: Inputs, d: Derived, signature: string): Record {
    Record(
      d.publicKey, i.encryptionPubKey, if i.encScheme == X25519 then None else Some(i.encScheme), i.chipName,
      i.hardwareModel, d.serialHash, i.osVersion, d.binaryHash, i.posture, d.mdaChain, d.appAttest,
      i.cdHash, i.teamId, i.metallibHash, i.engineLibHash, d.tier, signature, d.attestedAt, d.expiresAt)
  }

  lemma EveryFieldIsStored(f: Field)
    ensures f in STRUCT_ORDER
  {}

  lemma EveryOtherFieldIsSigned(f: Field)
    ensures f in SIGNED_ORDER <==> f != SelfSignature
  {}

  lemma FieldIsStoredAsSigned(i: Inputs, d: Derived, signature: string, f: Field)
    requires f != SelfSignature
    ensures StoredField(RecordOf(i, d, signature), f) == SignedField(i, d, f)
  {}

  lemma StoredLookup(r: Record, f: Field)
    ensures Get(StoredFields(r), Name(f)) == StoredField(r, f)
  {
    FillLookup(STRUCT_ORDER, Storer(r), f);
    EveryFieldIsStored(f);
  }

  lemma SignedLookup(i: Inputs, d: Derived, f: Field)
    ensures Get(Signed(i, d), Name(f)) == SignedField(i, d, f)
  {
    FillLookup(SIGNED_ORDER, Signer(i, d), f);
    EveryOtherFieldIsSigned(f);
  }

  /** The stored record without its signature is the object that was signed. */
  lemma StoredIsSigned(i: Inputs, d: Derived, signature: string)
    ensures SignedPart(RecordOf(i, d, signature)) == Object(Signed(i, d))
  {
    var r := RecordOf(i, d, signature);
    var stored := StoredFields(r) - {Name(SelfSignature)};
    forall k ensures Get(stored, k) == Get(Signed(i, d), k) {
      if k in stored {
        FillUsesNames(STRUCT_ORDER, Storer(r), k);
        var f :| k == Name(f);
        FieldAgrees(i, d, signature, f);
      } else if k in Signed(i, d) {
        FillUsesNames(SIGNED_ORDER, Signer(i, d), k);
        var f :| k == Name(f);
        FieldAgrees(i, d, signature, f);
      }
    }
    SameFields(stored, Signed(i, d));
  }

  lemma FieldAgrees(i: Inputs, d: Derived, signature: string, f: Field)
    ensures Get(StoredFields(RecordOf(i, d, signature)) - {Name(SelfSignature)}, Name(f)) == Get(Signed(i, d), Name(f))
  {
    SignedLookup(i, d, f);
    if f != SelfSignature {
      if Name(f) == Name(SelfSignature) { NamesDiffer(f, SelfSignature); }
      StoredLookup(RecordOf(i, d, signature), f);
      FieldIsStoredAsSigned(i, d, signature, f);
    }
  }

  // ---------------------------------------------------------------- one signature, one record

  lemma FieldIsFloatFree(r: Record, f: Field)
    ensures StoredField(r, f).Some? ==> FloatFree(StoredField(r, f).value)
  {}

  lemma SignedPartIsFloatFree(r: Record)
    ensures FloatFree(SignedPart(r))
  {
    var fields := StoredFields(r) - {Name(SelfSignature)};
    forall k | k in fields ensures FloatFree(fields[k]) {
      FillUsesNames(STRUCT_ORDER, Storer(r), k);
      var f :| k == Name(f);
      StoredLookup(r, f);
      FieldIsFloatFree(r, f);
    }
  }

  lemma TextsAreInjective(a: seq<string>, b: seq<string>)
    requires Texts(a) == Texts(b)
    ensures a == b
  {
    assert |Texts(a).items| == |a| && |Texts(b).items| == |b|;
    forall i | 0 <= i < |a| ensures a[i] == b[i] {
      assert Texts(a).items[i] == String(a[i]) && Texts(b).items[i] == String(b[i]);
    }
  }

  lemma SameStoredField(r: Record, s: Record, f: Field)
    requires SignedPart(r) == SignedPart(s) && f != SelfSignature
    ensures StoredField(r, f) == StoredField(s, f)
  {
    StoredLookup(r, f);
    StoredLookup(s, f);
    if Name(f) == Name(SelfSignature) { NamesDiffer(f, SelfSignature); }
    assert Get(SignedPart(r).fields, Name(f)) == Get(StoredFields(r), Name(f));
    assert Get(SignedPart(s).fields, Name(f)) == Get(StoredFields(s), Name(f));
  }

  lemma FieldsDetermineTheRecord(r: Record, s: Record)
    requires forall f :: f != SelfSignature ==> StoredField(r, f) == StoredField(s, f)
    ensures s == r.(selfSignature := s.selfSignature)
  {
    SamePosture(r, s);
    SameOptions(r, s);
    SameEvidence(r, s);
    assert StoredField(r, PublicKey) == StoredField(s, PublicKey);
    assert StoredField(r, EncryptionPubKey) == StoredField(s, EncryptionPubKey);
    assert StoredField(r, ChipName) == StoredField(s, ChipName);
    assert StoredField(r, HardwareModel) == StoredField(s, HardwareModel);
    assert StoredField(r, SerialNumberHash) == StoredField(s, SerialNumberHash);
    assert StoredField(r, OsVersion) == StoredField(s, OsVersion);
    assert StoredField(r, BinaryHash) == StoredField(s, BinaryHash);
    assert StoredField(r, Tier) == StoredField(s, Tier);
    assert StoredField(r, AttestedAt) == StoredField(s, AttestedAt);
    assert StoredField(r, ExpiresAt) == StoredField(s, ExpiresAt);
  }

  lemma PostureIsStored(r: Record, f: Field)
    ensures PostureField(r.posture, f).Some? ==> StoredField(r, f) == PostureField(r.posture, f) && f != SelfSignature
  {}

  lemma SamePosture(r: Record, s: Record)
    requires forall f :: f != SelfSignature ==> StoredField(r, f) == StoredField(s, f)
    ensures r.posture == s.posture
  {
    forall f ensures PostureField(r.posture, f) == PostureField(s.posture, f) {
      PostureIsStored(r, f);
      PostureIsStored(s, f);
    }
    SystemFlagsAreInjective(r.posture, s.posture);
    ProcessFlagsAreInjective(r.posture, s.posture);
  }

  lemma SystemFlagsAreInjective(p: Posture, q: Posture)
    requires forall f :: PostureField(p, f) == PostureField(q, f)
    ensures p.sipEnabled == q.sipEnabled && p.secureBootEnabled == q.secureBootEnabled
    ensures p.secureEnclaveAvailable == q.secureEnclaveAvailable && p.rdmaDisabled == q.rdmaDisabled
    ensures p.authenticatedRootEnabled == q.authenticatedRootEnabled
  {
    assert PostureField(p, SipEnabled) == PostureField(q, SipEnabled);
    assert PostureField(p, SecureBootEnabled) == PostureField(q, SecureBootEnabled);
    assert PostureField(p, SecureEnclaveAvailable) == PostureField(q, SecureEnclaveAvailable);
    assert PostureField(p, AuthenticatedRootEnabled) == PostureField(q, AuthenticatedRootEnabled);
    assert PostureField(p, RdmaDisabled) == PostureField(q, RdmaDisabled);
  }

  lemma ProcessFlagsAreInjective(p: Posture, q: Posture)
    requires forall f :: PostureField(p, f) == PostureField(q, f)
    ensures p.hardenedRuntime == q.hardenedRuntime && p.libraryValidation == q.libraryValidation
    ensures p.getTaskAllow == q.getTaskAllow && p.inProcessBackend == q.inProcessBackend
    ensures p.antiDebug == q.antiDebug && p.coreDumpsDisabled == q.coreDumpsDisabled
    ensures p.envScrubbed == q.envScrubbed
  {
    assert PostureField(p, HardenedRuntime) == PostureField(q, HardenedRuntime);
    assert PostureField(p, LibraryValidation) == PostureField(q, LibraryValidation);
    assert PostureField(p, GetTaskAllow) == PostureField(q, GetTaskAllow);
    assert PostureField(p, InProcessBackend) == PostureField(q, InProcessBackend);
    assert PostureField(p, AntiDebug) == PostureField(q, AntiDebug);
    assert PostureField(p, CoreDumpsDisabled) == PostureField(q, CoreDumpsDisabled);
    assert PostureField(p, EnvScrubbed) == PostureField(q, EnvScrubbed);
  }

  lemma AppAttestsAreInjective(a: AppAttest, b: AppAttest)
    requires AppAttestJson(a) == AppAttestJson(b)
    ensures a == b
  {
    assert AppAttestJson(a).fields["object"] == AppAttestJson(b).fields["object"];
    assert AppAttestJson(a).fields["keyId"] == AppAttestJson(b).fields["keyId"];
  }

  lemma SameOptions(r: Record, s: Record)
    requires forall f :: f != SelfSignature ==> StoredField(r, f) == StoredField(s, f)
    ensures r.encScheme == s.encScheme && r.cdHash == s.cdHash && r.teamId == s.teamId
    ensures r.metallibHash == s.metallibHash && r.engineLibHash == s.engineLibHash
  {
    assert StoredField(r, EncScheme) == StoredField(s, EncScheme);
    assert StoredField(r, CdHash) == StoredField(s, CdHash);
    assert StoredField(r, TeamId) == StoredField(s, TeamId);
    assert StoredField(r, MetallibHash) == StoredField(s, MetallibHash);
    assert StoredField(r, EngineLibHash) == StoredField(s, EngineLibHash);
  }

  lemma SameEvidence(r: Record, s: Record)
    requires forall f :: f != SelfSignature ==> StoredField(r, f) == StoredField(s, f)
    ensures r.mdaCertChain == s.mdaCertChain && r.appAttest == s.appAttest
  {
    assert StoredField(r, MdaCertChain) == StoredField(s, MdaCertChain);
    assert StoredField(r, AppAttestField) == StoredField(s, AppAttestField);
    if r.mdaCertChain != [] { TextsAreInjective(r.mdaCertChain, s.mdaCertChain); }
    if r.appAttest.Some? { AppAttestsAreInjective(r.appAttest.value, s.appAttest.value); }
  }

  /** Two records with the same signed bytes are the same record: no field can be changed, dropped
      or added under a signature. */
  lemma SignedBytesDetermineTheRecord(r: Record, s: Record)
    requires FloatFree(SignedPart(r)) && FloatFree(SignedPart(s))
    requires Canonical(SignedPart(r)) == Canonical(SignedPart(s))
    ensures s == r.(selfSignature := s.selfSignature)
  {
    CanonicalReader.CanonicalIsUnambiguous(SignedPart(r), SignedPart(s));
    forall f | f != SelfSignature ensures StoredField(r, f) == StoredField(s, f) { SameStoredField(r, s, f); }
    FieldsDetermineTheRecord(r, s);
  }
}
