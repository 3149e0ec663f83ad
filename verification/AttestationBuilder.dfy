/** Building an attestation: the object to sign is assembled key by key, canonicalized and signed, and
    the record is made from the same values. Hashing the binary and signing may fail. */
module AttestationBuilder {
  import opened Wrappers
  import opened Utf8
  import opened CanonicalJson
  import opened FieldMerge
  import opened Attestation

  // ---------------------------------------------------------------- the object to sign

  lemma FillOneMore(i: Inputs, d: Derived, order: seq<Field>, f: Field, key: string, v: Option<Json>)
    requires key == Name(f) && v == SignedField(i, d, f)
    ensures Fill(order + [f], Signer(i, d)) ==
      if v.Some? then Fill(order, Signer(i, d))[key := v.value] else Fill(order, Signer(i, d))
  {
    FillMore(order, f, Signer(i, d));
  }

  const POSTURE_FIELDS: seq<Field> := [
    SipEnabled, SecureBootEnabled, SecureEnclaveAvailable, AuthenticatedRootEnabled, RdmaDisabled,
    HardenedRuntime, LibraryValidation, GetTaskAllow, InProcessBackend, AntiDebug, CoreDumpsDisabled, EnvScrubbed]

  /** The object under construction; `order` remembers which fields have been considered. */
  class Assembly {
    const i: Inputs
    const d: Derived
    var fields: Fields
    ghost var order: seq<Field>

    ghost predicate Valid()
      reads this
    {
      fields == Fill(order, Signer(i, d))
    }

    constructor (i: Inputs, d: Derived)
      ensures Valid() && order == [] && this.i == i && this.d == d
    {
      this.i, this.d := i, d;
      fields, order := map[], [];
    }

    /** Insert one field under its key, if it is present. */
    method Put(ghost f: Field, key: string, v: Option<Json>)
      requires Valid() && key == Name(f) && v == SignedField(i, d, f)
      modifies this
      ensures Valid() && order == old(order) + [f]
    {
      FillOneMore(i, d, order, f, key, v);
      if v.Some? { fields := fields[key := v.value]; }
      order := order + [f];
    }

    method PutKeys()
      requires Valid()
      modifies this
      ensures Valid() && order == old(order) + [PublicKey, EncryptionPubKey, ChipName, HardwareModel]
    {
      Put(PublicKey, "publicKey", Some(String(d.publicKey)));
      Put(EncryptionPubKey, "encryptionPubKey", Some(String(i.encryptionPubKey)));
      Put(ChipName, "chipName", Some(String(i.chipName)));
      Put(HardwareModel, "hardwareModel", Some(String(i.hardwareModel)));
    }

    method PutSystem()
      requires Valid()
      modifies this
      ensures Valid() && order == old(order) + [SerialNumberHash, OsVersion, BinaryHash]
    {
      Put(SerialNumberHash, "serialNumberHash", Some(String(d.serialHash)));
      Put(OsVersion, "osVersion", Some(String(i.osVersion)));
      Put(BinaryHash, "binaryHash", Some(String(d.binaryHash)));
    }

    method PutBoot()
      requires Valid()
      modifies this
      ensures Valid() && order == old(order) + [SipEnabled, SecureBootEnabled, SecureEnclaveAvailable]
    {
      Put(SipEnabled, "sipEnabled", Some(Bool(i.posture.sipEnabled)));
      Put(SecureBootEnabled, "secureBootEnabled", Some(Bool(i.posture.secureBootEnabled)));
      Put(SecureEnclaveAvailable, "secureEnclaveAvailable", Some(Bool(i.posture.secureEnclaveAvailable)));
    }

    method PutRoot()
      requires Valid()
      modifies this
      ensures Valid() && order == old(order) + [AuthenticatedRootEnabled, RdmaDisabled]
    {
      Put(AuthenticatedRootEnabled, "authenticatedRootEnabled", Some(Bool(i.posture.authenticatedRootEnabled)));
      Put(RdmaDisabled, "rdmaDisabled", Some(Bool(i.posture.rdmaDisabled)));
    }

    method PutRuntime()
      requires Valid()
      modifies this
      ensures Valid() && order == old(order) + [HardenedRuntime, LibraryValidation]
    {
      Put(HardenedRuntime, "hardenedRuntime", Some(Bool(i.posture.hardenedRuntime)));
      Put(LibraryValidation, "libraryValidation", Some(Bool(i.posture.libraryValidation)));
    }

    method PutProcess()
      requires Valid()
      modifies this
      ensures Valid() && order == old(order) + [GetTaskAllow, InProcessBackend]
    {
      Put(GetTaskAllow, "getTaskAllow", Some(Bool(i.posture.getTaskAllow)));
      Put(InProcessBackend, "inProcessBackend", Some(Bool(i.posture.inProcessBackend)));
    }

    method PutHardening()
      requires Valid()
      modifies this
      ensures Valid() && order == old(order) + [AntiDebug, CoreDumpsDisabled, EnvScrubbed]
    {
      Put(AntiDebug, "antiDebug", Some(Bool(i.posture.antiDebug)));
      Put(CoreDumpsDisabled, "coreDumpsDisabled", Some(Bool(i.posture.coreDumpsDisabled)));
      Put(EnvScrubbed, "envScrubbed", Some(Bool(i.posture.envScrubbed)));
    }

    method PutClaim()
      requires Valid()
      modifies this
      ensures Valid() && order == old(order) + [Tier, AttestedAt, ExpiresAt]
    {
      Put(Tier, "tier", Some(String(d.tier)));
      Put(AttestedAt, "attestedAt", Some(String(d.attestedAt)));
      Put(ExpiresAt, "expiresAt", Some(String(d.expiresAt)));
    }

    method PutMeasured()
      requires Valid()
      modifies this
      ensures Valid() && order == old(order) + [MdaCertChain, CdHash, TeamId]
    {
      Put(MdaCertChain, "mdaCertChain", if d.mdaChain != [] then Some(Texts(d.mdaChain)) else None);
      Put(CdHash, "cdHash", Text(i.cdHash));
      Put(TeamId, "teamId", Text(i.teamId));
    }

    method PutEngine()
      requires Valid()
      modifies this
      ensures Valid() && order == old(order) + [MetallibHash, EngineLibHash, EncScheme]
    {
      Put(MetallibHash, "metallibHash", Text(i.metallibHash));
      Put(EngineLibHash, "engineLibHash", Text(i.engineLibHash));
      Put(EncScheme, "encScheme", if i.encScheme != "x25519" then Some(String(i.encScheme)) else None);
    }

    method PutEvidence()
      requires Valid()
      modifies this
      ensures Valid() && order == old(order) + [AppAttestField]
    {
      var evidence := None;
      if d.appAttest.Some? {
        var a := d.appAttest.value;
        evidence := Some(Object(map["object" := String(a.object_), "keyId" := String(a.keyId)]));
      }
      Put(AppAttestField, "appAttest", evidence);
    }

    method PutPosture()
      requires Valid()
      modifies this
      ensures Valid() && order == old(order) + POSTURE_FIELDS
    {
      PutBoot();
      PutRoot();
      PutRuntime();
      PutProcess();
      PutHardening();
    }

    method PutAlways()
      requires Valid() && order == []
      modifies this
      ensures Valid() && order == ALWAYS_SIGNED
    {
      PutKeys();
      PutSystem();
      PutPosture();
      PutClaim();
    }
  }

  /** The object that is signed: the fixed fields, then the optional ones that are present. */
  method BuildUnsigned(i: Inputs, d: Derived) returns (unsigned: Fields)
    ensures unsigned == Signed(i, d)
  {
    var assembly := new Assembly(i, d);
    assembly.PutAlways();
    assembly.PutMeasured();
    assembly.PutEngine();
    assembly.PutEvidence();
    OptionalOrder(ALWAYS_SIGNED);
    unsigned := assembly.fields;
  }

  lemma OptionalOrder(order: seq<Field>)
    ensures order + [MdaCertChain, CdHash, TeamId] + [MetallibHash, EngineLibHash, EncScheme] + [AppAttestField] ==
            order + SOMETIMES_SIGNED
  {}

  // ---------------------------------------------------------------- the record

  datatype BuildError = HashFailed(reason: string) | SignFailed(reason: string)

  /** The finished record carries the signature of the bytes that a verifier rebuilds from it; the
      confidential tier is claimed exactly under the full posture, and hardware evidence is carried
      exactly when it verified and is bound to the signing key. Building fails exactly when the
      binary cannot be hashed or those bytes cannot be signed. */
  method Build(
      i: Inputs, publicKey: string, hashSerial: string -> string, hashed: Result<string, string>,
      sign: seq<Byte> -> Result<string, string>, attestedAt: string, expiresAt: string)
    returns (r: Result<Record, BuildError>)
    ensures hashed.Err? ==> r == Err(HashFailed(hashed.error))
    ensures hashed.Ok? ==>
      var record := RecordOf(i, Derive(i, publicKey, hashSerial, hashed.value, attestedAt, expiresAt), "");
      && FloatFree(SignedPart(record))
      && r == match sign(Canonical(SignedPart(record))) {
           case Ok(signature) => Ok(record.(selfSignature := signature))
           case Err(reason) => Err(SignFailed(reason))
         }
    ensures r.Ok? ==>
      && FloatFree(SignedPart(r.value)) && sign(Canonical(SignedPart(r.value))) == Ok(r.value.selfSignature)
      && r.value.publicKey == publicKey && r.value.encryptionPubKey == i.encryptionPubKey
      && r.value.chipName == i.chipName && r.value.hardwareModel == i.hardwareModel && r.value.osVersion == i.osVersion
      && r.value.posture == i.posture && r.value.binaryHash == hashed.value
      && r.value.cdHash == i.cdHash && r.value.teamId == i.teamId
      && r.value.metallibHash == i.metallibHash && r.value.engineLibHash == i.engineLibHash
      && r.value.attestedAt == attestedAt && r.value.expiresAt == expiresAt
      && (var capable :=
            && i.posture.inProcessBackend && !i.posture.getTaskAllow && i.posture.hardenedRuntime
            && i.posture.libraryValidation && i.posture.antiDebug && i.posture.coreDumpsDisabled
            && i.posture.envScrubbed && i.posture.sipEnabled && i.posture.secureBootEnabled && i.cdHash.Some?;
          r.value.tier == if capable then "attested-confidential" else "best-effort")
      && (var bound := i.mdaCertChain != [] && i.mda.Checked? && i.mda.valid && i.mda.bindsKey;
          && r.value.mdaCertChain == (if bound then i.mdaCertChain else [])
          && r.value.serialNumberHash ==
               hashSerial(if bound && i.mda.deviceSerial.Some? then i.mda.deviceSerial.value else i.serialNumber))
      && r.value.appAttest == (if i.appAttestVerifies then i.appAttest else None)
      && r.value.encScheme == (if i.encScheme == "x25519" then None else Some(i.encScheme))
  {
    if hashed.Err? { return Err(HashFailed(hashed.error)); }
    var serialHash := hashSerial(i.serialNumber);
    var mdaChain: seq<string> := [];
    if i.mdaCertChain != [] && i.mda.Checked? && i.mda.valid && i.mda.bindsKey {
      if i.mda.deviceSerial.Some? { serialHash := hashSerial(i.mda.deviceSerial.value); }
      mdaChain := i.mdaCertChain;
    }
    var appAttest := None;
    if i.appAttest.Some? && i.appAttestVerifies { appAttest := i.appAttest; }
    var tier := if ConfidentialCapable(i) then "attested-confidential" else "best-effort";
    var d := Derived(publicKey, serialHash, hashed.value, mdaChain, appAttest, tier, attestedAt, expiresAt);
    assert d == Derive(i, publicKey, hashSerial, hashed.value, attestedAt, expiresAt);
    var unsigned := BuildUnsigned(i, d);
    StoredIsSigned(i, d, "");
    SignedPartIsFloatFree(RecordOf(i, d, ""));
    var canonical := ToCanonicalBytes(Object(unsigned));
    var signature := sign(canonical.value);
    if signature.Err? { return Err(SignFailed(signature.error)); }
    StoredIsSigned(i, d, signature.value);
    r := Ok(RecordOf(i, d, signature.value));
  }
}
