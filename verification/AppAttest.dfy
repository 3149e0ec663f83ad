/** The two byte layouts that App Attest verification reads: the nonce extension of the credential
    certificate, and the authenticator data. */
module AppAttest {
  import opened Wrappers
  import opened Utf8
  import opened Der

  // ---------------------------------------------------------------- the nonce extension

  const SEQUENCE: Byte := 0x30
  const CONTEXT_1: Byte := 0xA1
  const OCTET_STRING: Byte := 0x04

  function ParseNonceExtension(ext: seq<Byte>): Option<seq<Byte>> {
    match Tlvs(ext)
    case None => None
    case Some(outer) =>
      if outer.tag != SEQUENCE then None
      else
        match Tlvs(outer.value)
        case None => None
        case Some(context) =>
          if context.tag != CONTEXT_1 then None
          else
            match Tlvs(context.value)
            case None => None
            case Some(octets) =>
              if octets.tag != OCTET_STRING || |octets.value| != 32 then None else Some(octets.value)
  }

  /** How an extension may be laid out: the length form of each level and what follows its element. */
  datatype Layout = Layout(form: nat, rest: seq<Byte>)

  ghost predicate CanHold(value: seq<Byte>, l: Layout) {
    Fits(l.form, |value|)
  }

  ghost function Wrap(tag: Byte, value: seq<Byte>, l: Layout): seq<Byte>
    requires CanHold(value, l)
  {
    Encoded(tag, l.form, value) + l.rest
  }

  ghost predicate Nests(nonce: seq<Byte>, inner: Layout, middle: Layout, outer: Layout) {
    && CanHold(nonce, inner)
    && CanHold(Wrap(OCTET_STRING, nonce, inner), middle)
    && CanHold(Wrap(CONTEXT_1, Wrap(OCTET_STRING, nonce, inner), middle), outer)
  }

  ghost function Extension(nonce: seq<Byte>, inner: Layout, middle: Layout, outer: Layout): seq<Byte>
    requires Nests(nonce, inner, middle, outer)
  {
    Wrap(SEQUENCE, Wrap(CONTEXT_1, Wrap(OCTET_STRING, nonce, inner), middle), outer)
  }

  /** A well-encoded nonce is recovered exactly when it has 32 bytes. */
  lemma NonceIsRecoveredIff(nonce: seq<Byte>, inner: Layout, middle: Layout, outer: Layout)
    requires Nests(nonce, inner, middle, outer)
    ensures ParseNonceExtension(Extension(nonce, inner, middle, outer)) == if |nonce| == 32 then Some(nonce) else None
  {
    var a := Wrap(OCTET_STRING, nonce, inner);
    var b := Wrap(CONTEXT_1, a, middle);
    ReadUndoesEncode(SEQUENCE, outer.form, b, outer.rest);
    ReadUndoesEncode(CONTEXT_1, middle.form, a, middle.rest);
    ReadUndoesEncode(OCTET_STRING, inner.form, nonce, inner.rest);
  }

  /** The extension as it is issued: a nonce of 32 bytes in an OCTET STRING, in [1], in a SEQUENCE, all
      with one-byte lengths. */
  lemma IssuedNonceIsRecovered(nonce: seq<Byte>)
    requires |nonce| == 32
    ensures ParseNonceExtension([0x30, 0x24, 0xA1, 0x22, 0x04, 0x20] + nonce) == Some(nonce)
  {
    var plain := Layout(0, []);
    var octets := [0x04, 0x20] + nonce;
    assert Wrap(OCTET_STRING, nonce, plain) == octets;
    assert Wrap(CONTEXT_1, octets, plain) == [0xA1, 0x22] + octets;
    assert Wrap(SEQUENCE, [0xA1, 0x22] + octets, plain) == [0x30, 0x24] + ([0xA1, 0x22] + octets);
    assert [0x30, 0x24, 0xA1, 0x22, 0x04, 0x20] + nonce == [0x30, 0x24] + ([0xA1, 0x22] + octets);
    NonceIsRecoveredIff(nonce, plain, plain, plain);
  }

  /** Nothing but such a nesting yields a nonce. */
  lemma OnlyNestingsYieldANonce(ext: seq<Byte>) returns (inner: Layout, middle: Layout, outer: Layout)
    requires ParseNonceExtension(ext).Some?
    ensures var nonce := ParseNonceExtension(ext).value;
      |nonce| == 32 && Nests(nonce, inner, middle, outer) && ext == Extension(nonce, inner, middle, outer)
  {
    var o := Tlvs(ext).value;
    var m := Tlvs(o.value).value;
    var i := Tlvs(m.value).value;
    var outerForm := EncodeUndoesRead(ext);
    var middleForm := EncodeUndoesRead(o.value);
    var innerForm := EncodeUndoesRead(m.value);
    inner, middle, outer := Layout(innerForm, i.rest), Layout(middleForm, m.rest), Layout(outerForm, o.rest);
  }

  // ---------------------------------------------------------------- authenticator data

  datatype AuthData = AuthData(rpIdHash: seq<Byte>, aaguid: seq<Byte>, credentialId: seq<Byte>)

  datatype AuthDataError = ShortAuthData(length: nat) | NoAttestedCredentialData

  /** The bit of the flags that announces attested credential data. */
  predicate Attested(flags: Byte) {
    flags / 0x40 % 2 == 1
  }

  /** Bit 6, which has the value 64. */
  lemma AttestedIsBitSix(flags: Byte)
    ensures Attested(flags) <==> flags as bv8 & 0x40 == 0x40
  {
    BitSix(flags as bv8);
  }

  lemma BitSix(flags: bv8)
    ensures (flags & 0x40 == 0x40) <==> (flags / 0x40) % 2 == 1
  {}

  function U16(hi: Byte, lo: Byte): nat {
    var h: nat := hi;
    h * 256 + lo
  }

  function ParseAuthData(ad: seq<Byte>): Result<AuthData, AuthDataError> {
    if |ad| < 37 then Err(ShortAuthData(|ad|))
    else if !Attested(ad[32]) then Err(NoAttestedCredentialData)
    else if |ad| < 55 then Err(ShortAuthData(|ad|))
    else
      var end := 55 + U16(ad[53], ad[54]);
      if end > |ad| then Err(ShortAuthData(|ad|))
      else Ok(AuthData(ad[..32], ad[37..53], ad[55..end]))
  }

  ghost predicate WellFormed(d: AuthData, signCount: seq<Byte>) {
    |d.rpIdHash| == 32 && |signCount| == 4 && |d.aaguid| == 16 && |d.credentialId| < 0x1_0000
  }

  ghost function Serialized(d: AuthData, flags: Byte, signCount: seq<Byte>, rest: seq<Byte>): seq<Byte>
    requires WellFormed(d, signCount)
  {
    var n := |d.credentialId|;
    d.rpIdHash + [flags] + signCount + d.aaguid + [n / 256, n % 256] + d.credentialId + rest
  }

  lemma Parts(a: seq<Byte>, flags: Byte, c: seq<Byte>, d: seq<Byte>, hi: Byte, lo: Byte, e: seq<Byte>, rest: seq<Byte>)
    requires |a| == 32 && |c| == 4 && |d| == 16
    ensures var s := a + [flags] + c + d + [hi, lo] + e + rest;
      |s| == 55 + |e| + |rest| && s[..32] == a && s[32] == flags && s[37..53] == d
      && s[53] == hi && s[54] == lo && s[55..55 + |e|] == e
  {
    var s := a + [flags] + c + d + [hi, lo] + e + rest;
    assert s == a + ([flags] + c + d + [hi, lo] + e + rest);
    assert s == (a + [flags] + c) + (d + ([hi, lo] + e + rest));
    assert s == (a + [flags] + c + d + [hi, lo]) + (e + rest);
  }

  /** Every laid-out authenticator data with the flag set is read back, whatever follows it. */
  lemma ParseUndoesSerialize(d: AuthData, flags: Byte, signCount: seq<Byte>, rest: seq<Byte>)
    requires WellFormed(d, signCount)
    ensures ParseAuthData(Serialized(d, flags, signCount, rest)) ==
      if Attested(flags) then Ok(d) else Err(NoAttestedCredentialData)
  {
    var n := |d.credentialId|;
    Parts(d.rpIdHash, flags, signCount, d.aaguid, n / 256, n % 256, d.credentialId, rest);
  }

  /** And what is read back is laid out so. */
  lemma SerializeUndoesParse(ad: seq<Byte>)
    requires ParseAuthData(ad).Ok?
    ensures var d := ParseAuthData(ad).value; var signCount := ad[33..37]; var end := 55 + |d.credentialId|;
      && end <= |ad| && WellFormed(d, signCount) && Attested(ad[32])
      && ad == Serialized(d, ad[32], signCount, ad[end..])
  {
    var d := ParseAuthData(ad).value;
    var n := |d.credentialId|;
    assert n == U16(ad[53], ad[54]);
    assert n / 256 == ad[53] && n % 256 == ad[54];
    assert ad[..33] == ad[..32] + [ad[32]];
    assert ad[..37] == ad[..33] + ad[33..37];
    assert ad[..53] == ad[..37] + ad[37..53];
    assert ad[..55] == ad[..53] + [ad[53], ad[54]];
    assert ad[..55 + n] == ad[..55] + ad[55..55 + n];
    assert ad == ad[..55 + n] + ad[55 + n..];
  }

  ghost predicate IsLayout(ad: seq<Byte>, d: AuthData, signCount: seq<Byte>, rest: seq<Byte>) {
    |ad| > 32 && WellFormed(d, signCount) && ad == Serialized(d, ad[32], signCount, rest)
  }

  /** Exactly the laid-out data with the flag is read; data without it is told apart as soon as the fixed
      part, 37 bytes, is there; everything else is too short, and its length is reported. */
  lemma ErrorsTellWhy(ad: seq<Byte>)
    ensures ParseAuthData(ad).Ok? <==>
      |ad| > 32 && Attested(ad[32]) && exists d, signCount, rest :: IsLayout(ad, d, signCount, rest)
    ensures ParseAuthData(ad) == Err(NoAttestedCredentialData) <==> 37 <= |ad| && !Attested(ad[32])
    ensures ParseAuthData(ad).Err? && ParseAuthData(ad).error.ShortAuthData? ==>
      ParseAuthData(ad).error.length == |ad|
  {
    if ParseAuthData(ad).Ok? {
      SerializeUndoesParse(ad);
      var d := ParseAuthData(ad).value;
      assert IsLayout(ad, d, ad[33..37], ad[55 + |d.credentialId|..]);
    }
    if d, signCount, rest :| IsLayout(ad, d, signCount, rest) { ParseUndoesSerialize(d, ad[32], signCount, rest); }
  }
}
