/** Converting a raw 64-byte signature to DER: a SEQUENCE of two INTEGERs (section 8.3 of X.690). */
module DerSignature {
  import opened Wrappers
  import opened Utf8
  import opened Der

  const INTEGER: Byte := 0x02
  const SEQUENCE: Byte := 0x30

  /** How many leading zero bytes are dropped; the last byte always stays. */
  function LeadingZeros(b: seq<Byte>, i: nat): (n: nat)
    requires i < |b|
    ensures i <= n < |b|
    decreases |b| - i
  {
    if i < |b| - 1 && b[i] == 0 then LeadingZeros(b, i + 1) else i
  }

  function Padded(trimmed: seq<Byte>): seq<Byte>
    requires trimmed != []
  {
    if trimmed[0] >= 0x80 then [0] + trimmed else trimmed
  }

  function IntegerValue(b: seq<Byte>): seq<Byte>
    requires b != []
  {
    Padded(b[LeadingZeros(b, 0)..])
  }

  method EncodeInt(b: seq<Byte>) returns (der: seq<Byte>)
    requires 0 < |b| <= 32
    ensures Fits(0, |IntegerValue(b)|) && der == Encoded(INTEGER, 0, IntegerValue(b))
  {
    var i := 0;
    while i < |b| - 1 && b[i] == 0
      invariant i < |b| && LeadingZeros(b, i) == LeadingZeros(b, 0)
    {
      i := i + 1;
    }
    var trimmed := b[i..];
    var pad := trimmed[0] >= 0x80;
    assert IntegerValue(b) == Padded(trimmed);
    der := [INTEGER, |trimmed| + if pad then 1 else 0] + (if pad then [0] else []) + trimmed;
  }

  method RawToDer(rawSig: seq<Byte>) returns (der: seq<Byte>)
    requires |rawSig| == 64
    ensures |der| >= 8 && der[0] == 0x30 && der[1] == |der| - 2
    ensures der[2] == 0x02 && 4 + der[3] < |der| && der[4 + der[3]] == 0x02
    ensures Fits(0, |Integers(rawSig)|) && der == Encoded(SEQUENCE, 0, Integers(rawSig))
  {
    assert rawSig[32..64] == rawSig[32..];
    var r := EncodeInt(rawSig[..32]);
    var s := EncodeInt(rawSig[32..64]);
    der := [SEQUENCE, |r| + |s|] + r + s;
    assert r + s == Integers(rawSig);
  }

  /** The body of the sequence: r and s, each with a one-byte length. */
  function Integers(rawSig: seq<Byte>): seq<Byte>
    requires |rawSig| == 64
  {
    Encoded(INTEGER, 0, IntegerValue(rawSig[..32])) + Encoded(INTEGER, 0, IntegerValue(rawSig[32..]))
  }

  // ---------------------------------------------------------------- the value of an integer

  lemma {:induction false} BigEndianAppend(a: seq<Byte>, b: seq<Byte>)
    requires BigEndian(a) == 0
    ensures BigEndian(a + b) == BigEndian(b)
  {
    if b == [] {
      assert a + b == a;
    } else {
      assert (a + b)[..|a + b| - 1] == a + b[..|b| - 1];
      BigEndianAppend(a, b[..|b| - 1]);
    }
  }

  lemma {:induction false} ZerosCountNothing(b: seq<Byte>, i: nat)
    requires i <= |b| && forall k :: 0 <= k < i ==> b[k] == 0
    ensures BigEndian(b[..i]) == 0
  {
    if i > 0 {
      ZerosCountNothing(b, i - 1);
      assert b[..i][..i - 1] == b[..i - 1];
    }
  }

  lemma {:induction false} OnlyZerosAreDropped(b: seq<Byte>, i: nat)
    requires i < |b| && forall k :: 0 <= k < i ==> b[k] == 0
    ensures var n := LeadingZeros(b, i);
      && (forall k :: 0 <= k < n ==> b[k] == 0)
      && (b[n] != 0 || n == |b| - 1)
    decreases |b| - i
  {
    if i < |b| - 1 && b[i] == 0 { OnlyZerosAreDropped(b, i + 1); }
  }

  /** A content that reads as a non-negative integer and could not be shorter. */
  predicate MinimalNonNegative(value: seq<Byte>) {
    && value != []
    && value[0] < 0x80
    && (|value| > 1 && value[0] == 0 ==> value[1] >= 0x80)
  }

  /** The integer has the value of the bytes, in the fewest bytes that keep it non-negative. */
  lemma IntegerKeepsTheValue(b: seq<Byte>)
    requires b != []
    ensures BigEndian(IntegerValue(b)) == BigEndian(b)
    ensures MinimalNonNegative(IntegerValue(b)) && |IntegerValue(b)| <= |b| + 1
  {
    var n := LeadingZeros(b, 0);
    OnlyZerosAreDropped(b, 0);
    ZerosCountNothing(b, n);
    assert b == b[..n] + b[n..];
    BigEndianAppend(b[..n], b[n..]);
    assert BigEndian([0]) == 0 by { assert [0][..0] == []; }
    BigEndianAppend([0], b[n..]);
  }

  /** For every 64-byte signature, reading the DER back gives a sequence with nothing after it, whose
      body is two minimal non-negative integers equal to r and s with nothing after them. */
  lemma SignatureRoundTrip(rawSig: seq<Byte>)
    requires |rawSig| == 64
    ensures Fits(0, |Integers(rawSig)|) && |Integers(rawSig)| <= 70
    ensures var outer := Tlvs(Encoded(SEQUENCE, 0, Integers(rawSig)));
      && outer == Some(Tlv(SEQUENCE, Integers(rawSig), []))
      && var r := Tlvs(Integers(rawSig));
      && r.Some? && r.value.tag == INTEGER && MinimalNonNegative(r.value.value)
      && BigEndian(r.value.value) == BigEndian(rawSig[..32])
      && var s := Tlvs(r.value.rest);
      && s.Some? && s.value.tag == INTEGER && MinimalNonNegative(s.value.value)
      && BigEndian(s.value.value) == BigEndian(rawSig[32..]) && s.value.rest == []
  {
    var r, s := IntegerValue(rawSig[..32]), IntegerValue(rawSig[32..]);
    IntegerKeepsTheValue(rawSig[..32]);
    IntegerKeepsTheValue(rawSig[32..]);
    var second := Encoded(INTEGER, 0, s);
    ReadUndoesEncode(INTEGER, 0, r, second);
    ReadUndoesEncode(INTEGER, 0, s, []);
    assert second + [] == second;
    ReadUndoesEncode(SEQUENCE, 0, Integers(rawSig), []);
    assert Encoded(SEQUENCE, 0, Integers(rawSig)) + [] == Encoded(SEQUENCE, 0, Integers(rawSig));
  }
}
