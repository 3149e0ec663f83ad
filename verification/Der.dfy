/** Reading tag-length-value elements (definite lengths, section 8.1.3 of X.690) and what is read with
    them: the nonce of an App Attest certificate and the authenticator data. */
module Der {
  import opened Wrappers
  import opened Utf8

  // ---------------------------------------------------------------- big-endian numbers

  function BigEndian(bytes: seq<Byte>): nat {
    if bytes == [] then 0 else BigEndian(bytes[..|bytes| - 1]) * 256 + bytes[|bytes| - 1]
  }

  function Pow256(n: nat): nat {
    if n == 0 then 1 else 256 * Pow256(n - 1)
  }

  /** A number in exactly n bytes. */
  function Bytes(n: nat, v: nat): (bytes: seq<Byte>)
    ensures |bytes| == n
  {
    if n == 0 then [] else Bytes(n - 1, v / 256) + [v % 256]
  }

  lemma {:induction false} BigEndianOfBytes(n: nat, v: nat)
    requires v < Pow256(n)
    ensures BigEndian(Bytes(n, v)) == v
  {
    if n > 0 {
      BigEndianOfBytes(n - 1, v / 256);
      assert Bytes(n, v)[..n - 1] == Bytes(n - 1, v / 256);
    }
  }

  lemma {:induction false} BytesOfBigEndian(bytes: seq<Byte>)
    ensures BigEndian(bytes) < Pow256(|bytes|)
    ensures Bytes(|bytes|, BigEndian(bytes)) == bytes
  {
    if bytes != [] {
      var front := bytes[..|bytes| - 1];
      BytesOfBigEndian(front);
      assert bytes == front + [bytes[|bytes| - 1]];
    }
  }

  // ---------------------------------------------------------------- encoding

  /** The length forms: 0 is the short form, n > 0 is the long form with n length bytes. */
  predicate Fits(form: nat, length: nat) {
    form <= 4 && if form == 0 then length < 128 else length < Pow256(form)
  }

  function Header(tag: Byte, form: nat, length: nat): seq<Byte>
    requires Fits(form, length)
  {
    if form == 0 then [tag, length] else [tag, 0x80 + form] + Bytes(form, length)
  }

  function Encoded(tag: Byte, form: nat, value: seq<Byte>): seq<Byte>
    requires Fits(form, |value|)
  {
    Header(tag, form, |value|) + value
  }

  // ---------------------------------------------------------------- the reader

  datatype Tlv = Tlv(tag: Byte, value: seq<Byte>, rest: seq<Byte>)

  /** The value of an element whose header is complete. */
  function Split(data: seq<Byte>, header: nat, length: nat): Option<Tlv>
    requires 2 <= |data|
  {
    if header + length > |data| then None
    else Some(Tlv(data[0], data[header..header + length], data[header + length..]))
  }

  function Tlvs(data: seq<Byte>): Option<Tlv> {
    if |data| < 2 then None
    else if data[1] < 0x80 then Split(data, 2, data[1])
    else
      var n := data[1] - 0x80;
      if n == 0 || n > 4 || |data| < 2 + n then None
      else Split(data, 2 + n, BigEndian(data[2..2 + n]))
  }

  method ReadTlv(data: seq<Byte>) returns (r: Option<Tlv>)
    ensures r == Tlvs(data)
  {
    if |data| < 2 { return None; }
    var tag, first := data[0], data[1];
    var length: nat, header: nat := 0, 2;
    if first < 0x80 {
      length := first;
    } else {
      var n := first - 0x80;
      if n == 0 || n > 4 || |data| < 2 + n { return None; }
      for i := 2 to 2 + n
        invariant length == BigEndian(data[2..i])
      {
        assert data[2..i + 1][..i - 2] == data[2..i];
        length := length * 256 + data[i];
      }
      header := 2 + n;
    }
    var end := header + length;
    if end > |data| { return None; }
    return Some(Tlv(tag, data[header..end], data[end..]));
  }

  lemma HeaderEnds(tag: Byte, form: nat, length: nat, more: seq<Byte>)
    requires Fits(form, length) && form > 0
    ensures (Header(tag, form, length) + more)[2..2 + form] == Bytes(form, length)
    ensures |Header(tag, form, length)| == 2 + form
  {}

  lemma SplitAtValue(header: seq<Byte>, value: seq<Byte>, rest: seq<Byte>)
    requires |header| >= 2
    ensures Split(header + value + rest, |header|, |value|) == Some(Tlv(header[0], value, rest))
  {
    var data := header + value + rest;
    assert data[|header|..|header| + |value|] == value;
    assert data[|header| + |value|..] == rest;
  }

  /** The reader undoes every definite-length encoding of a value under 2^32 bytes, whatever follows. */
  lemma ReadUndoesEncode(tag: Byte, form: nat, value: seq<Byte>, rest: seq<Byte>)
    requires Fits(form, |value|)
    ensures Tlvs(Encoded(tag, form, value) + rest) == Some(Tlv(tag, value, rest))
  {
    var header := Header(tag, form, |value|);
    var data := Encoded(tag, form, value) + rest;
    assert data == header + (value + rest);
    assert data == header + value + rest;
    SplitAtValue(header, value, rest);
    if form > 0 {
      HeaderEnds(tag, form, |value|, value + rest);
      BigEndianOfBytes(form, |value|);
      assert data[1] == 0x80 + form;
    } else {
      assert data[1] == |value|;
    }
  }

  /** A short value may be given a long-form length: one element has several encodings. */
  lemma NonMinimalIsAccepted(tag: Byte, value: seq<Byte>)
    requires |value| < 128
    ensures Encoded(tag, 0, value) != Encoded(tag, 1, value)
    ensures Tlvs(Encoded(tag, 0, value)) == Tlvs(Encoded(tag, 1, value)) == Some(Tlv(tag, value, []))
  {
    assert Pow256(1) == 256;
    ReadUndoesEncode(tag, 0, value, []);
    ReadUndoesEncode(tag, 1, value, []);
    assert Encoded(tag, 0, value) + [] == Encoded(tag, 0, value);
    assert Encoded(tag, 1, value) + [] == Encoded(tag, 1, value);
    assert |Encoded(tag, 0, value)| == 2 + |value|;
    assert |Encoded(tag, 1, value)| == 3 + |value|;
  }

  lemma Reassemble(data: seq<Byte>, header: nat, length: nat)
    requires 2 <= header && header + length <= |data|
    ensures data == data[..header] + data[header..header + length] + data[header + length..]
  {}

  /** And what it reads is such an encoding: nothing else is accepted. */
  lemma EncodeUndoesRead(data: seq<Byte>) returns (form: nat)
    requires Tlvs(data).Some?
    ensures var r := Tlvs(data).value; Fits(form, |r.value|) && data == Encoded(r.tag, form, r.value) + r.rest
  {
    if data[1] < 0x80 {
      form := 0;
      Reassemble(data, 2, data[1]);
      assert data[..2] == [data[0], data[1]];
    } else {
      form := data[1] - 0x80;
      var length := BigEndian(data[2..2 + form]);
      BytesOfBigEndian(data[2..2 + form]);
      Reassemble(data, 2 + form, length);
      assert data[..2 + form] == [data[0], data[1]] + data[2..2 + form];
    }
  }
}
