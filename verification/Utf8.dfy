/** UTF-8 as in section 3 of RFC 3629, for Unicode scalar values: the encoder, a strict decoder
    that undoes it, and the fact that comparing encoded bytes compares code points. */
module Utf8 {
  import opened Wrappers

  type Byte = b: int | 0 <= b < 256

  function Encode(c: char): (bytes: seq<Byte>)
    ensures 1 <= |bytes| <= 4
  {
    var n := c as int;
    if n < 0x80 then [n]
    else if n < 0x800 then [0xC0 + n / 64, 0x80 + n % 64]
    else if n < 0x1_0000 then [0xE0 + n / 4096, 0x80 + n / 64 % 64, 0x80 + n % 64]
    else [0xF0 + n / 262144, 0x80 + n / 4096 % 64, 0x80 + n / 64 % 64, 0x80 + n % 64]
  }

  function EncodeAll(s: string): seq<Byte> {
    if s == [] then [] else Encode(s[0]) + EncodeAll(s[1..])
  }

  // ---------------------------------------------------------------- order

  /** Lexicographic order, a proper prefix coming first. */
  predicate LexLess(a: seq<int>, b: seq<int>) {
    if b == [] then false
    else if a == [] then true
    else a[0] < b[0] || (a[0] == b[0] && LexLess(a[1..], b[1..]))
  }

  function CodePoints(s: string): seq<int> {
    seq(|s|, i requires 0 <= i < |s| => s[i] as int)
  }

  lemma {:induction false} LexLessCommonPrefix(p: seq<int>, a: seq<int>, b: seq<int>)
    ensures LexLess(p + a, p + b) <==> LexLess(a, b)
    decreases |p|
  {
    if p == [] {
      assert p + a == a && p + b == b;
    } else {
      assert (p + a)[1..] == p[1..] + a && (p + b)[1..] == p[1..] + b;
      LexLessCommonPrefix(p[1..], a, b);
    }
  }

  lemma {:induction false} LexLessAt(a: seq<int>, b: seq<int>, i: nat)
    requires i < |a| && i < |b| && a[..i] == b[..i] && a[i] < b[i]
    ensures LexLess(a, b) && !LexLess(b, a)
    decreases i
  {
    if i > 0 {
      assert a[0] == a[..i][0] && b[0] == b[..i][0];
      assert a[1..][..i - 1] == a[..i][1..] && b[1..][..i - 1] == b[..i][1..];
      LexLessAt(a[1..], b[1..], i - 1);
    }
  }

  /** Base-64 digits: the quotient decides, then the remainder. */
  lemma DigitOrder(n: nat, m: nat)
    requires n < m
    ensures n / 64 < m / 64 || (n / 64 == m / 64 && n % 64 < m % 64)
  {}

  lemma Quotients(n: nat)
    ensures n / 64 / 64 == n / 4096 && n / 64 / 64 / 64 == n / 262144
  {}

  /** The first base-64 digit, from the left, in which two numbers differ decides their order. */
  lemma NumberOrder(n: nat, m: nat)
    requires n < m
    ensures if n / 64 == m / 64 then n % 64 < m % 64
            else if n / 4096 == m / 4096 then n / 64 % 64 < m / 64 % 64
            else if n / 262144 == m / 262144 then n / 4096 % 64 < m / 4096 % 64
            else n / 262144 < m / 262144
    ensures n / 64 == m / 64 ==> n / 4096 == m / 4096
    ensures n / 4096 == m / 4096 ==> n / 262144 == m / 262144
    ensures n / 4096 <= m / 4096
  {
    Quotients(n);
    Quotients(m);
    DigitOrder(n, m);
    if n / 64 < m / 64 { DigitOrder(n / 64, m / 64); }
    if n / 4096 < m / 4096 { DigitOrder(n / 4096, m / 4096); }
  }

  /** The first position where the encodings differ. */
  function DifferAt(c: char, d: char): nat {
    var n, m := c as int, d as int;
    if |Encode(c)| != |Encode(d)| || |Encode(c)| == 1 then 0
    else if n / 64 == m / 64 then |Encode(c)| - 1
    else if n / 4096 == m / 4096 then |Encode(c)| - 2
    else if n / 262144 == m / 262144 then |Encode(c)| - 3
    else 0
  }

  ghost predicate OrderedAt(a: seq<Byte>, b: seq<Byte>, i: nat) {
    && i < |a| && i < |b| && a[i] < b[i]
    && forall j :: 0 <= j < i ==> a[j] == b[j]
  }

  lemma EncodeOrderSameLength(c: char, d: char, length: nat)
    requires c < d && |Encode(c)| == |Encode(d)| == length
    ensures OrderedAt(Encode(c), Encode(d), DifferAt(c, d))
  {
    var n, m := c as int, d as int;
    NumberOrder(n, m);
    if length == 2 {
      assert OrderedAt([0xC0 + n / 64, 0x80 + n % 64], [0xC0 + m / 64, 0x80 + m % 64], DifferAt(c, d));
    }
  }

  lemma EncodeLength(c: char, d: char)
    requires c < d
    ensures |Encode(c)| <= |Encode(d)|
    ensures |Encode(c)| < |Encode(d)| ==> Encode(c)[0] < Encode(d)[0]
  {}

  /** The encodings of two different characters differ at some common position, the smaller
      character having the smaller byte there. */
  lemma EncodeOrder(c: char, d: char)
    requires c < d
    ensures OrderedAt(Encode(c), Encode(d), DifferAt(c, d))
  {
    EncodeLength(c, d);
    if |Encode(c)| == |Encode(d)| { EncodeOrderSameLength(c, d, |Encode(c)|); }
  }

  /** The first character of each decides, whatever follows. */
  lemma HeadsDecide(c: char, d: char, x: seq<Byte>, y: seq<Byte>)
    requires c < d
    ensures LexLess(Encode(c) + x, Encode(d) + y) && !LexLess(Encode(d) + y, Encode(c) + x)
  {
    EncodeOrder(c, d);
    LexLessAt(Encode(c) + x, Encode(d) + y, DifferAt(c, d));
  }

  /** Comparing the UTF-8 bytes of two strings compares their code points. */
  lemma {:induction false} BytesOrderIsCodePointOrder(a: string, b: string)
    ensures LexLess(EncodeAll(a), EncodeAll(b)) <==> LexLess(CodePoints(a), CodePoints(b))
    decreases |a|
  {
    if a != [] && b != [] {
      var x, y := EncodeAll(a[1..]), EncodeAll(b[1..]);
      assert CodePoints(a)[1..] == CodePoints(a[1..]) && CodePoints(b)[1..] == CodePoints(b[1..]);
      if a[0] == b[0] {
        LexLessCommonPrefix(Encode(a[0]), x, y);
        BytesOrderIsCodePointOrder(a[1..], b[1..]);
      } else if a[0] < b[0] {
        HeadsDecide(a[0], b[0], x, y);
      } else {
        HeadsDecide(b[0], a[0], y, x);
      }
    }
  }

  lemma {:induction false} LexLessTrichotomy(a: seq<int>, b: seq<int>)
    ensures LexLess(a, b) || LexLess(b, a) || a == b
    ensures !(LexLess(a, b) && LexLess(b, a))
    decreases |a|
  {
    if a != [] && b != [] {
      LexLessTrichotomy(a[1..], b[1..]);
      assert a == [a[0]] + a[1..] && b == [b[0]] + b[1..];
    }
  }

  lemma {:induction false} LexLessTransitive(a: seq<int>, b: seq<int>, c: seq<int>)
    requires LexLess(a, b) && LexLess(b, c)
    ensures LexLess(a, c)
    decreases |a|
  {
    if a != [] && a[0] == b[0] == c[0] { LexLessTransitive(a[1..], b[1..], c[1..]); }
  }

  // ---------------------------------------------------------------- strict decoding

  predicate IsScalar(n: int) {
    0 <= n < 0xD800 || 0xE000 <= n < 0x11_0000
  }

  function Continuation(b: Byte): Option<int> {
    if 0x80 <= b < 0xC0 then Some(b - 0x80) else None
  }

  /** Read one character: the shortest form only, no surrogates, nothing above U+10FFFF. */
  function Decode(bytes: seq<Byte>): (r: Option<(char, seq<Byte>)>)
    ensures r.Some? ==> |r.value.1| < |bytes|
  {
    if bytes == [] then None
    else if bytes[0] < 0x80 then Some((bytes[0] as char, bytes[1..]))
    else if 0xC0 <= bytes[0] < 0xE0 && |bytes| >= 2 then
      Assemble(bytes[0] - 0xC0, bytes[1..2], 0x80, bytes[2..])
    else if 0xE0 <= bytes[0] < 0xF0 && |bytes| >= 3 then
      Assemble(bytes[0] - 0xE0, bytes[1..3], 0x800, bytes[3..])
    else if 0xF0 <= bytes[0] < 0xF8 && |bytes| >= 4 then
      Assemble(bytes[0] - 0xF0, bytes[1..4], 0x1_0000, bytes[4..])
    else None
  }

  function Assemble(lead: int, tail: seq<Byte>, least: int, rest: seq<Byte>): (r: Option<(char, seq<Byte>)>)
    ensures r.Some? ==> r.value.1 == rest
  {
    var n := Fold(lead, tail);
    if n.None? || n.value < least || !IsScalar(n.value) then None
    else Some((n.value as char, rest))
  }

  function Fold(acc: int, tail: seq<Byte>): Option<int>
    decreases |tail|
  {
    if tail == [] then Some(acc)
    else
      var k := Continuation(tail[0]);
      if k.None? then None else Fold(acc * 64 + k.value, tail[1..])
  }

  lemma FoldOne(acc: int, a: int)
    requires 0 <= a < 64
    ensures Fold(acc, [0x80 + a]) == Some(acc * 64 + a)
  {
    assert Fold(acc * 64 + a, [0x80 + a][1..]) == Some(acc * 64 + a);
  }

  lemma FoldTwo(acc: int, a: int, b: int)
    requires 0 <= a < 64 && 0 <= b < 64
    ensures Fold(acc, [0x80 + a, 0x80 + b]) == Some((acc * 64 + a) * 64 + b)
  {
    assert [0x80 + a, 0x80 + b][1..] == [0x80 + b];
    FoldOne(acc * 64 + a, b);
  }

  lemma FoldThree(acc: int, a: int, b: int, c: int)
    requires 0 <= a < 64 && 0 <= b < 64 && 0 <= c < 64
    ensures Fold(acc, [0x80 + a, 0x80 + b, 0x80 + c]) == Some(((acc * 64 + a) * 64 + b) * 64 + c)
  {
    assert [0x80 + a, 0x80 + b, 0x80 + c][1..] == [0x80 + b, 0x80 + c];
    FoldTwo(acc * 64 + a, b, c);
  }

  /** Decoding undoes encoding, whatever follows. */
  lemma DecodeUndoesEncode(c: char, rest: seq<Byte>)
    ensures Decode(Encode(c) + rest) == Some((c, rest))
  {
    var n, bytes, count := c as int, Encode(c) + rest, |Encode(c)| - 1;
    assert bytes[count + 1..] == rest;
    assert count > 0 ==> bytes[1..count + 1] == Encode(c)[1..];
    Quotients(n);
    if count == 1 {
      FoldOne(n / 64, n % 64);
    } else if count == 2 {
      FoldTwo(n / 4096, n / 64 % 64, n % 64);
    } else if count == 3 {
      FoldThree(n / 262144, n / 4096 % 64, n / 64 % 64, n % 64);
    }
  }

  lemma {:induction false} FoldReads(acc: int, tail: seq<Byte>)
    requires Fold(acc, tail).Some?
    ensures forall k :: 0 <= k < |tail| ==> 0x80 <= tail[k] < 0xC0
    ensures |tail| == 1 ==> Fold(acc, tail) == Some(acc * 64 + (tail[0] - 0x80))
    ensures |tail| == 2 ==> Fold(acc, tail) == Some((acc * 64 + (tail[0] - 0x80)) * 64 + (tail[1] - 0x80))
    ensures |tail| == 3 ==>
      Fold(acc, tail) == Some(((acc * 64 + (tail[0] - 0x80)) * 64 + (tail[1] - 0x80)) * 64 + (tail[2] - 0x80))
    decreases |tail|
  {
    if tail != [] { FoldReads(acc * 64 + (tail[0] - 0x80), tail[1..]); }
  }

  lemma EncodeOfTwo(lead: int, a: int, c: char)
    requires 0 <= lead < 32 && 0 <= a < 64 && c as int == lead * 64 + a >= 0x80
    ensures Encode(c) == [0xC0 + lead, 0x80 + a]
  {}

  lemma EncodeOfThree(lead: int, a: int, b: int, c: char)
    requires 0 <= lead < 16 && 0 <= a < 64 && 0 <= b < 64 && c as int == (lead * 64 + a) * 64 + b >= 0x800
    ensures Encode(c) == [0xE0 + lead, 0x80 + a, 0x80 + b]
  {
    var n := c as int;
    assert n / 64 == lead * 64 + a && n / 4096 == lead;
  }

  lemma EncodeOfFour(lead: int, a: int, b: int, d: int, c: char)
    requires 0 <= lead < 8 && 0 <= a < 64 && 0 <= b < 64 && 0 <= d < 64
    requires c as int == ((lead * 64 + a) * 64 + b) * 64 + d >= 0x1_0000
    ensures Encode(c) == [0xF0 + lead, 0x80 + a, 0x80 + b, 0x80 + d]
  {
    var n := c as int;
    assert n / 64 == (lead * 64 + a) * 64 + b && n / 4096 == lead * 64 + a && n / 262144 == lead;
  }

  /** Whatever the strict decoder reads is the encoding of the character: there is no other. */
  lemma EncodeUndoesDecode(bytes: seq<Byte>)
    requires Decode(bytes).Some?
    ensures var (c, rest) := Decode(bytes).value; bytes == Encode(c) + rest
  {
    var (c, rest) := Decode(bytes).value;
    var n := |bytes| - |rest|;
    assert bytes == bytes[..n] + rest;
    if bytes[0] >= 0x80 {
      FoldReads(if n == 2 then bytes[0] - 0xC0 else if n == 3 then bytes[0] - 0xE0 else bytes[0] - 0xF0, bytes[1..n]);
      if n == 2 { EncodeOfTwo(bytes[0] - 0xC0, bytes[1] - 0x80, c); }
      else if n == 3 { EncodeOfThree(bytes[0] - 0xE0, bytes[1] - 0x80, bytes[2] - 0x80, c); }
      else { EncodeOfFour(bytes[0] - 0xF0, bytes[1] - 0x80, bytes[2] - 0x80, bytes[3] - 0x80, c); }
    }
    assert bytes[..n] == Encode(c);
  }

  // ---------------------------------------------------------------- what the order and the bytes are

  /** The sequences agree before position i; there a has ended, or has the smaller element. */
  predicate FirstDifference(a: seq<int>, b: seq<int>, i: nat) {
    i <= |a| && i < |b| && a[..i] == b[..i] && (i == |a| || a[i] < b[i])
  }

  lemma FirstDifferenceInTail(a: seq<int>, b: seq<int>, i: nat)
    requires a != [] && b != [] && a[0] == b[0]
    ensures FirstDifference(a, b, i + 1) <==> FirstDifference(a[1..], b[1..], i)
  {
    if FirstDifference(a, b, i + 1) {
      assert a[1..][..i] == a[..i + 1][1..] && b[1..][..i] == b[..i + 1][1..];
    }
    if FirstDifference(a[1..], b[1..], i) {
      assert a[..i + 1] == [a[0]] + a[1..][..i] && b[..i + 1] == [b[0]] + b[1..][..i];
    }
  }

  /** The order is decided at the first difference, or by the end of the shorter sequence. */
  lemma {:induction false} LexLessIff(a: seq<int>, b: seq<int>)
    ensures LexLess(a, b) <==> exists i: nat :: FirstDifference(a, b, i)
    decreases |a|
  {
    if b == [] {
    } else if a == [] || a[0] < b[0] {
      assert FirstDifference(a, b, 0);
    } else if a[0] == b[0] {
      LexLessIff(a[1..], b[1..]);
      if i: nat :| FirstDifference(a, b, i) { FirstDifferenceInTail(a, b, i - 1); }
      if i: nat :| FirstDifference(a[1..], b[1..], i) { FirstDifferenceInTail(a, b, i); }
    }
  }

  /** ASCII text is its own encoding. */
  lemma {:induction false} AsciiIsItself(s: string)
    requires forall i :: 0 <= i < |s| ==> s[i] as int < 0x80
    ensures EncodeAll(s) == CodePoints(s)
  {
    if s != [] {
      AsciiIsItself(s[1..]);
      assert CodePoints(s) == [s[0] as int] + CodePoints(s[1..]);
    }
  }

  /** One character of each length, as RFC 3629 spells them. */
  lemma KnownEncodings()
    ensures Encode('A') == [0x41]
    ensures Encode('\U{E9}') == [0xC3, 0xA9]
    ensures Encode('\U{20AC}') == [0xE2, 0x82, 0xAC]
    ensures Encode('\U{1F600}') == [0xF0, 0x9F, 0x98, 0x80]
  {}
}
