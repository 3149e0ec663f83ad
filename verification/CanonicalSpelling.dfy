/** How canonical strings are spelled. A JSON reader accepts several spellings of most characters; the
    serializer writes the shortest one, and of the shortest ones the one with lower-case digits. The
    tokens around the values are those of RFC 8259. */
module CanonicalSpelling {
  import opened Wrappers
  import opened Utf8
  import opened CanonicalJson
  import opened CanonicalReader

  lemma NamesAreJson()
    ensures NULL == EncodeAll("null") && TRUE == EncodeAll("true") && FALSE == EncodeAll("false")
  {
    AsciiIsItself("null");
    AsciiIsItself("true");
    AsciiIsItself("false");
  }

  /** Punctuation and literal names, by their ASCII codes. */
  lemma TokensAreJson()
    ensures NULL == EncodeAll("null") && TRUE == EncodeAll("true") && FALSE == EncodeAll("false")
    ensures [QUOTE] == EncodeAll("\"") && [COMMA] == EncodeAll(",") && [COLON] == EncodeAll(":")
    ensures [OPEN_BRACKET] == EncodeAll("[") && [CLOSE_BRACKET] == EncodeAll("]")
    ensures [OPEN_BRACE] == EncodeAll("{") && [CLOSE_BRACE] == EncodeAll("}")
    ensures [MINUS] == EncodeAll("-") && [BACKSLASH] == EncodeAll("\\")
  {
    NamesAreJson();
    forall c: char | c as int < 0x80 ensures EncodeAll([c]) == [c as int] { AsciiIsItself([c]); }
  }

  // ---------------------------------------------------------------- one character

  /** The bytes in front of `rest` spell the character inside a string. */
  predicate Spells(bytes: seq<Byte>, c: char, rest: seq<Byte>) {
    bytes != [] && bytes[0] != QUOTE && ReadChar(bytes) == Some((c, rest))
  }

  /** A hexadecimal escape in front uses no capital digits. */
  predicate LowerCase(bytes: seq<Byte>) {
    |bytes| >= 6 && bytes[0] == BACKSLASH && bytes[1] == 0x75 ==>
      forall k :: 2 <= k < 6 ==> !(0x41 <= bytes[k] <= 0x46)
  }

  /** A character has a two-byte escape exactly when it is one of these. */
  predicate HasShortEscape(c: char) {
    c in {'"', '\\', '/', '\n', '\r', '\t'} || c as int == 0x08 || c as int == 0x0C
  }

  lemma ShortEscapes(bytes: seq<Byte>, c: char, rest: seq<Byte>)
    requires bytes != [] && bytes[0] != 0x75 && ReadEscape(bytes) == Some((c, rest))
    ensures HasShortEscape(c) && bytes == [bytes[0]] + rest
    ensures c != '/' ==> Escape(c) == [BACKSLASH, bytes[0]]
  {
    assert bytes == [bytes[0]] + bytes[1..];
  }

  lemma HexDigits(b: Byte, d: nat)
    requires HexValue(b) == Some(d)
    ensures d < 16 && (!(0x41 <= b <= 0x46) ==> b == HexDigit(d))
  {}

  lemma HexEscapes(bytes: seq<Byte>, c: char, rest: seq<Byte>)
    requires ReadHex(bytes) == Some((c, rest))
    ensures |bytes| == 4 + |rest| && bytes == bytes[..4] + rest
    ensures c as int < 0x20 && (forall k :: 0 <= k < 4 ==> !(0x41 <= bytes[k] <= 0x46)) ==>
      bytes[..4] == [0x30, 0x30, HexDigit(c as int / 16), HexDigit(c as int % 16)]
  {
    var h := seq(4, k requires 0 <= k < 4 => HexValue(bytes[k]).value);
    forall k | 0 <= k < 4 ensures h[k] < 16 && (!(0x41 <= bytes[k] <= 0x46) ==> bytes[k] == HexDigit(h[k])) {
      HexDigits(bytes[k], h[k]);
    }
    assert c as int == ((h[0] * 16 + h[1]) * 16 + h[2]) * 16 + h[3];
    if c as int < 0x20 {
      assert h[0] == 0 && h[1] == 0 && h[2] == c as int / 16 && h[3] == c as int % 16;
    }
  }

  /** No spelling of a character is shorter than the one the serializer writes. */
  lemma PrintedIsShortest(bytes: seq<Byte>, c: char, rest: seq<Byte>)
    requires Spells(bytes, c, rest)
    ensures |Escape(c)| <= |bytes| - |rest|
  {
    if bytes[0] == BACKSLASH {
      if bytes[1] == 0x75 { HexEscapes(bytes[2..], c, rest); }
      else { ShortEscapes(bytes[1..], c, rest); }
    } else {
      EncodeUndoesDecode(bytes);
    }
  }

  lemma HexIsTheOnlyShortest(bytes: seq<Byte>, c: char, rest: seq<Byte>)
    requires |bytes| >= 2 && bytes[0] == BACKSLASH && bytes[1] == 0x75 && Spells(bytes, c, rest)
    requires |bytes| - |rest| == |Escape(c)| && LowerCase(bytes)
    ensures bytes == Escape(c) + rest
  {
    HexEscapes(bytes[2..], c, rest);
    assert bytes == [BACKSLASH, 0x75] + bytes[2..];
  }

  /** And no other spelling of that length exists, up to capital hexadecimal digits. */
  lemma PrintedIsTheOnlyShortest(bytes: seq<Byte>, c: char, rest: seq<Byte>)
    requires Spells(bytes, c, rest) && |bytes| - |rest| == |Escape(c)| && LowerCase(bytes)
    ensures bytes == Escape(c) + rest
  {
    if bytes[0] == BACKSLASH {
      if bytes[1] == 0x75 { HexIsTheOnlyShortest(bytes, c, rest); }
      else {
        ShortEscapes(bytes[1..], c, rest);
        assert bytes == [BACKSLASH] + bytes[1..];
      }
    } else {
      EncodeUndoesDecode(bytes);
    }
  }

  /** The three classes of characters: seven with a letter after the backslash, the other control
      characters in lower-case hexadecimal, and everything else as it is. */
  lemma PrintedForms(c: char)
    ensures c as int >= 0x20 && c != '"' && c != '\\' ==> Escape(c) == Encode(c)
    ensures c as int < 0x20 && !HasShortEscape(c) ==>
      exists x, y :: Escape(c) == [0x5C, 0x75, 0x30, 0x30, x, y] && HexValue(x) == Some(c as int / 16)
        && HexValue(y) == Some(c as int % 16) && !(0x41 <= x <= 0x46) && !(0x41 <= y <= 0x46)
    ensures Escape('"') == [0x5C, 0x22] && Escape('\\') == [0x5C, 0x5C] && Escape('/') == [0x2F]
    ensures Escape('\n') == [0x5C, 0x6E] && Escape('\r') == [0x5C, 0x72] && Escape('\t') == [0x5C, 0x74]
    ensures Escape(0x08 as char) == [0x5C, 0x62] && Escape(0x0C as char) == [0x5C, 0x66]
  {
    if c as int < 0x20 && !HasShortEscape(c) {
      HexUndoes(c as int / 16);
      HexUndoes(c as int % 16);
      var x, y := HexDigit(c as int / 16), HexDigit(c as int % 16);
      assert Escape(c) == [0x5C, 0x75, 0x30, 0x30, x, y];
    }
  }

  // ---------------------------------------------------------------- whole strings

  lemma {:induction false} BodyIsShortest(bytes: seq<Byte>, s: string, rest: seq<Byte>)
    requires ReadBody(bytes) == Some((s, rest))
    ensures |EscapeAll(s)| + 1 <= |bytes| - |rest|
    decreases |bytes|
  {
    if bytes[0] != QUOTE {
      var (c, tail) := ReadChar(bytes).value;
      PrintedIsShortest(bytes, c, tail);
      assert s == [c] + ReadBody(tail).value.0;
      BodyIsShortest(tail, s[1..], rest);
    }
  }

  /** Among all the byte strings that read as a text, the canonical one is shortest. */
  lemma QuotedIsShortest(bytes: seq<Byte>, s: string)
    requires ReadString(bytes) == Some((s, []))
    ensures |Quoted(s)| <= |bytes|
  {
    BodyIsShortest(bytes[1..], s, []);
  }

  /** Text without quotes, backslashes and control characters is quoted as it is. */
  lemma {:induction false} PlainTextIsQuotedAsItIs(s: string)
    requires forall i :: 0 <= i < |s| ==> s[i] as int >= 0x20 && s[i] != '"' && s[i] != '\\'
    ensures Quoted(s) == [0x22] + EncodeAll(s) + [0x22]
  {
    if s != [] {
      PlainTextIsQuotedAsItIs(s[1..]);
      PrintedForms(s[0]);
      assert Quoted(s[1..])[1..|Quoted(s[1..])| - 1] == EscapeAll(s[1..]);
      assert ([0x22] + EncodeAll(s[1..]) + [0x22])[1..|EncodeAll(s[1..])| + 1] == EncodeAll(s[1..]);
      assert |Quoted(s[1..])| == |EncodeAll(s[1..])| + 2;
    }
  }
}
