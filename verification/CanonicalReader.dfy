/** A strict JSON reader, written from the grammar of RFC 8259 and independent of the serializer:
    it undoes canonicalization, so the signed bytes determine the signed value. */
module CanonicalReader {
  import opened Wrappers
  import opened Utf8
  import opened CanonicalJson

  type Parsed<T> = Option<(T, seq<Byte>)>

  // ---------------------------------------------------------------- numbers

  predicate IsDigit(b: Byte) {
    0x30 <= b <= 0x39
  }

  predicate StartsWithDigit(bytes: seq<Byte>) {
    bytes != [] && IsDigit(bytes[0])
  }

  /** The longest run of digits, read as a number in front of which `acc` has been read. */
  function ReadDigits(bytes: seq<Byte>, acc: nat): (r: (nat, seq<Byte>))
    ensures |r.1| <= |bytes|
    decreases |bytes|
  {
    if StartsWithDigit(bytes) then ReadDigits(bytes[1..], acc * 10 + (bytes[0] - 0x30)) else (acc, bytes)
  }

  /** A natural number without leading zeros. */
  function ReadNat(bytes: seq<Byte>): (r: Parsed<nat>)
    ensures r.Some? ==> |r.value.1| < |bytes|
  {
    if !StartsWithDigit(bytes) then None
    else if bytes[0] == 0x30 then
      if StartsWithDigit(bytes[1..]) then None else Some((0, bytes[1..]))
    else
      var (n, rest) := ReadDigits(bytes[1..], bytes[0] - 0x30);
      Some((n, rest))
  }

  predicate InRange(i: int) {
    -0x8000_0000_0000_0000 <= i < 0x1_0000_0000_0000_0000
  }

  function ReadNumber(bytes: seq<Byte>): (r: Parsed<Json>)
    ensures r.Some? ==> |r.value.1| < |bytes|
  {
    if bytes != [] && bytes[0] == MINUS then
      var n := ReadNat(bytes[1..]);
      if n.None? || n.value.0 == 0 || !InRange(0 - n.value.0) then None
      else Some((Number(0 - n.value.0), n.value.1))
    else
      var n := ReadNat(bytes);
      if n.None? || !InRange(n.value.0) then None else Some((Number(n.value.0), n.value.1))
  }

  // ---------------------------------------------------------------- strings

  function HexValue(b: Byte): Option<nat> {
    if IsDigit(b) then Some(b - 0x30)
    else if 0x61 <= b <= 0x66 then Some(b - 0x61 + 10)
    else if 0x41 <= b <= 0x46 then Some(b - 0x41 + 10)
    else None
  }

  /** Four hexadecimal digits naming a character that is not a surrogate. */
  function ReadHex(bytes: seq<Byte>): (r: Parsed<char>)
    ensures r.Some? ==> |r.value.1| < |bytes|
  {
    if |bytes| < 4 then None
    else
      var a, b, c, d := HexValue(bytes[0]), HexValue(bytes[1]), HexValue(bytes[2]), HexValue(bytes[3]);
      if a.None? || b.None? || c.None? || d.None? then None
      else
        var n := ((a.value * 16 + b.value) * 16 + c.value) * 16 + d.value;
        if IsScalar(n) then Some((n as char, bytes[4..])) else None
  }

  /** What follows a backslash, section 7 of RFC 8259. */
  function ReadEscape(bytes: seq<Byte>): (r: Parsed<char>)
    ensures r.Some? ==> |r.value.1| < |bytes|
  {
    if bytes == [] then None
    else
      var rest := bytes[1..];
      match bytes[0]
      case 0x22 => Some(('"', rest))
      case 0x5C => Some(('\\', rest))
      case 0x2F => Some(('/', rest))
      case 0x62 => Some((0x08 as char, rest))
      case 0x66 => Some((0x0C as char, rest))
      case 0x6E => Some(('\n', rest))
      case 0x72 => Some(('\r', rest))
      case 0x74 => Some(('\t', rest))
      case 0x75 => ReadHex(rest)
      case _ => None
  }

  /** One character of a string body: escaped, or literal and not a control character. */
  function ReadChar(bytes: seq<Byte>): (r: Parsed<char>)
    ensures r.Some? ==> |r.value.1| < |bytes|
  {
    if bytes == [] || bytes[0] < 0x20 then None
    else if bytes[0] == BACKSLASH then ReadEscape(bytes[1..])
    else Decode(bytes)
  }

  /** The body of a string up to and including its closing quote. */
  function ReadBody(bytes: seq<Byte>): (r: Parsed<string>)
    ensures r.Some? ==> |r.value.1| < |bytes|
    decreases |bytes|
  {
    if bytes != [] && bytes[0] == QUOTE then Some(("", bytes[1..]))
    else
      var c := ReadChar(bytes);
      if c.None? then None
      else
        var s := ReadBody(c.value.1);
        if s.None? then None else Some(([c.value.0] + s.value.0, s.value.1))
  }

  function ReadString(bytes: seq<Byte>): (r: Parsed<string>)
    ensures r.Some? ==> |r.value.1| < |bytes|
  {
    if bytes != [] && bytes[0] == QUOTE then ReadBody(bytes[1..]) else None
  }

  // ---------------------------------------------------------------- values

  function ReadValue(bytes: seq<Byte>): (r: Parsed<Json>)
    ensures r.Some? ==> |r.value.1| < |bytes|
    decreases |bytes|, 0
  {
    if bytes == [] then None
    else if bytes[0] == QUOTE then
      var s := ReadString(bytes);
      if s.None? then None else Some((String(s.value.0), s.value.1))
    else if bytes[0] == OPEN_BRACKET then
      var items := ReadItems(bytes[1..], []);
      if items.None? then None else Some((Array(items.value.0), items.value.1))
    else if bytes[0] == OPEN_BRACE then
      var fields := ReadFields(bytes[1..], map[]);
      if fields.None? then None else Some((Object(fields.value.0), fields.value.1))
    else if NULL <= bytes then Some((Null, bytes[4..]))
    else if TRUE <= bytes then Some((Bool(true), bytes[4..]))
    else if FALSE <= bytes then Some((Bool(false), bytes[5..]))
    else ReadNumber(bytes)
  }

  /** A comma exactly when something has been read before. */
  function SkipComma(bytes: seq<Byte>, first: bool): (r: Option<seq<Byte>>)
    ensures r.Some? ==> |r.value| <= |bytes|
  {
    if first then Some(bytes)
    else if bytes != [] && bytes[0] == COMMA then Some(bytes[1..])
    else None
  }

  /** A key and its colon. */
  function ReadKey(bytes: seq<Byte>, first: bool): (r: Parsed<string>)
    ensures r.Some? ==> |r.value.1| < |bytes|
  {
    var start := SkipComma(bytes, first);
    if start.None? then None
    else
      var key := ReadString(start.value);
      if key.None? || key.value.1 == [] || key.value.1[0] != COLON then None
      else Some((key.value.0, key.value.1[1..]))
  }

  /** The rest of an array after the items read so far. */
  function ReadItems(bytes: seq<Byte>, before: seq<Json>): (r: Parsed<seq<Json>>)
    ensures r.Some? ==> |r.value.1| < |bytes|
    decreases |bytes|, 1
  {
    if bytes != [] && bytes[0] == CLOSE_BRACKET then Some((before, bytes[1..]))
    else
      var start := SkipComma(bytes, before == []);
      if start.None? then None
      else
        var v := ReadValue(start.value);
        if v.None? then None else ReadItems(v.value.1, before + [v.value.0])
  }

  /** The rest of an object after the fields read so far; a repeated key is refused. */
  function ReadFields(bytes: seq<Byte>, before: map<string, Json>): (r: Parsed<map<string, Json>>)
    ensures r.Some? ==> |r.value.1| < |bytes|
    decreases |bytes|, 1
  {
    if bytes != [] && bytes[0] == CLOSE_BRACE then Some((before, bytes[1..]))
    else
      var key := ReadKey(bytes, before == map[]);
      if key.None? || key.value.0 in before then None
      else
        var v := ReadValue(key.value.1);
        if v.None? then None else ReadFields(v.value.1, before[key.value.0 := v.value.0])
  }

  // ---------------------------------------------------------------- the reader undoes the serializer

  /** Reading digits from the left, starting from `acc`. */
  function Horner(acc: nat, digits: seq<Byte>): nat
    requires forall d :: d in digits ==> IsDigit(d)
    decreases |digits|
  {
    if digits == [] then acc
    else
      assert digits[0] in digits && IsDigit(digits[0]);
      Horner(acc * 10 + (digits[0] - 0x30), digits[1..])
  }

  lemma {:induction false} HornerAppend(acc: nat, digits: seq<Byte>, d: Byte)
    requires IsDigit(d) && forall x :: x in digits ==> IsDigit(x)
    ensures Horner(acc, digits + [d]) == Horner(acc, digits) * 10 + (d - 0x30)
    decreases |digits|
  {
    if digits == [] {
      assert [d][1..] == [];
    } else {
      assert digits[0] in digits;
      assert (digits + [d])[1..] == digits[1..] + [d];
      HornerAppend(acc * 10 + (digits[0] - 0x30), digits[1..], d);
    }
  }

  lemma {:induction false} DigitsShape(n: nat)
    ensures forall d :: d in Digits(n) ==> IsDigit(d)
    ensures Horner(0, Digits(n)) == n
    ensures Digits(n)[0] == 0x30 <==> n == 0
    ensures n == 0 ==> Digits(n) == [0x30]
  {
    if n < 10 {
      assert [0x30 + n][1..] == [];
      assert Horner(0, [0x30 + n]) == Horner(n, []);
    } else {
      DigitsShape(n / 10);
      HornerAppend(0, Digits(n / 10), 0x30 + n % 10);
    }
  }

  lemma {:induction false} ReadDigitsAll(digits: seq<Byte>, acc: nat, rest: seq<Byte>)
    requires forall d :: d in digits ==> IsDigit(d)
    requires !StartsWithDigit(rest)
    ensures ReadDigits(digits + rest, acc) == (Horner(acc, digits), rest)
    decreases |digits|
  {
    if digits == [] {
      assert digits + rest == rest;
    } else {
      assert digits[0] in digits;
      assert (digits + rest)[1..] == digits[1..] + rest;
      ReadDigitsAll(digits[1..], acc * 10 + (digits[0] - 0x30), rest);
    }
  }

  lemma ReadPositiveUndoes(n: nat, rest: seq<Byte>)
    requires !StartsWithDigit(rest) && n > 0
    ensures ReadNat(Digits(n) + rest) == Some((n, rest))
  {
    var ds := Digits(n);
    DigitsShape(n);
    assert ds[0] in ds;
    assert (ds + rest)[1..] == ds[1..] + rest;
    ReadDigitsAll(ds[1..], ds[0] - 0x30, rest);
    assert Horner(0, ds) == Horner(ds[0] - 0x30, ds[1..]);
  }

  lemma ReadNatUndoes(n: nat, rest: seq<Byte>)
    requires !StartsWithDigit(rest)
    ensures ReadNat(Digits(n) + rest) == Some((n, rest))
  {
    if n == 0 { assert (Digits(0) + rest)[1..] == rest; }
    else { ReadPositiveUndoes(n, rest); }
  }

  lemma ReadNegativeUndoes(n: Whole, rest: seq<Byte>)
    requires !StartsWithDigit(rest) && n < 0
    ensures ReadNumber(Decimal(n) + rest) == Some((Number(n), rest))
  {
    assert Decimal(n) + rest == [MINUS] + (Digits(-n) + rest);
    assert (Decimal(n) + rest)[1..] == Digits(-n) + rest;
    ReadNatUndoes(-n, rest);
  }

  lemma DigitsStartWithADigit(n: nat, rest: seq<Byte>)
    ensures Digits(n) + rest != [] && IsDigit((Digits(n) + rest)[0])
  {
    DigitsShape(n);
    assert Digits(n)[0] in Digits(n);
  }

  lemma ReadNumberUndoes(n: Whole, rest: seq<Byte>)
    requires !StartsWithDigit(rest)
    ensures ReadNumber(Decimal(n) + rest) == Some((Number(n), rest))
  {
    if n < 0 {
      ReadNegativeUndoes(n, rest);
    } else {
      DigitsStartWithADigit(n, rest);
      ReadNatUndoes(n, rest);
    }
  }

  lemma EncodeLeads(c: char)
    requires c as int >= 0x20 && c != '"' && c != '\\'
    ensures Encode(c)[0] >= 0x20 && Encode(c)[0] != BACKSLASH && Encode(c)[0] != QUOTE
  {}

  lemma ReadCharUndoes(c: char, rest: seq<Byte>)
    ensures ReadChar(Escape(c) + rest) == Some((c, rest))
    ensures Escape(c)[0] != QUOTE
  {
    var bytes := Escape(c) + rest;
    if Escape(c)[0] == BACKSLASH && (c == '"' || c == '\\' || c as int < 0x20) {
      if |Escape(c)| == 2 {
        assert bytes[1..] == [bytes[1]] + rest;
      } else {
        ReadHexUndoes(c, rest);
        assert bytes[1..][1..] == Escape(c)[2..] + rest;
      }
    } else {
      EncodeLeads(c);
      DecodeUndoesEncode(c, rest);
    }
  }

  lemma HexUndoes(d: nat)
    requires d < 16
    ensures HexValue(HexDigit(d)) == Some(d)
  {}

  lemma ReadHexUndoes(c: char, rest: seq<Byte>)
    requires c as int < 0x20
    ensures ReadHex([0x30, 0x30, HexDigit(c as int / 16), HexDigit(c as int % 16)] + rest) == Some((c, rest))
  {
    var bytes := [0x30, 0x30, HexDigit(c as int / 16), HexDigit(c as int % 16)] + rest;
    HexUndoes(c as int / 16);
    HexUndoes(c as int % 16);
    assert bytes[4..] == rest;
    assert bytes[0] == 0x30 && bytes[1] == 0x30;
    assert bytes[2] == HexDigit(c as int / 16) && bytes[3] == HexDigit(c as int % 16);
  }

  lemma {:induction false} ReadBodyUndoes(s: string, rest: seq<Byte>)
    ensures ReadBody(EscapeAll(s) + [QUOTE] + rest) == Some((s, rest))
    decreases |s|
  {
    var bytes := EscapeAll(s) + [QUOTE] + rest;
    if s == [] {
      assert bytes[1..] == rest;
    } else {
      var tail := EscapeAll(s[1..]) + [QUOTE] + rest;
      assert bytes == Escape(s[0]) + tail;
      ReadCharUndoes(s[0], tail);
      ReadBodyUndoes(s[1..], rest);
      assert [s[0]] + s[1..] == s;
    }
  }

  lemma ReadStringUndoes(s: string, rest: seq<Byte>)
    ensures ReadString(Quoted(s) + rest) == Some((s, rest))
  {
    assert (Quoted(s) + rest)[1..] == EscapeAll(s) + [QUOTE] + rest;
    ReadBodyUndoes(s, rest);
  }

  /** The first byte tells which kind of value follows. */
  lemma FirstByte(v: Json)
    requires FloatFree(v)
    ensures var b := Canonical(v)[0];
      && (b == QUOTE <==> v.String?) && (b == OPEN_BRACKET <==> v.Array?) && (b == OPEN_BRACE <==> v.Object?)
      && (b == NULL[0] <==> v.Null?) && (b == TRUE[0] <==> v == Bool(true)) && (b == FALSE[0] <==> v == Bool(false))
      && b != CLOSE_BRACKET && b != CLOSE_BRACE && b != COMMA
  {
    if v.Number? {
      if v.n >= 0 { DigitsShape(v.n); assert Digits(v.n)[0] in Digits(v.n); }
    }
  }

  lemma ReadLeafUndoes(v: Json, rest: seq<Byte>)
    requires FloatFree(v) && !v.Array? && !v.Object? && !StartsWithDigit(rest)
    ensures ReadValue(Canonical(v) + rest) == Some((v, rest))
  {
    var bytes := Canonical(v) + rest;
    FirstByte(v);
    match v {
      case Null => assert bytes[4..] == rest;
      case Bool(b) => assert if b then bytes[4..] == rest else bytes[5..] == rest;
      case Number(n) => ReadNumberUndoes(n, rest);
      case String(s) => ReadStringUndoes(s, rest);
    }
  }

  lemma ReadArray(v: Json, rest: seq<Byte>)
    requires FloatFree(v) && v.Array? && ReadItems(ItemBytes(v, 0, rest), []) == Some((v.items, rest))
    ensures ReadValue(Canonical(v) + rest) == Some((v, rest))
  {
    assert (Canonical(v) + rest)[1..] == ItemBytes(v, 0, rest);
  }

  lemma ObjectBytes(v: Json, keys: seq<string>, rest: seq<Byte>)
    requires FloatFree(v) && v.Object? && keys == SortedKeys(v.fields.Keys)
    ensures Canonical(v) + rest == [OPEN_BRACE] + FieldBytes(v, keys, 0, rest)
  {}

  lemma ReadObject(fields: map<string, Json>, bytes: seq<Byte>, rest: seq<Byte>)
    requires ReadFields(bytes, map[]) == Some((fields, rest))
    ensures ReadValue([OPEN_BRACE] + bytes) == Some((Object(fields), rest))
  {
    assert ([OPEN_BRACE] + bytes)[1..] == bytes;
  }

  /** The reader recovers every float-free value from its canonical bytes, whatever follows them,
      as long as a number is not followed by a digit. */
  lemma {:induction false} ReadValueUndoes(v: Json, rest: seq<Byte>)
    requires FloatFree(v) && !StartsWithDigit(rest)
    ensures ReadValue(Canonical(v) + rest) == Some((v, rest))
    decreases v, 1
  {
    if v.Array? {
      ReadItemsUndoes(v, 0, rest);
      assert v.items[..0] == [];
      ReadArray(v, rest);
    } else if v.Object? {
      var keys := SortedKeys(v.fields.Keys);
      ReadFieldsUndoes(v, keys, 0, rest);
      assert FieldsUpTo(v.fields, keys, 0) == map[] && FieldsUpTo(v.fields, keys, |keys|) == v.fields;
      ReadObject(v.fields, FieldBytes(v, keys, 0, rest), rest);
      ObjectBytes(v, keys, rest);
    } else {
      ReadLeafUndoes(v, rest);
    }
  }

  /** Reading one more item of an array. */
  lemma ReadItemsNext(before: seq<Json>, item: Json, tail: seq<Byte>)
    requires FloatFree(item) && ReadValue(Canonical(item) + tail) == Some((item, tail))
    ensures ReadItems(Separator(|before|) + Canonical(item) + tail, before) == ReadItems(tail, before + [item])
  {
    var value := Canonical(item) + tail;
    var bytes := Separator(|before|) + Canonical(item) + tail;
    assert bytes == Separator(|before|) + value;
    FirstByte(item);
    if before != [] { assert bytes[1..] == value; } else { assert bytes == value; }
  }

  /** What the reader still has in front of it at item i. */
  ghost function ItemBytes(v: Json, i: nat, rest: seq<Byte>): seq<Byte>
    requires FloatFree(v) && v.Array? && i <= |v.items|
  {
    ItemsFrom(v, i) + [CLOSE_BRACKET] + rest
  }

  lemma ItemBytesStep(v: Json, i: nat, rest: seq<Byte>)
    requires FloatFree(v) && v.Array? && i < |v.items|
    ensures ItemBytes(v, i, rest) == Separator(i) + Canonical(v.items[i]) + ItemBytes(v, i + 1, rest)
    ensures v.items[..i] + [v.items[i]] == v.items[..i + 1]
  {}

  lemma ItemBytesStart(v: Json, i: nat, rest: seq<Byte>)
    requires FloatFree(v) && v.Array? && i <= |v.items|
    ensures !StartsWithDigit(ItemBytes(v, i, rest)) || i == 0
    ensures i == |v.items| ==> ItemBytes(v, i, rest) == [CLOSE_BRACKET] + rest
  {}

  lemma ReadItemsEnd(items: seq<Json>, rest: seq<Byte>)
    ensures ReadItems([CLOSE_BRACKET] + rest, items) == Some((items, rest))
  {
    assert ([CLOSE_BRACKET] + rest)[1..] == rest;
  }

  lemma ReadItemsStep(v: Json, i: nat, rest: seq<Byte>)
    requires FloatFree(v) && v.Array? && i < |v.items|
    requires var tail := ItemBytes(v, i + 1, rest);
      ReadValue(Canonical(v.items[i]) + tail) == Some((v.items[i], tail))
    ensures ReadItems(ItemBytes(v, i, rest), v.items[..i]) == ReadItems(ItemBytes(v, i + 1, rest), v.items[..i + 1])
  {
    ItemBytesStep(v, i, rest);
    ReadItemsNext(v.items[..i], v.items[i], ItemBytes(v, i + 1, rest));
  }

  lemma ReadItemsDone(v: Json, rest: seq<Byte>)
    requires FloatFree(v) && v.Array?
    ensures ReadItems(ItemBytes(v, |v.items|, rest), v.items[..|v.items|]) == Some((v.items, rest))
  {
    ItemBytesStart(v, |v.items|, rest);
    assert v.items[..|v.items|] == v.items;
    ReadItemsEnd(v.items, rest);
  }

  lemma {:induction false} ReadItemsUndoes(v: Json, i: nat, rest: seq<Byte>)
    requires FloatFree(v) && v.Array? && i <= |v.items|
    ensures ReadItems(ItemBytes(v, i, rest), v.items[..i]) == Some((v.items, rest))
    decreases v, 0, |v.items| - i
  {
    if i == |v.items| {
      ReadItemsDone(v, rest);
    } else {
      ItemBytesStart(v, i + 1, rest);
      ReadValueUndoes(v.items[i], ItemBytes(v, i + 1, rest));
      ReadItemsStep(v, i, rest);
      ReadItemsUndoes(v, i + 1, rest);
    }
  }

  /** The fields under the first n keys. */
  ghost function FieldsUpTo(fields: map<string, Json>, keys: seq<string>, n: nat): map<string, Json>
    requires n <= |keys|
  {
    map k | k in fields && k in keys[..n] :: fields[k]
  }

  lemma FieldsUpToNext(fields: map<string, Json>, keys: seq<string>, i: nat)
    requires i < |keys| && Sorted(keys) && Lists(keys, fields.Keys)
    ensures keys[i] in fields && keys[i] !in FieldsUpTo(fields, keys, i)
    ensures FieldsUpTo(fields, keys, i)[keys[i] := fields[keys[i]]] == FieldsUpTo(fields, keys, i + 1)
    ensures FieldsUpTo(fields, keys, i) == map[] <==> i == 0
  {
    assert keys[i] in keys;
    if keys[i] in keys[..i] {
      var j :| 0 <= j < i && keys[j] == keys[i];
      KeyLessTotal(keys[i], keys[i]);
    }
    assert keys[..i + 1] == keys[..i] + [keys[i]];
    if i > 0 { assert keys[0] in keys && keys[0] in keys[..i] && keys[0] in FieldsUpTo(fields, keys, i); }
  }

  lemma ReadKeyUndoes(key: string, i: nat, rest: seq<Byte>)
    ensures ReadKey(KeyBytes(key, i) + rest, i == 0) == Some((key, rest))
    ensures KeyBytes(key, i)[0] != CLOSE_BRACE
  {
    var afterKey := [COLON] + rest;
    var start := Quoted(key) + afterKey;
    var bytes := KeyBytes(key, i) + rest;
    assert bytes == Separator(i) + start;
    if i > 0 { assert bytes[1..] == start; } else { assert bytes == start; }
    ReadStringUndoes(key, afterKey);
    assert afterKey[1..] == rest;
  }

  /** Reading one more field of an object. */
  lemma ReadFieldsNext(before: map<string, Json>, i: nat, key: string, value: Json, tail: seq<Byte>)
    requires FloatFree(value) && ReadValue(Canonical(value) + tail) == Some((value, tail))
    requires key !in before && (before == map[] <==> i == 0)
    ensures ReadFields(KeyBytes(key, i) + Canonical(value) + tail, before) == ReadFields(tail, before[key := value])
  {
    var bytes := KeyBytes(key, i) + (Canonical(value) + tail);
    ReadKeyUndoes(key, i, Canonical(value) + tail);
    assert KeyBytes(key, i) + Canonical(value) + tail == bytes;
  }

  ghost predicate KeysOf(v: Json, keys: seq<string>) {
    v.Object? && Sorted(keys) && Lists(keys, v.fields.Keys)
  }

  /** What the reader still has in front of it at key i. */
  ghost function FieldBytes(v: Json, keys: seq<string>, i: nat, rest: seq<Byte>): seq<Byte>
    requires FloatFree(v) && KeysOf(v, keys) && i <= |keys|
  {
    FieldsFrom(v, keys, i) + [CLOSE_BRACE] + rest
  }

  lemma FieldBytesStep(v: Json, keys: seq<string>, i: nat, rest: seq<Byte>)
    requires FloatFree(v) && KeysOf(v, keys) && i < |keys|
    ensures keys[i] in v.fields
    ensures FieldBytes(v, keys, i, rest) ==
            KeyBytes(keys[i], i) + Canonical(v.fields[keys[i]]) + FieldBytes(v, keys, i + 1, rest)
  {
    assert keys[i] in keys;
  }

  lemma FieldBytesStart(v: Json, keys: seq<string>, i: nat, rest: seq<Byte>)
    requires FloatFree(v) && KeysOf(v, keys) && i <= |keys|
    ensures !StartsWithDigit(FieldBytes(v, keys, i, rest))
    ensures i == |keys| ==> FieldBytes(v, keys, i, rest) == [CLOSE_BRACE] + rest
  {}

  lemma ReadFieldsEnd(fields: map<string, Json>, rest: seq<Byte>)
    ensures ReadFields([CLOSE_BRACE] + rest, fields) == Some((fields, rest))
  {
    assert ([CLOSE_BRACE] + rest)[1..] == rest;
  }

  lemma ReadFieldsStep(v: Json, keys: seq<string>, i: nat, rest: seq<Byte>)
    requires FloatFree(v) && KeysOf(v, keys) && i < |keys| && keys[i] in v.fields
    requires var tail := FieldBytes(v, keys, i + 1, rest);
      ReadValue(Canonical(v.fields[keys[i]]) + tail) == Some((v.fields[keys[i]], tail))
    ensures ReadFields(FieldBytes(v, keys, i, rest), FieldsUpTo(v.fields, keys, i))
            == ReadFields(FieldBytes(v, keys, i + 1, rest), FieldsUpTo(v.fields, keys, i + 1))
  {
    FieldsUpToNext(v.fields, keys, i);
    FieldBytesStep(v, keys, i, rest);
    ReadFieldsNext(FieldsUpTo(v.fields, keys, i), i, keys[i], v.fields[keys[i]], FieldBytes(v, keys, i + 1, rest));
  }

  lemma {:induction false} ReadFieldsUndoes(v: Json, keys: seq<string>, i: nat, rest: seq<Byte>)
    requires FloatFree(v) && KeysOf(v, keys) && i <= |keys|
    ensures ReadFields(FieldBytes(v, keys, i, rest), FieldsUpTo(v.fields, keys, i))
            == Some((FieldsUpTo(v.fields, keys, |keys|), rest))
    decreases v, 0, |keys| - i
  {
    if i == |keys| {
      FieldBytesStart(v, keys, i, rest);
      ReadFieldsEnd(FieldsUpTo(v.fields, keys, i), rest);
    } else {
      FieldBytesStart(v, keys, i + 1, rest);
      FieldBytesStep(v, keys, i, rest);
      ReadValueUndoes(v.fields[keys[i]], FieldBytes(v, keys, i + 1, rest));
      ReadFieldsStep(v, keys, i, rest);
      ReadFieldsUndoes(v, keys, i + 1, rest);
    }
  }

  // ---------------------------------------------------------------- what follows

  /** Reading the canonical bytes gives the value back, with nothing left over. */
  lemma RoundTrip(v: Json)
    requires FloatFree(v)
    ensures ReadValue(Canonical(v)) == Some((v, []))
  {
    ReadValueUndoes(v, []);
    assert Canonical(v) + [] == Canonical(v);
  }

  /** Equal signed bytes mean equal signed values. */
  lemma CanonicalIsUnambiguous(v: Json, w: Json)
    requires FloatFree(v) && FloatFree(w) && Canonical(v) == Canonical(w)
    ensures v == w
  {
    RoundTrip(v);
    RoundTrip(w);
  }
}
