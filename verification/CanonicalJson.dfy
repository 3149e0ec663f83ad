/** Canonical JSON: the byte string over which records are signed. Object keys are sorted, there is
    no white space, strings use the smallest escapes, and floating-point numbers are refused.
    The serializer appends to a writer and sorts each object's keys in place; it is proved to
    produce `Canonical`, a function of the value in which an object is a finite map. */
module CanonicalJson {
  import opened Wrappers
  import opened Utf8

  /** The numbers that a JSON value can hold without being floating point: an i64 or a u64. */
  type Whole = i: int | -0x8000_0000_0000_0000 <= i < 0x1_0000_0000_0000_0000

  /** The bit pattern of a 64-bit floating-point number. */
  type FloatBits = i: int | 0 <= i < 0x1_0000_0000_0000_0000

  datatype Json =
    | Null
    | Bool(b: bool)
    | Number(n: Whole)
    | Float(bits: FloatBits)
    | String(s: string)
    | Array(items: seq<Json>)
    | Object(fields: map<string, Json>)

  datatype CanonicalError = FloatNotAllowed

  // ---------------------------------------------------------------- bytes of the leaves

  const NULL: seq<Byte> := [0x6E, 0x75, 0x6C, 0x6C]
  const TRUE: seq<Byte> := [0x74, 0x72, 0x75, 0x65]
  const FALSE: seq<Byte> := [0x66, 0x61, 0x6C, 0x73, 0x65]
  const QUOTE: Byte := 0x22
  const BACKSLASH: Byte := 0x5C
  const COMMA: Byte := 0x2C
  const COLON: Byte := 0x3A
  const MINUS: Byte := 0x2D
  const OPEN_BRACKET: Byte := 0x5B
  const CLOSE_BRACKET: Byte := 0x5D
  const OPEN_BRACE: Byte := 0x7B
  const CLOSE_BRACE: Byte := 0x7D

  function Digits(n: nat): (ds: seq<Byte>)
    ensures |ds| >= 1
  {
    if n < 10 then [0x30 + n] else Digits(n / 10) + [0x30 + n % 10]
  }

  function Decimal(i: int): seq<Byte> {
    if i < 0 then [MINUS] + Digits(-i) else Digits(i)
  }

  function HexDigit(d: nat): Byte
    requires d < 16
  {
    if d < 10 then 0x30 + d else 0x61 + d - 10
  }

  function Escape(c: char): (bytes: seq<Byte>)
    ensures 1 <= |bytes|
  {
    if c == '"' then [BACKSLASH, QUOTE]
    else if c == '\\' then [BACKSLASH, BACKSLASH]
    else if c as int == 0x08 then [BACKSLASH, 0x62]
    else if c as int == 0x0C then [BACKSLASH, 0x66]
    else if c == '\n' then [BACKSLASH, 0x6E]
    else if c == '\r' then [BACKSLASH, 0x72]
    else if c == '\t' then [BACKSLASH, 0x74]
    else if c as int < 0x20 then [BACKSLASH, 0x75, 0x30, 0x30, HexDigit(c as int / 16), HexDigit(c as int % 16)]
    else Encode(c)
  }

  function EscapeAll(s: string): seq<Byte> {
    if s == [] then [] else Escape(s[0]) + EscapeAll(s[1..])
  }

  function Quoted(s: string): seq<Byte> {
    [QUOTE] + EscapeAll(s) + [QUOTE]
  }

  // ---------------------------------------------------------------- key order

  /** The order of the source's strings: their UTF-8 bytes. */
  predicate KeyLess(a: string, b: string) {
    LexLess(EncodeAll(a), EncodeAll(b))
  }

  ghost predicate Sorted(keys: seq<string>) {
    forall i, j {:trigger KeyLess(keys[i], keys[j])} :: 0 <= i < j < |keys| ==> KeyLess(keys[i], keys[j])
  }

  ghost predicate Lists(keys: seq<string>, elements: set<string>) {
    forall k :: k in keys <==> k in elements
  }

  lemma KeyLessTotal(a: string, b: string)
    ensures KeyLess(a, b) || KeyLess(b, a) || a == b
    ensures !(KeyLess(a, b) && KeyLess(b, a))
  {
    BytesOrderIsCodePointOrder(a, b);
    BytesOrderIsCodePointOrder(b, a);
    LexLessTrichotomy(CodePoints(a), CodePoints(b));
    if CodePoints(a) == CodePoints(b) {
      forall i | 0 <= i < |a| ensures a[i] == b[i] { assert CodePoints(a)[i] == CodePoints(b)[i]; }
      assert |a| == |CodePoints(a)| && |b| == |CodePoints(b)|;
    }
  }

  lemma KeyLessTransitive(a: string, b: string, c: string)
    requires KeyLess(a, b) && KeyLess(b, c)
    ensures KeyLess(a, c)
  {
    LexLessTransitive(EncodeAll(a), EncodeAll(b), EncodeAll(c));
  }

  /** Put one more key where it belongs. */
  function Insert(keys: seq<string>, k: string): seq<string> {
    if keys == [] then [k]
    else if KeyLess(keys[0], k) then [keys[0]] + Insert(keys[1..], k)
    else [k] + keys
  }

  lemma {:induction false} InsertSorts(keys: seq<string>, k: string)
    requires Sorted(keys) && k !in keys
    ensures Sorted(Insert(keys, k))
    ensures forall x :: x in Insert(keys, k) <==> x in keys || x == k
    decreases |keys|
  {
    if keys != [] {
      var r := Insert(keys, k);
      KeyLessTotal(keys[0], k);
      if KeyLess(keys[0], k) {
        InsertSorts(keys[1..], k);
        forall j | 0 < j < |r| ensures KeyLess(r[0], r[j]) {
          assert r[j] in Insert(keys[1..], k);
        }
      } else {
        forall j | 0 < j < |r| ensures KeyLess(r[0], r[j]) {
          if j > 1 { KeyLessTransitive(k, keys[0], keys[j - 1]); }
        }
      }
    }
  }

  lemma {:induction false} SortedExists(keys: set<string>) returns (order: seq<string>)
    ensures Sorted(order) && Lists(order, keys)
    decreases keys
  {
    if keys == {} {
      order := [];
    } else {
      var k :| k in keys;
      var rest := SortedExists(keys - {k});
      InsertSorts(rest, k);
      order := Insert(rest, k);
    }
  }

  /** A finite set of keys has only one sorted listing. */
  lemma {:induction false} SortedUnique(a: seq<string>, b: seq<string>, keys: set<string>)
    requires Sorted(a) && Lists(a, keys) && Sorted(b) && Lists(b, keys)
    ensures a == b
    decreases |a|
  {
    ListsNonempty(b, a, keys);
    if a != [] {
      assert a[0] in keys && a[0] in b;
      assert b[0] in keys && b[0] in a;
      KeyLessTotal(a[0], b[0]);
      assert a[0] == b[0];
      TailLists(a, keys);
      TailLists(b, keys);
      SortedUnique(a[1..], b[1..], keys - {a[0]});
      assert a == [a[0]] + a[1..] && b == [b[0]] + b[1..];
    }
  }

  lemma ListsNonempty(a: seq<string>, b: seq<string>, keys: set<string>)
    requires Lists(a, keys) && Lists(b, keys)
    ensures a != [] ==> b != []
  {
    if a != [] { assert a[0] in keys && a[0] in b; }
  }

  lemma TailLists(keys: seq<string>, elements: set<string>)
    requires keys != [] && Sorted(keys) && Lists(keys, elements)
    ensures Sorted(keys[1..]) && Lists(keys[1..], elements - {keys[0]})
  {
    KeyLessTotal(keys[0], keys[0]);
    forall k ensures k in keys[1..] <==> k in elements - {keys[0]} {
      if k in keys[1..] {
        var i :| 0 <= i < |keys| - 1 && keys[1..][i] == k;
        assert KeyLess(keys[0], keys[i + 1]);
        assert k in keys;
      }
    }
  }

  /** The sorted listing of a set of keys. */
  ghost function SortedKeys(keys: set<string>): (order: seq<string>)
    ensures Sorted(order) && Lists(order, keys)
  {
    SortedIsPossible(keys);
    var order :| Sorted(order) && Lists(order, keys);
    order
  }

  lemma SortedIsPossible(keys: set<string>)
    ensures exists order :: Sorted(order) && Lists(order, keys)
  {
    var order := SortedExists(keys);
  }

  /** Sorted by UTF-8 bytes is sorted by Unicode code points. */
  lemma SortedByCodePoint(keys: set<string>, i: nat, j: nat)
    requires i < j < |SortedKeys(keys)|
    ensures LexLess(CodePoints(SortedKeys(keys)[i]), CodePoints(SortedKeys(keys)[j]))
  {
    assert KeyLess(SortedKeys(keys)[i], SortedKeys(keys)[j]);
    BytesOrderIsCodePointOrder(SortedKeys(keys)[i], SortedKeys(keys)[j]);
  }

  // ---------------------------------------------------------------- the canonical bytes of a value

  /** No floating-point number anywhere in the value. */
  ghost predicate FloatFree(v: Json) {
    match v
    case Float(_) => false
    case Array(items) => forall i :: 0 <= i < |items| ==> FloatFree(items[i])
    case Object(fields) => forall k :: k in fields ==> FloatFree(fields[k])
    case _ => true
  }

  ghost function Canonical(v: Json): (bytes: seq<Byte>)
    requires FloatFree(v)
    ensures bytes != []
    decreases v, 1
  {
    match v
    case Null => NULL
    case Bool(b) => if b then TRUE else FALSE
    case Number(n) => Decimal(n)
    case String(s) => Quoted(s)
    case Array(_) => [OPEN_BRACKET] + ItemsFrom(v, 0) + [CLOSE_BRACKET]
    case Object(fields) => [OPEN_BRACE] + FieldsFrom(v, SortedKeys(fields.Keys), 0) + [CLOSE_BRACE]
  }

  function Separator(i: nat): seq<Byte> {
    if i > 0 then [COMMA] else []
  }

  /** What precedes the value of an object's i-th key. */
  function KeyBytes(key: string, i: nat): seq<Byte> {
    Separator(i) + Quoted(key) + [COLON]
  }

  /** The bytes of items i, i+1, ... of an array. */
  ghost function ItemsFrom(v: Json, i: nat): seq<Byte>
    requires FloatFree(v) && v.Array? && i <= |v.items|
    decreases v, 0, |v.items| - i
  {
    if i == |v.items| then []
    else Separator(i) + Canonical(v.items[i]) + ItemsFrom(v, i + 1)
  }

  /** The bytes of the fields of an object under keys i, i+1, ... of the listing. */
  ghost function FieldsFrom(v: Json, keys: seq<string>, i: nat): seq<Byte>
    requires FloatFree(v) && v.Object? && i <= |keys|
    requires forall k :: k in keys ==> k in v.fields
    decreases v, 0, |keys| - i
  {
    if i == |keys| then []
    else
      KeyBytes(keys[i], i) + Canonical(v.fields[keys[i]]) + FieldsFrom(v, keys, i + 1)
  }

  // ---------------------------------------------------------------- the serializer

  class Writer {
    var out: seq<Byte>

    constructor ()
      ensures out == []
    {
      out := [];
    }

    method WriteAll(bytes: seq<Byte>)
      modifies this
      ensures out == old(out) + bytes
    {
      out := out + bytes;
    }

    method WriteChar(c: char)
      modifies this
      ensures out == old(out) + Escape(c)
    {
      if c == '"' { WriteAll([BACKSLASH, QUOTE]); }
      else if c == '\\' { WriteAll([BACKSLASH, BACKSLASH]); }
      else if c as int == 0x08 { WriteAll([BACKSLASH, 0x62]); }
      else if c as int == 0x0C { WriteAll([BACKSLASH, 0x66]); }
      else if c == '\n' { WriteAll([BACKSLASH, 0x6E]); }
      else if c == '\r' { WriteAll([BACKSLASH, 0x72]); }
      else if c == '\t' { WriteAll([BACKSLASH, 0x74]); }
      else if c as int < 0x20 {
        WriteAll([BACKSLASH, 0x75, 0x30, 0x30, HexDigit(c as int / 16), HexDigit(c as int % 16)]);
      } else {
        WriteAll(Encode(c));
      }
    }

    method WriteString(s: string)
      modifies this
      ensures out == old(out) + Quoted(s)
    {
      WriteAll([QUOTE]);
      ghost var start := out;
      for i := 0 to |s|
        invariant out + EscapeAll(s[i..]) == start + EscapeAll(s)
      {
        EscapeStep(out, s, i);
        WriteChar(s[i]);
      }
      WriteAll([QUOTE]);
      Wrap(old(out), QUOTE, EscapeAll(s), QUOTE);
    }

    /** The keys of a table, in whatever order it yields them. */
    static method KeysOf(fields: map<string, Json>) returns (keys: seq<string>)
      ensures Lists(keys, fields.Keys)
      ensures forall i, j :: 0 <= i < j < |keys| ==> keys[i] != keys[j]
    {
      keys := [];
      var remaining := fields.Keys;
      while remaining != {}
        invariant remaining <= fields.Keys
        invariant Lists(keys, fields.Keys - remaining)
        invariant forall i, j :: 0 <= i < j < |keys| ==> keys[i] != keys[j]
        decreases remaining
      {
        var k :| k in remaining;
        keys := keys + [k];
        remaining := remaining - {k};
      }
    }

    static method SortKeys(keys: seq<string>) returns (sorted: seq<string>)
      requires forall i, j :: 0 <= i < j < |keys| ==> keys[i] != keys[j]
      ensures Sorted(sorted) && forall k :: k in sorted <==> k in keys
    {
      sorted := [];
      for i := 0 to |keys|
        invariant Sorted(sorted) && forall k :: k in sorted <==> k in keys[..i]
      {
        assert keys[i] !in keys[..i];
        InsertSorts(sorted, keys[i]);
        assert keys[..i + 1] == keys[..i] + [keys[i]];
        sorted := Insert(sorted, keys[i]);
      }
      assert keys[..|keys|] == keys;
    }

    /** Fails exactly when a float occurs somewhere in the value. */
    method WriteCanonical(v: Json) returns (r: Result<(), CanonicalError>)
      modifies this
      ensures r.Ok? <==> FloatFree(v)
      ensures r.Ok? ==> out == old(out) + Canonical(v)
      decreases v, 2
    {
      r := Ok(());
      match v {
        case Null => WriteAll(NULL);
        case Bool(b) => WriteAll(if b then TRUE else FALSE);
        case Number(n) => WriteAll(Decimal(n));
        case Float(_) => r := Err(FloatNotAllowed);
        case String(s) => WriteString(s);
        case Array(_) => r := WriteArray(v);
        case Object(_) => r := WriteObject(v);
      }
    }

    method WriteArray(v: Json) returns (r: Result<(), CanonicalError>)
      requires v.Array?
      modifies this
      ensures r.Ok? <==> FloatFree(v)
      ensures r.Ok? ==> out == old(out) + Canonical(v)
      decreases v, 1
    {
      WriteAll([OPEN_BRACKET]);
      ghost var start := out;
      for i := 0 to |v.items|
        invariant forall j :: 0 <= j < i ==> FloatFree(v.items[j])
        invariant FloatFree(v) ==> out + ItemsFrom(v, i) == start + ItemsFrom(v, 0)
      {
        ghost var before := out;
        if i > 0 { WriteAll([COMMA]); }
        assert out == before + Separator(i);
        r := WriteCanonical(v.items[i]);
        if r.Err? { return; }
        if FloatFree(v) { ItemStep(before, v, i); }
      }
      WriteAll([CLOSE_BRACKET]);
      r := Ok(());
      Wrap(old(out), OPEN_BRACKET, ItemsFrom(v, 0), CLOSE_BRACKET);
    }

    method WriteKey(key: string, i: nat)
      modifies this
      ensures out == old(out) + KeyBytes(key, i)
    {
      if i > 0 { WriteAll([COMMA]); }
      WriteString(key);
      WriteAll([COLON]);
    }

    method WriteFields(v: Json, keys: seq<string>) returns (r: Result<(), CanonicalError>)
      requires v.Object? && Lists(keys, v.fields.Keys)
      modifies this
      ensures r.Ok? <==> FloatFree(v)
      ensures r.Ok? ==> out == old(out) + FieldsFrom(v, keys, 0)
      decreases v, 0
    {
      for i := 0 to |keys|
        invariant forall j :: 0 <= j < i ==> FloatFree(v.fields[keys[j]])
        invariant FloatFree(v) ==> out + FieldsFrom(v, keys, i) == old(out) + FieldsFrom(v, keys, 0)
      {
        ghost var before := out;
        WriteKey(keys[i], i);
        r := WriteCanonical(v.fields[keys[i]]);
        if r.Err? { return; }
        if FloatFree(v) { FieldStep(before, v, keys, i); }
      }
      r := Ok(());
      FieldsFloatFree(v, keys);
    }

    method WriteObject(v: Json) returns (r: Result<(), CanonicalError>)
      requires v.Object?
      modifies this
      ensures r.Ok? <==> FloatFree(v)
      ensures r.Ok? ==> out == old(out) + Canonical(v)
      decreases v, 1
    {
      var found := KeysOf(v.fields);
      var keys := SortKeys(found);
      SortedUnique(keys, SortedKeys(v.fields.Keys), v.fields.Keys);
      WriteAll([OPEN_BRACE]);
      r := WriteFields(v, keys);
      if r.Err? { return; }
      WriteAll([CLOSE_BRACE]);
      Wrap(old(out), OPEN_BRACE, FieldsFrom(v, keys, 0), CLOSE_BRACE);
    }
  }

  lemma EscapeStep(out: seq<Byte>, s: string, i: nat)
    requires i < |s|
    ensures out + EscapeAll(s[i..]) == out + Escape(s[i]) + EscapeAll(s[i + 1..])
  {
    assert s[i..][1..] == s[i + 1..];
    Regroup(out, [], Escape(s[i]), EscapeAll(s[i + 1..]));
  }

  lemma ItemStep(out: seq<Byte>, v: Json, i: nat)
    requires FloatFree(v) && v.Array? && i < |v.items|
    ensures out + ItemsFrom(v, i) == out + Separator(i) + Canonical(v.items[i]) + ItemsFrom(v, i + 1)
  {
    Regroup(out, Separator(i), Canonical(v.items[i]), ItemsFrom(v, i + 1));
  }

  lemma FieldsFloatFree(v: Json, keys: seq<string>)
    requires v.Object? && Lists(keys, v.fields.Keys)
    requires forall j :: 0 <= j < |keys| ==> FloatFree(v.fields[keys[j]])
    ensures FloatFree(v)
  {
    forall k | k in v.fields ensures FloatFree(v.fields[k]) {
      assert k in keys;
    }
  }

  lemma FieldStep(out: seq<Byte>, v: Json, keys: seq<string>, i: nat)
    requires FloatFree(v) && v.Object? && i < |keys| && forall k :: k in keys ==> k in v.fields
    ensures out + FieldsFrom(v, keys, i) ==
            out + KeyBytes(keys[i], i) + Canonical(v.fields[keys[i]]) + FieldsFrom(v, keys, i + 1)
  {
    Regroup(out, KeyBytes(keys[i], i), Canonical(v.fields[keys[i]]), FieldsFrom(v, keys, i + 1));
  }

  lemma Regroup(a: seq<Byte>, b: seq<Byte>, c: seq<Byte>, d: seq<Byte>)
    ensures a + b + c + d == a + (b + c + d)
  {}

  lemma Wrap(a: seq<Byte>, open: Byte, inner: seq<Byte>, close: Byte)
    ensures a + [open] + inner + [close] == a + ([open] + inner + [close])
  {}

  /** Canonicalize to a byte vector. */
  method ToCanonicalBytes(v: Json) returns (r: Result<seq<Byte>, CanonicalError>)
    ensures r.Ok? <==> FloatFree(v)
    ensures r.Ok? ==> r.value == Canonical(v)
  {
    var w := new Writer();
    var e := w.WriteCanonical(v);
    r := if e.Ok? then Ok(w.out) else Err(e.error);
  }
}
