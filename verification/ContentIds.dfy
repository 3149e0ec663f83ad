/** Content identifiers that tell all bodies apart do exist: the canonical bytes of a body, once its
    floating-point numbers are spelled as bit patterns. The store's assumption can thus be met. */
module ContentIds {
  import opened Utf8
  import opened CanonicalJson
  import CanonicalReader
  import opened RecordStore

  /** A body without floats: arrays are marked with a leading null, and a float becomes an array of
      its bit pattern alone. */
  function Spelled(v: Json): (r: Json)
    ensures FloatFree(r)
    decreases v, 1
  {
    match v
    case Float(bits) => Array([Number(bits)])
    case Array(items) => Array([Null] + SpelledItems(v, |items|))
    case Object(fields) => Object(map k | k in fields :: Spelled(fields[k]))
    case _ => v
  }

  function SpelledItems(v: Json, n: nat): (r: seq<Json>)
    requires v.Array? && n <= |v.items|
    ensures |r| == n && forall i :: 0 <= i < n ==> FloatFree(r[i])
    decreases v, 0, n
  {
    if n == 0 then [] else SpelledItems(v, n - 1) + [Spelled(v.items[n - 1])]
  }

  lemma SpelledHead(v: Json)
    ensures v.Array? ==> Spelled(v).items != [] && Spelled(v).items[0] == Null
  {}

  lemma {:induction false} SpelledItemsInjective(v: Json, w: Json, n: nat)
    requires v.Array? && w.Array? && n <= |v.items| && n <= |w.items| && SpelledItems(v, n) == SpelledItems(w, n)
    ensures v.items[..n] == w.items[..n]
    decreases v, 0, n
  {
    if n > 0 {
      var a, b := SpelledItems(v, n - 1), SpelledItems(w, n - 1);
      assert SpelledItems(v, n)[..n - 1] == a && SpelledItems(w, n)[..n - 1] == b;
      assert SpelledItems(v, n)[n - 1] == Spelled(v.items[n - 1]);
      assert SpelledItems(w, n)[n - 1] == Spelled(w.items[n - 1]);
      SpelledItemsInjective(v, w, n - 1);
      SpelledIsInjective(v.items[n - 1], w.items[n - 1]);
      assert v.items[..n] == v.items[..n - 1] + [v.items[n - 1]];
      assert w.items[..n] == w.items[..n - 1] + [w.items[n - 1]];
    }
  }

  lemma {:induction false} SpelledArrayInjective(v: Json, w: Json)
    requires v.Array? && Spelled(v) == Spelled(w)
    ensures v == w
    decreases v, 1
  {
    var a := [Null] + SpelledItems(v, |v.items|);
    assert Spelled(v).items == a && a[0] == Null;
    assert w.Array?;
    assert a == [Null] + SpelledItems(w, |w.items|);
    assert a[1..] == SpelledItems(v, |v.items|) == SpelledItems(w, |w.items|);
    SpelledItemsInjective(v, w, |v.items|);
    assert v.items[..|v.items|] == v.items && w.items[..|w.items|] == w.items;
  }

  lemma {:induction false} SpelledIsInjective(v: Json, w: Json)
    requires Spelled(v) == Spelled(w)
    ensures v == w
    decreases v, 2
  {
    if v.Array? {
      SpelledArrayInjective(v, w);
    } else if v.Object? {
      assert w.Object?;
      assert v.fields.Keys == Spelled(v).fields.Keys == w.fields.Keys;
      forall k | k in v.fields ensures v.fields[k] == w.fields[k] {
        assert Spelled(v).fields[k] == Spelled(v.fields[k]);
        assert Spelled(w).fields[k] == Spelled(w.fields[k]);
        SpelledIsInjective(v.fields[k], w.fields[k]);
      }
      assert v.fields == w.fields;
    } else if v.Float? {
      SpelledHead(w);
    }
  }

  function AsText(bytes: seq<Byte>): string {
    seq(|bytes|, i requires 0 <= i < |bytes| => bytes[i] as char)
  }

  lemma AsTextIsInjective(a: seq<Byte>, b: seq<Byte>)
    requires AsText(a) == AsText(b)
    ensures a == b
  {
    assert |a| == |AsText(a)| == |b|;
    forall i | 0 <= i < |a| ensures a[i] == b[i] { assert AsText(a)[i] == AsText(b)[i]; }
  }

  ghost function ContentId(v: Json): string {
    AsText(Canonical(Spelled(v)))
  }

  /** Some content identifier tells any two bodies apart. */
  lemma ContentIdIsInjective()
    ensures Injective(v => ContentId(v))
    ensures exists cid :: Injective(cid)
  {
    var cid: CidOf := v => ContentId(v);
    forall a, b | cid(a) == cid(b) ensures a == b {
      AsTextIsInjective(Canonical(Spelled(a)), Canonical(Spelled(b)));
      CanonicalReader.CanonicalIsUnambiguous(Spelled(a), Spelled(b));
      SpelledIsInjective(a, b);
    }
    assert Injective(cid);
  }
}
