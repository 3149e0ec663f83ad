/** What a reconciliation decides: it splits exactly this machine's records into the adopted one and
    the deleted ones, it does not depend on the order of the listing, it carries the owner's newest
    choices forward, and once carried out it has nothing left to do. */
module ReconcileLaws {
  import opened Wrappers
  import opened CanonicalJson
  import opened FieldMerge
  import opened Reconcile

  ghost predicate DistinctRkeys(listed: seq<Listed>) {
    forall i, j :: 0 <= i < j < |listed| ==> listed[i].rkey != listed[j].rkey
  }

  // ---------------------------------------------------------------- contents

  lemma {:induction false} OfKindCount(listed: seq<Listed>, me: Machine, kind: Kinship, rec: Listed)
    ensures multiset(OfKind(listed, me, kind))[rec] == if Classify(rec, me) == kind then multiset(listed)[rec] else 0
  {
    if listed != [] {
      OfKindCount(listed[1..], me, kind, rec);
      assert listed == [listed[0]] + listed[1..];
    }
  }

  lemma OfKindMembers(listed: seq<Listed>, me: Machine, kind: Kinship, rec: Listed)
    ensures rec in OfKind(listed, me, kind) <==> rec in listed && Classify(rec, me) == kind
  {
    OfKindCount(listed, me, kind, rec);
    assert rec in OfKind(listed, me, kind) <==> rec in multiset(OfKind(listed, me, kind));
    assert rec in listed <==> rec in multiset(listed);
  }

  lemma {:induction false} PlaceContents(rec: Listed, sorted: seq<Listed>)
    ensures multiset(Place(rec, sorted)) == multiset{rec} + multiset(sorted)
  {
    if sorted != [] && Newer(sorted[0], rec) {
      PlaceContents(rec, sorted[1..]);
      assert sorted == [sorted[0]] + sorted[1..];
    }
  }

  lemma {:induction false} NewestContents(records: seq<Listed>)
    ensures multiset(Newest(records)) == multiset(records)
    ensures |Newest(records)| == |records|
  {
    if records != [] {
      NewestContents(records[1..]);
      PlaceContents(records[0], Newest(records[1..]));
      assert records == [records[0]] + records[1..];
    }
    assert |multiset(Newest(records))| == |multiset(records)|;
  }

  lemma NewestMembers(records: seq<Listed>, rec: Listed)
    ensures rec in Newest(records) <==> rec in records
  {
    NewestContents(records);
    assert rec in Newest(records) <==> rec in multiset(Newest(records));
    assert rec in records <==> rec in multiset(records);
  }

  lemma {:induction false} WithRkeyFinds(records: seq<Listed>, rkey: string)
    ensures var found := WithRkey(records, rkey);
      && (found.Some? ==> found.value in records && found.value.rkey == rkey)
      && (found.None? ==> forall r :: r in records ==> r.rkey != rkey)
  {
    if records != [] { WithRkeyFinds(records[1..], rkey); }
  }

  lemma AdoptedIsListed(sorted: seq<Listed>, me: Machine)
    requires sorted != []
    ensures Adopted(sorted, me) in sorted
  {
    if me.cachedRkey.Some? { WithRkeyFinds(sorted, me.cachedRkey.value); }
  }

  /** The record that was adopted. */
  function AdoptedFrom(listed: seq<Listed>, me: Machine): Listed
    requires Reconciled(listed, me).Some?
  {
    Adopted(Newest(Ours(listed, me)), me)
  }

  lemma OursMembers(listed: seq<Listed>, me: Machine, rec: Listed)
    ensures rec in Ours(listed, me) <==>
      rec in listed &&
      (|| Classify(rec, me) == Mine
       || (Classify(rec, me) == LegacyCandidate && |OfKind(listed, me, LegacyCandidate)| == 1))
  {
    OfKindMembers(listed, me, Mine, rec);
    OfKindMembers(listed, me, LegacyCandidate, rec);
  }

  // ---------------------------------------------------------------- adopted and deleted are exactly ours

  lemma {:induction false} LosersMembers(records: seq<Listed>, rkey: string, pair: (string, string))
    ensures pair in Losers(records, rkey) <==>
      exists rec :: rec in records && rec.rkey != rkey && pair == (rec.rkey, rec.cid)
  {
    if records != [] {
      LosersMembers(records[1..], rkey, pair);
      assert records == [records[0]] + records[1..];
    }
  }

  lemma {:induction false} LosersCount(records: seq<Listed>, rkey: string)
    requires DistinctRkeys(records)
    ensures |Losers(records, rkey)| == |records| - if WithRkey(records, rkey).Some? then 1 else 0
  {
    if records != [] {
      LosersCount(records[1..], rkey);
      WithRkeyFinds(records[1..], rkey);
    }
  }

  lemma SameRkeySameRecord(listed: seq<Listed>, a: Listed, b: Listed)
    requires DistinctRkeys(listed) && a in listed && b in listed && a.rkey == b.rkey
    ensures a == b
  {
    var i :| 0 <= i < |listed| && listed[i] == a;
    var j :| 0 <= j < |listed| && listed[j] == b;
  }

  /** A record is ours exactly when it is the adopted one or is deleted, never both. */
  lemma Partition(listed: seq<Listed>, me: Machine, rec: Listed)
    requires DistinctRkeys(listed) && Reconciled(listed, me).Some? && rec in listed
    ensures var o := Reconciled(listed, me).value;
      && (rec in Ours(listed, me) <==> rec.rkey == o.canonicalRkey || (rec.rkey, rec.cid) in o.delete)
      && !(rec.rkey == o.canonicalRkey && (rec.rkey, rec.cid) in o.delete)
  {
    var o := Reconciled(listed, me).value;
    var sorted := Newest(Ours(listed, me));
    var canonical := Adopted(sorted, me);
    AdoptedIsListed(sorted, me);
    NewestMembers(Ours(listed, me), canonical);
    OursMembers(listed, me, canonical);
    NewestMembers(Ours(listed, me), rec);
    LosersMembers(sorted, canonical.rkey, (rec.rkey, rec.cid));
    if rec.rkey == canonical.rkey { SameRkeySameRecord(listed, rec, canonical); }
    if (rec.rkey, rec.cid) in o.delete {
      var loser :| loser in sorted && loser.rkey != canonical.rkey && (rec.rkey, rec.cid) == (loser.rkey, loser.cid);
      NewestMembers(Ours(listed, me), loser);
      OursMembers(listed, me, loser);
      SameRkeySameRecord(listed, rec, loser);
    }
  }

  lemma {:induction false} ListedOnce(listed: seq<Listed>, rec: Listed)
    requires DistinctRkeys(listed)
    ensures multiset(listed)[rec] <= 1
  {
    if listed != [] {
      ListedOnce(listed[1..], rec);
      assert listed == [listed[0]] + listed[1..];
      assert listed[0] !in listed[1..];
    }
  }

  lemma CountedTwice(s: seq<Listed>, i: nat, j: nat)
    requires i < j < |s| && s[i] == s[j]
    ensures multiset(s)[s[i]] >= 2
  {
    assert s == s[..i] + [s[i]] + s[i + 1..];
    assert s[i + 1..][j - i - 1] == s[j];
    assert s[j] in multiset(s[i + 1..]);
  }

  lemma OursAreDistinct(listed: seq<Listed>, me: Machine)
    requires DistinctRkeys(listed)
    ensures DistinctRkeys(Newest(Ours(listed, me)))
  {
    var ours, sorted := Ours(listed, me), Newest(Ours(listed, me));
    NewestContents(ours);
    forall i, j | 0 <= i < j < |sorted| ensures sorted[i].rkey != sorted[j].rkey {
      if sorted[i].rkey == sorted[j].rkey {
        NewestMembers(ours, sorted[i]);
        NewestMembers(ours, sorted[j]);
        OursMembers(listed, me, sorted[i]);
        OursMembers(listed, me, sorted[j]);
        SameRkeySameRecord(listed, sorted[i], sorted[j]);
        CountedTwice(sorted, i, j);
        OursOnce(listed, me, sorted[i]);
      }
    }
  }

  lemma OursOnce(listed: seq<Listed>, me: Machine, rec: Listed)
    requires DistinctRkeys(listed)
    ensures multiset(Ours(listed, me))[rec] <= 1
  {
    OfKindCount(listed, me, Mine, rec);
    OfKindCount(listed, me, LegacyCandidate, rec);
    ListedOnce(listed, rec);
  }

  lemma {:induction false} LosersAreDistinct(records: seq<Listed>, rkey: string)
    requires DistinctRkeys(records)
    ensures forall i, j :: 0 <= i < j < |Losers(records, rkey)| ==>
      Losers(records, rkey)[i].0 != Losers(records, rkey)[j].0
  {
    if records != [] {
      var rest := Losers(records[1..], rkey);
      LosersAreDistinct(records[1..], rkey);
      forall j | 0 <= j < |rest| ensures rest[j].0 != records[0].rkey {
        LosersMembers(records[1..], rkey, rest[j]);
        var rec :| rec in records[1..] && rec.rkey != rkey && rest[j] == (rec.rkey, rec.cid);
      }
    }
  }

  /** The adopted record and the deleted ones are together as many as ours, and no record is listed
      for deletion twice. */
  lemma DeleteListIsExact(listed: seq<Listed>, me: Machine)
    requires DistinctRkeys(listed) && Reconciled(listed, me).Some?
    ensures var delete := Reconciled(listed, me).value.delete;
      && |delete| + 1 == |Ours(listed, me)|
      && forall i, j :: 0 <= i < j < |delete| ==> delete[i].0 != delete[j].0
  {
    var sorted := Newest(Ours(listed, me));
    var rkey := Reconciled(listed, me).value.canonicalRkey;
    NewestContents(Ours(listed, me));
    OursAreDistinct(listed, me);
    AdoptedIsListed(sorted, me);
    WithRkeyFinds(sorted, rkey);
    LosersCount(sorted, rkey);
    LosersAreDistinct(sorted, rkey);
  }

  /** Nothing is decided exactly when nothing is ours; a look-alike is never deleted unless it is the only one. */
  lemma NothingOursNothingDone(listed: seq<Listed>, me: Machine)
    ensures Reconciled(listed, me).None? <==> forall rec :: rec in listed ==> rec !in Ours(listed, me)
  {
    NewestContents(Ours(listed, me));
    if Ours(listed, me) != [] {
      OursMembers(listed, me, Ours(listed, me)[0]);
      assert Ours(listed, me)[0] in listed;
    }
  }

  // ---------------------------------------------------------------- the order of the listing

  /** No two of the records were created at the same time. */
  ghost predicate Apart(records: multiset<Listed>) {
    && (forall r :: records[r] <= 1)
    && (forall r, q :: r in records && q in records && r != q ==> r.createdAt != q.createdAt)
  }

  ghost predicate Descending(s: seq<Listed>) {
    forall i, j {:trigger Newer(s[i], s[j])} :: 0 <= i < j < |s| ==> Newer(s[i], s[j])
  }

  lemma BehindHead(rec: Listed, sorted: seq<Listed>, j: nat)
    requires j < |sorted| && Descending(sorted) && Newer(rec, sorted[0])
    ensures Newer(rec, sorted[j])
  {
    if j > 0 {
      assert Newer(sorted[0], sorted[j]);
      KeyLessTransitive(sorted[j].createdAt, sorted[0].createdAt, rec.createdAt);
    }
  }

  /** The first record stays newer than the rest when one more is placed behind it. */
  lemma AheadOfPlaced(rec: Listed, sorted: seq<Listed>, j: nat)
    requires sorted != [] && Descending(sorted) && Newer(sorted[0], rec) && j < |Place(rec, sorted[1..])|
    ensures Newer(sorted[0], Place(rec, sorted[1..])[j])
  {
    var rest := Place(rec, sorted[1..]);
    PlaceContents(rec, sorted[1..]);
    assert rest[j] in multiset(rest);
    if rest[j] != rec {
      assert rest[j] in sorted[1..];
      var k :| 0 <= k < |sorted| - 1 && sorted[1..][k] == rest[j];
      assert Newer(sorted[0], sorted[k + 1]);
    }
  }

  lemma DescendingCons(head: Listed, tail: seq<Listed>)
    requires Descending(tail) && forall j {:trigger tail[j]} :: 0 <= j < |tail| ==> Newer(head, tail[j])
    ensures Descending([head] + tail)
  {
    var s := [head] + tail;
    forall i, j {:trigger Newer(s[i], s[j])} | 0 <= i < j < |s| ensures Newer(s[i], s[j]) {
      assert s[j] == tail[j - 1];
      if i > 0 { assert s[i] == tail[i - 1]; }
    }
  }

  lemma DescendingTail(s: seq<Listed>)
    requires s != [] && Descending(s)
    ensures Descending(s[1..])
  {
    var t := s[1..];
    forall i, j {:trigger Newer(t[i], t[j])} | 0 <= i < j < |t| ensures Newer(t[i], t[j]) {
      assert Newer(s[i + 1], s[j + 1]);
    }
  }

  lemma {:induction false} PlaceDescends(rec: Listed, sorted: seq<Listed>)
    requires Descending(sorted) && forall r :: r in sorted ==> r.createdAt != rec.createdAt
    ensures Descending(Place(rec, sorted))
  {
    if sorted == [] {
    } else if Newer(sorted[0], rec) {
      var rest := Place(rec, sorted[1..]);
      DescendingTail(sorted);
      PlaceDescends(rec, sorted[1..]);
      forall j {:trigger rest[j]} | 0 <= j < |rest| ensures Newer(sorted[0], rest[j]) {
        AheadOfPlaced(rec, sorted, j);
      }
      DescendingCons(sorted[0], rest);
    } else {
      KeyLessTotal(rec.createdAt, sorted[0].createdAt);
      forall j {:trigger sorted[j]} | 0 <= j < |sorted| ensures Newer(rec, sorted[j]) {
        BehindHead(rec, sorted, j);
      }
      DescendingCons(rec, sorted);
    }
  }

  lemma ApartTail(records: seq<Listed>)
    requires records != [] && Apart(multiset(records))
    ensures Apart(multiset(records[1..]))
    ensures forall r :: r in records[1..] ==> r.createdAt != records[0].createdAt
  {
    var m := multiset(records[1..]);
    assert records == [records[0]] + records[1..];
    assert multiset(records) == multiset{records[0]} + m;
    forall r ensures m[r] <= 1 { assert multiset(records)[r] <= 1; }
    forall r | r in records[1..] ensures r.createdAt != records[0].createdAt {
      assert r in m;
      assert multiset(records)[records[0]] <= 1;
    }
  }

  lemma {:induction false} NewestDescends(records: seq<Listed>)
    requires Apart(multiset(records))
    ensures Descending(Newest(records))
  {
    if records != [] {
      ApartTail(records);
      NewestDescends(records[1..]);
      forall r | r in Newest(records[1..]) ensures r.createdAt != records[0].createdAt {
        NewestMembers(records[1..], r);
      }
      PlaceDescends(records[0], Newest(records[1..]));
    }
  }

  lemma HeadIsNewest(a: seq<Listed>, r: Listed)
    requires a != [] && Descending(a) && r in a
    ensures r == a[0] || Newer(a[0], r)
  {
    var k :| 0 <= k < |a| && a[k] == r;
    if k > 0 { assert Newer(a[0], a[k]); }
  }

  lemma {:induction false} DescendingIsUnique(a: seq<Listed>, b: seq<Listed>)
    requires Descending(a) && Descending(b) && multiset(a) == multiset(b)
    ensures a == b
  {
    assert |multiset(a)| == |a| && |multiset(b)| == |b|;
    if a != [] {
      SameHead(a, b);
      DescendingTail(a);
      DescendingTail(b);
      assert a == [a[0]] + a[1..] && b == [a[0]] + b[1..];
      assert multiset(a[1..]) == multiset(a) - multiset{a[0]};
      assert multiset(b[1..]) == multiset(b) - multiset{a[0]};
      DescendingIsUnique(a[1..], b[1..]);
    }
  }

  lemma SameHead(a: seq<Listed>, b: seq<Listed>)
    requires a != [] && b != [] && Descending(a) && Descending(b) && multiset(a) == multiset(b)
    ensures a[0] == b[0]
  {
    assert a[0] in multiset(b) && b[0] in multiset(a);
    HeadIsNewest(a, b[0]);
    HeadIsNewest(b, a[0]);
    KeyLessTotal(a[0].createdAt, b[0].createdAt);
  }

  lemma OfKindPermuted(a: seq<Listed>, b: seq<Listed>, me: Machine, kind: Kinship)
    requires multiset(a) == multiset(b)
    ensures multiset(OfKind(a, me, kind)) == multiset(OfKind(b, me, kind))
    ensures |OfKind(a, me, kind)| == |OfKind(b, me, kind)|
  {
    forall rec ensures multiset(OfKind(a, me, kind))[rec] == multiset(OfKind(b, me, kind))[rec] {
      OfKindCount(a, me, kind, rec);
      OfKindCount(b, me, kind, rec);
    }
    assert |multiset(OfKind(a, me, kind))| == |OfKind(a, me, kind)|;
    assert |multiset(OfKind(b, me, kind))| == |OfKind(b, me, kind)|;
  }

  /** When this machine's records have different creation times, the listing's order is irrelevant. */
  lemma ListingOrderIsIrrelevant(a: seq<Listed>, b: seq<Listed>, me: Machine)
    requires multiset(a) == multiset(b) && Apart(multiset(Ours(a, me)))
    ensures Reconciled(a, me) == Reconciled(b, me)
  {
    OfKindPermuted(a, b, me, Mine);
    OfKindPermuted(a, b, me, LegacyCandidate);
    assert multiset(Ours(a, me)) == multiset(Ours(b, me));
    NewestDescends(Ours(a, me));
    NewestDescends(Ours(b, me));
    NewestContents(Ours(a, me));
    NewestContents(Ours(b, me));
    DescendingIsUnique(Newest(Ours(a, me)), Newest(Ours(b, me)));
  }

  // ---------------------------------------------------------------- the owner's choices

  /** Newest first, equal times allowed. */
  ghost predicate NeverNewer(s: seq<Listed>) {
    forall i, j {:trigger Newer(s[j], s[i])} :: 0 <= i < j < |s| ==> !Newer(s[j], s[i])
  }

  lemma NeverNewerCons(head: Listed, tail: seq<Listed>)
    requires NeverNewer(tail) && forall j {:trigger tail[j]} :: 0 <= j < |tail| ==> !Newer(tail[j], head)
    ensures NeverNewer([head] + tail)
  {
    var s := [head] + tail;
    forall i, j {:trigger Newer(s[j], s[i])} | 0 <= i < j < |s| ensures !Newer(s[j], s[i]) {
      assert s[j] == tail[j - 1];
      if i > 0 { assert s[i] == tail[i - 1]; }
    }
  }

  lemma NeverNewerTail(s: seq<Listed>)
    requires s != [] && NeverNewer(s)
    ensures NeverNewer(s[1..])
  {
    var t := s[1..];
    forall i, j {:trigger Newer(t[j], t[i])} | 0 <= i < j < |t| ensures !Newer(t[j], t[i]) {
      assert !Newer(s[j + 1], s[i + 1]);
    }
  }

  lemma {:induction false} PlaceNeverNewer(rec: Listed, sorted: seq<Listed>)
    requires NeverNewer(sorted)
    ensures NeverNewer(Place(rec, sorted))
  {
    if sorted == [] {
    } else if Newer(sorted[0], rec) {
      var rest := Place(rec, sorted[1..]);
      NeverNewerTail(sorted);
      PlaceNeverNewer(rec, sorted[1..]);
      PlaceContents(rec, sorted[1..]);
      KeyLessTotal(rec.createdAt, sorted[0].createdAt);
      forall j {:trigger rest[j]} | 0 <= j < |rest| ensures !Newer(rest[j], sorted[0]) {
        assert rest[j] in multiset(rest);
        if rest[j] != rec {
          assert rest[j] in sorted[1..];
          var k :| 0 <= k < |sorted| - 1 && sorted[1..][k] == rest[j];
          assert !Newer(sorted[k + 1], sorted[0]);
        }
      }
      NeverNewerCons(sorted[0], rest);
    } else {
      forall j {:trigger sorted[j]} | 0 <= j < |sorted| ensures !Newer(sorted[j], rec) {
        if j > 0 && Newer(sorted[j], rec) { NewerThanHead(rec, sorted, j); }
      }
      NeverNewerCons(rec, sorted);
    }
  }

  lemma NewerThanHead(rec: Listed, sorted: seq<Listed>, j: nat)
    requires 0 < j < |sorted| && NeverNewer(sorted)
    requires Newer(sorted[j], rec)
    ensures Newer(sorted[0], rec)
  {
    assert !Newer(sorted[j], sorted[0]);
    KeyLessTotal(sorted[0].createdAt, sorted[j].createdAt);
    if KeyLess(sorted[j].createdAt, sorted[0].createdAt) {
      KeyLessTransitive(rec.createdAt, sorted[j].createdAt, sorted[0].createdAt);
    }
  }

  lemma {:induction false} NewestIsOrdered(records: seq<Listed>)
    ensures NeverNewer(Newest(records))
  {
    if records != [] {
      NewestIsOrdered(records[1..]);
      PlaceNeverNewer(records[0], Newest(records[1..]));
    }
  }

  function Setting(rec: Listed, key: string): Option<Json> {
    Get(FieldsOf(rec.value), key)
  }

  /** Neither absent nor null. */
  predicate Chosen(v: Option<Json>) {
    v != None && v != Some(Null)
  }

  /** The value comes from a record of which no later one has a value. */
  ghost predicate NewestSetting(records: seq<Listed>, key: string, v: Option<Json>) {
    exists rec :: rec in records && Chosen(Setting(rec, key)) && v == Setting(rec, key)
      && forall other :: other in records && Chosen(Setting(other, key)) ==> !KeyLess(rec.createdAt, other.createdAt)
  }

  lemma {:induction false} FirstSetIsNewest(sorted: seq<Listed>, key: string)
    requires NeverNewer(sorted)
    ensures FirstSet(sorted, key).None? <==> forall rec :: rec in sorted ==> !Chosen(Setting(rec, key))
    ensures FirstSet(sorted, key).Some? ==> NewestSetting(sorted, key, FirstSet(sorted, key))
  {
    if sorted == [] {
    } else if IsSet(Setting(sorted[0], key)) {
      KeyLessTotal(sorted[0].createdAt, sorted[0].createdAt);
      forall other | other in sorted ensures !Newer(other, sorted[0]) {
        var k :| 0 <= k < |sorted| && sorted[k] == other;
      }
    } else {
      FirstSetIsNewest(sorted[1..], key);
      assert sorted == [sorted[0]] + sorted[1..];
    }
  }

  /** Each owner key of the base is the adopted record's own value, else the newest that any of this
      machine's records holds; every other key is the adopted record's. */
  lemma OwnerChoicesAreCarried(listed: seq<Listed>, me: Machine, key: string)
    requires Reconciled(listed, me).Some? && AdoptedFrom(listed, me).value.Object?
    ensures var v := Get(FieldsOf(Reconciled(listed, me).value.base), key);
            var own := Setting(AdoptedFrom(listed, me), key);
      if !Owned(key) || Chosen(own) || forall r :: r in Ours(listed, me) ==> !Chosen(Setting(r, key)) then v == own
      else NewestSetting(Ours(listed, me), key, v)
  {
    var sorted := Newest(Ours(listed, me));
    NewestIsOrdered(Ours(listed, me));
    FirstSetIsNewest(sorted, key);
    HarvestedLookup(AdoptedFrom(listed, me).value.fields, sorted, key);
    forall rec ensures rec in sorted <==> rec in Ours(listed, me) { NewestMembers(Ours(listed, me), rec); }
    if FirstSet(sorted, key).Some? {
      NewestSettingPermuted(sorted, Ours(listed, me), key, FirstSet(sorted, key));
    }
  }

  lemma NewestSettingPermuted(a: seq<Listed>, b: seq<Listed>, key: string, v: Option<Json>)
    requires NewestSetting(a, key, v) && forall rec :: rec in a <==> rec in b
    ensures NewestSetting(b, key, v)
  {
    var rec :| rec in a && Chosen(Setting(rec, key)) && v == Setting(rec, key)
      && forall other :: other in a && Chosen(Setting(other, key)) ==> !KeyLess(rec.createdAt, other.createdAt);
    assert rec in b;
  }

  // ---------------------------------------------------------------- which record is adopted

  /** Nothing in the listing is later than entry i, and what stands before it is earlier. */
  ghost predicate FirstOfTheLatest(records: seq<Listed>, i: nat) {
    && i < |records|
    && (forall j :: 0 <= j < |records| ==> !KeyLess(records[i].createdAt, records[j].createdAt))
    && (forall j :: 0 <= j < i ==> KeyLess(records[j].createdAt, records[i].createdAt))
  }

  lemma NotLater(a: string, b: string, c: string)
    requires !KeyLess(a, b) && !KeyLess(b, c)
    ensures !KeyLess(a, c)
  {
    KeyLessTotal(a, b);
    KeyLessTotal(b, c);
    if KeyLess(b, a) && KeyLess(c, b) {
      KeyLessTransitive(c, b, a);
      KeyLessTotal(a, c);
    }
  }

  lemma {:induction false} HeadOfNewest(records: seq<Listed>) returns (i: nat)
    requires records != []
    ensures FirstOfTheLatest(records, i) && Newest(records) != [] && Newest(records)[0] == records[i]
  {
    KeyLessTotal(records[0].createdAt, records[0].createdAt);
    if |records| == 1 {
      i := 0;
      assert Newest(records[1..]) == [];
    } else {
      var k := HeadOfNewest(records[1..]);
      var best := records[1..][k];
      forall j | 0 < j < |records| ensures !KeyLess(best.createdAt, records[j].createdAt) {
        assert records[j] == records[1..][j - 1];
      }
      if KeyLess(records[0].createdAt, best.createdAt) {
        i := k + 1;
        KeyLessTotal(records[0].createdAt, best.createdAt);
        forall j | 0 < j < i ensures KeyLess(records[j].createdAt, best.createdAt) {
          assert records[j] == records[1..][j - 1];
        }
      } else {
        i := 0;
        forall j | 0 < j < |records| ensures !KeyLess(records[0].createdAt, records[j].createdAt) {
          NotLater(records[0].createdAt, best.createdAt, records[j].createdAt);
        }
      }
    }
  }

  /** The cached key is adopted exactly when a record of ours has it; otherwise the latest of our records
      is, the first listed of several. */
  lemma CachedOrLatestIsAdopted(listed: seq<Listed>, me: Machine) returns (i: nat)
    requires Reconciled(listed, me).Some?
    ensures var o, ours := Reconciled(listed, me).value, Ours(listed, me);
      && i < |ours| && ours[i].rkey == o.canonicalRkey && ours[i].cid == o.canonicalCid
      && if me.cachedRkey.Some? && exists r :: r in ours && r.rkey == me.cachedRkey.value
         then o.canonicalRkey == me.cachedRkey.value else FirstOfTheLatest(ours, i)
  {
    var ours := Ours(listed, me);
    var sorted := Newest(ours);
    NewestContents(ours);
    i := HeadOfNewest(ours);
    if me.cachedRkey.Some? {
      WithRkeyFinds(sorted, me.cachedRkey.value);
      var found := WithRkey(sorted, me.cachedRkey.value);
      if found.Some? {
        NewestMembers(ours, found.value);
        i :| 0 <= i < |ours| && ours[i] == found.value;
      } else {
        forall r | r in ours ensures r.rkey != me.cachedRkey.value { NewestMembers(ours, r); }
      }
    }
  }

  // ---------------------------------------------------------------- whose record it is

  predicate HasText(body: Fields, key: string) {
    Get(body, key).Some? && Get(body, key).value.String?
  }

  predicate Says(body: Fields, key: string, text: string) {
    Get(body, key) == Some(String(text))
  }

  /** A record body is definitely this machine's when it carries its fingerprint; or when it carries no
      fingerprint and either was signed with the machine's key, or was signed at all and sits at the
      cached key. Failing that it is a look-alike when it carries no fingerprint and its label, chip and
      model are the machine's. */
  lemma WhoseRecord(rkey: string, cid: string, body: Fields, me: Machine)
    ensures var kind := Classify(FromValue(rkey, cid, Object(body)), me);
      var mine :=
        || (me.machineFingerprint.Some? && Says(body, "machineFingerprint", me.machineFingerprint.value))
        || (&& !HasText(body, "machineFingerprint")
            && (|| Says(body, "attestationPubKey", me.attestationPubKey)
                || (me.cachedRkey == Some(rkey) && HasText(body, "attestationPubKey"))));
      var similar :=
        && !HasText(body, "machineFingerprint")
        && Says(body, "machineLabel", me.machineLabel) && Says(body, "chip", me.chip)
        && (if me.modelIdentifier.Some? then Says(body, "modelIdentifier", me.modelIdentifier.value)
            else !HasText(body, "modelIdentifier"));
      kind == if mine then Mine else if similar then LegacyCandidate else Other
    ensures FromValue(rkey, cid, Object(body)).createdAt ==
      if HasText(body, "createdAt") then Get(body, "createdAt").value.s else ""
  {}

  ghost predicate IsAt(listed: seq<Listed>, me: Machine, kind: Kinship, i: nat) {
    i < |listed| && Classify(listed[i], me) == kind
  }

  lemma {:induction false} SomeOfKind(listed: seq<Listed>, me: Machine, kind: Kinship)
    ensures OfKind(listed, me, kind) != [] <==> exists i: nat :: IsAt(listed, me, kind, i)
  {
    if listed != [] {
      SomeOfKind(listed[1..], me, kind);
      if i: nat :| IsAt(listed[1..], me, kind, i) { assert IsAt(listed, me, kind, i + 1); }
      if i: nat :| IsAt(listed, me, kind, i) {
        if i > 0 { assert IsAt(listed[1..], me, kind, i - 1); }
      }
      if Classify(listed[0], me) == kind { assert IsAt(listed, me, kind, 0); }
    }
  }

  lemma {:induction false} SeveralOfKind(listed: seq<Listed>, me: Machine, kind: Kinship)
    ensures |OfKind(listed, me, kind)| > 1 <==>
      exists i: nat, j: nat :: i < j && IsAt(listed, me, kind, i) && IsAt(listed, me, kind, j)
  {
    if listed != [] {
      var tail := listed[1..];
      SomeOfKind(tail, me, kind);
      SeveralOfKind(tail, me, kind);
      if i: nat, j: nat :| i < j && IsAt(tail, me, kind, i) && IsAt(tail, me, kind, j) {
        assert IsAt(listed, me, kind, i + 1) && IsAt(listed, me, kind, j + 1);
      }
      if i: nat :| IsAt(tail, me, kind, i) && IsAt(listed, me, kind, 0) { assert IsAt(listed, me, kind, i + 1); }
      if i: nat, j: nat :| i < j && IsAt(listed, me, kind, i) && IsAt(listed, me, kind, j) {
        assert IsAt(tail, me, kind, j - 1);
        if i > 0 { assert IsAt(tail, me, kind, i - 1); }
      }
    }
  }

  /** Look-alikes are reported, all of them, exactly when there are several. */
  lemma SeveralAreAmbiguous(listed: seq<Listed>, me: Machine)
    requires Reconciled(listed, me).Some?
    ensures var several := exists i: nat, j: nat ::
        i < j && IsAt(listed, me, LegacyCandidate, i) && IsAt(listed, me, LegacyCandidate, j);
      Reconciled(listed, me).value.ambiguousLegacy ==
        if several then |OfKind(listed, me, LegacyCandidate)| else 0
  {
    SeveralOfKind(listed, me, LegacyCandidate);
  }
}
