/** The records of an account while a machine publishes, as long as other writers leave its own records
    recognizable: the invariant that deletes and edits keep, and what such a listing reconciles to. */
module DedupStates {
  import opened Wrappers
  import opened CanonicalJson
  import opened Reconcile
  import opened ReconcileLaws
  import opened ReconcileSettles
  import opened RecordStore
  import opened AccountRecords

  lemma DeletesSpareTheAdopted(listed: seq<Listed>, me: Machine, pair: (string, string))
    requires Reconciled(listed, me).Some? && pair in Reconciled(listed, me).value.delete
    ensures pair.0 != Reconciled(listed, me).value.canonicalRkey
  {
    LosersMembers(Newest(Ours(listed, me)), Reconciled(listed, me).value.canonicalRkey, pair);
  }

  lemma CanonicalIsFound(listed: seq<Listed>, me: Machine)
    requires DistinctRkeys(listed) && Reconciled(listed, me).Some?
    ensures WithRkey(listed, Reconciled(listed, me).value.canonicalRkey) == Some(AdoptedFrom(listed, me))
  {
    CanonicalIsListed(listed, me);
    FoundIsListed(listed, AdoptedFrom(listed, me));
  }

  // ---------------------------------------------------------------- assumptions on the other writers

  /** Every listed record was read from its body, and its cid is that of the body. */
  ghost predicate WellStored(cid: CidOf, records: seq<Listed>) {
    && DistinctRkeys(records)
    && WellRead(records)
    && forall rec :: rec in records ==> rec.cid == cid(rec.value)
  }

  /** Keys other than the adopted one where others write: what is listed there is no record of this
      machine, nor looks like one. */
  ghost predicate Foreign(listed: seq<Listed>, me: Machine, keys: set<string>)
    requires Reconciled(listed, me).Some?
  {
    forall k :: k in keys ==>
      && k != Reconciled(listed, me).value.canonicalRkey
      && (WithRkey(listed, k).Some? ==> Classify(WithRkey(listed, k).value, me) == Other)
  }

  /** At the adopted key this body is still recognized as this machine's. */
  ghost predicate KeepsIdentity(cid: CidOf, listed: seq<Listed>, me: Machine, body: Json)
    requires Reconciled(listed, me).Some?
  {
    Recognized(listed, me, me, FromValue(Reconciled(listed, me).value.canonicalRkey, cid(body), body))
  }

  /** An edit at the adopted key leaves the record recognizable; one elsewhere is at a foreign key and
      makes no record that looks like this machine's. */
  ghost predicate Allowed(cid: CidOf, listed: seq<Listed>, me: Machine, keys: set<string>, e: Edit)
    requires Reconciled(listed, me).Some?
  {
    if e.rkey == Reconciled(listed, me).value.canonicalRkey
    then e.Upsert? && KeepsIdentity(cid, listed, me, e.body)
    else e.rkey in keys && (e.Upsert? ==> Classify(FromValue(e.rkey, cid(e.body), e.body), me) == Other)
  }

  ghost predicate AllAllowed(cid: CidOf, listed: seq<Listed>, me: Machine, keys: set<string>, edits: seq<Edit>)
    requires Reconciled(listed, me).Some?
  {
    forall e :: e in edits ==> Allowed(cid, listed, me, keys, e)
  }

  /** From the first listing on, others keep to allowed edits; that listing succeeds, and the deletes
      that follow reach the store. */
  ghost predicate Assumed(
      cid: CidOf, listed: seq<Listed>, me: Machine, keys: set<string>, meetings: seq<seq<Exchange>>)
  {
    && WellStored(cid, listed) && Reconciled(listed, me).Some? && Foreign(listed, me, keys) && meetings != []
    && (forall i: nat, j: nat :: i < |meetings| && i + j > 0 ==>
          AllAllowed(cid, listed, me, keys, Nth(meetings[i], j).others))
    && Nth(meetings[0], 0).fate.Answered?
    && (forall j: nat :: 1 <= j <= |Reconciled(listed, me).value.delete| ==> !Nth(meetings[0], j).fate.Lost?)
  }

  // ---------------------------------------------------------------- the records, step by step

  /** What is left of a listed record while the last of the deletes are still to come. */
  function Left(listed: seq<Listed>, o: Outcome, pending: seq<(string, string)>, k: string): Option<Listed> {
    var found := WithRkey(listed, k);
    if found.Some? && (k, found.value.cid) in o.delete && (k, found.value.cid) !in pending then None else found
  }

  /** A body is stored at the adopted key; what is at a foreign key is foreign; everything else is as
      listed, apart from the duplicates deleted so far. */
  ghost predicate Shaped(
      cid: CidOf, listed: seq<Listed>, me: Machine, keys: set<string>, pending: seq<(string, string)>,
      records: seq<Listed>, body: Json)
    requires Reconciled(listed, me).Some?
  {
    var o := Reconciled(listed, me).value;
    && DistinctRkeys(records)
    && WithRkey(records, o.canonicalRkey) == Some(FromValue(o.canonicalRkey, cid(body), body))
    && (forall k :: k in keys && WithRkey(records, k).Some? ==> Classify(WithRkey(records, k).value, me) == Other)
    && (forall k :: k !in keys && k != o.canonicalRkey ==> WithRkey(records, k) == Left(listed, o, pending, k))
  }

  /** And this machine still recognizes its record. */
  ghost predicate Tidy(
      cid: CidOf, listed: seq<Listed>, me: Machine, keys: set<string>, pending: seq<(string, string)>,
      records: seq<Listed>, body: Json)
    requires Reconciled(listed, me).Some?
  {
    Shaped(cid, listed, me, keys, pending, records, body) && KeepsIdentity(cid, listed, me, body)
  }

  lemma ListingIsTidy(cid: CidOf, listed: seq<Listed>, me: Machine, keys: set<string>)
    requires WellStored(cid, listed) && Reconciled(listed, me).Some? && Foreign(listed, me, keys)
    ensures Tidy(cid, listed, me, keys, Reconciled(listed, me).value.delete, listed, AdoptedFrom(listed, me).value)
  {
    CanonicalIsFound(listed, me);
    CanonicalIsListed(listed, me);
    OursMembers(listed, me, AdoptedFrom(listed, me));
  }

  /** The last body that the edits put at a key. */
  function LastAt(body: Json, rkey: string, edits: seq<Edit>): Json
    decreases |edits|
  {
    if edits == [] then body
    else LastAt(if edits[0].Upsert? && edits[0].rkey == rkey then edits[0].body else body, rkey, edits[1..])
  }

  lemma {:induction false} EditsKeepTidy(
      cid: CidOf, listed: seq<Listed>, me: Machine, keys: set<string>, pending: seq<(string, string)>,
      records: seq<Listed>, body: Json, edits: seq<Edit>)
    requires Reconciled(listed, me).Some? && Foreign(listed, me, keys)
    requires Tidy(cid, listed, me, keys, pending, records, body) && AllAllowed(cid, listed, me, keys, edits)
    ensures Tidy(cid, listed, me, keys, pending, Changed(cid, records, edits),
      LastAt(body, Reconciled(listed, me).value.canonicalRkey, edits))
    decreases |edits|
  {
    if edits != [] {
      var e, rkey := edits[0], Reconciled(listed, me).value.canonicalRkey;
      assert Allowed(cid, listed, me, keys, e);
      OneEditKeepsTidy(cid, listed, me, keys, pending, records, body, e);
      EditsKeepTidy(cid, listed, me, keys, pending, Applied(cid, records, e),
        if e.Upsert? && e.rkey == rkey then e.body else body, edits[1..]);
    }
  }

  lemma OneEditKeepsTidy(
      cid: CidOf, listed: seq<Listed>, me: Machine, keys: set<string>, pending: seq<(string, string)>,
      records: seq<Listed>, body: Json, e: Edit)
    requires Reconciled(listed, me).Some? && Foreign(listed, me, keys)
    requires Tidy(cid, listed, me, keys, pending, records, body) && Allowed(cid, listed, me, keys, e)
    ensures Tidy(cid, listed, me, keys, pending, Applied(cid, records, e),
      if e.Upsert? && e.rkey == Reconciled(listed, me).value.canonicalRkey then e.body else body)
  {
    AppliedKeepsDistinct(cid, records, e);
    forall k | e.rkey != k || e.Upsert?
      ensures WithRkey(Applied(cid, records, e), k) ==
        if e.rkey == k then Some(FromValue(k, cid(e.body), e.body)) else WithRkey(records, k) {
      FindApplied(cid, records, e, k);
    }
    if e.Remove? { FindRemaining(records, At(e.rkey), e.rkey); }
  }

  /** The last body that exchanges j, ..., n-1 put at a key. */
  function LastIn(body: Json, rkey: string, exchanges: seq<Exchange>, j: nat, n: nat): Json
    decreases n - j
  {
    if j >= n then body else LastIn(LastAt(body, rkey, Nth(exchanges, j).others), rkey, exchanges, j + 1, n)
  }

  /** The deletes from the j-th on reach the store, and others keep to allowed edits meanwhile. */
  ghost predicate DeletesReach(
      cid: CidOf, listed: seq<Listed>, me: Machine, keys: set<string>, exchanges: seq<Exchange>, j: nat)
    requires Reconciled(listed, me).Some?
  {
    forall i: nat :: j < i <= |Reconciled(listed, me).value.delete| ==>
      AllAllowed(cid, listed, me, keys, Nth(exchanges, i).others) && !Nth(exchanges, i).fate.Lost?
  }

  lemma {:induction false} CleaningKeepsTidy(
      cid: CidOf, listed: seq<Listed>, me: Machine, keys: set<string>, pending: seq<(string, string)>,
      exchanges: seq<Exchange>, j: nat, records: seq<Listed>, body: Json)
    requires Reconciled(listed, me).Some? && Foreign(listed, me, keys) && DistinctRkeys(listed)
    requires j <= |Reconciled(listed, me).value.delete| && pending == Reconciled(listed, me).value.delete[j..]
    requires Tidy(cid, listed, me, keys, pending, records, body)
    requires DeletesReach(cid, listed, me, keys, exchanges, j)
    ensures var o := Reconciled(listed, me).value;
      Tidy(cid, listed, me, keys, [], Cleaned(cid, records, pending, exchanges, j + 1),
        LastIn(body, o.canonicalRkey, exchanges, j + 1, |o.delete| + 1))
    decreases |pending|
  {
    var o := Reconciled(listed, me).value;
    if pending != [] {
      var x := Nth(exchanges, j + 1);
      var now, later := Changed(cid, records, x.others), LastAt(body, o.canonicalRkey, x.others);
      EditsKeepTidy(cid, listed, me, keys, pending, records, body, x.others);
      OneDeleteKeepsTidy(cid, listed, me, keys, j, now, later);
      CleaningKeepsTidy(
        cid, listed, me, keys, pending[1..], exchanges, j + 1, Deleting(cid, records, pending[0], x), later);
    }
  }

  lemma OneDeleteKeepsTidy(
      cid: CidOf, listed: seq<Listed>, me: Machine, keys: set<string>, j: nat, records: seq<Listed>, body: Json)
    requires Reconciled(listed, me).Some? && DistinctRkeys(listed) && j < |Reconciled(listed, me).value.delete|
    requires Tidy(cid, listed, me, keys, Reconciled(listed, me).value.delete[j..], records, body)
    ensures var pair := Reconciled(listed, me).value.delete[j];
      Tidy(cid, listed, me, keys, Reconciled(listed, me).value.delete[j + 1..],
        Without(records, AtVersion(pair.0, pair.1)), body)
  {
    var o := Reconciled(listed, me).value;
    var pair := o.delete[j];
    var gone := AtVersion(pair.0, pair.1);
    WithoutKeepsDistinct(records, gone);
    DeletesSpareTheAdopted(listed, me, pair);
    DeleteListIsExact(listed, me);
    forall k ensures WithRkey(Without(records, gone), k) ==
      var found := WithRkey(records, k); if found.Some? && gone(found.value) then None else found {
      FindRemaining(records, gone, k);
    }
    forall k | k !in keys && k != o.canonicalRkey
      ensures WithRkey(Without(records, gone), k) == Left(listed, o, o.delete[j + 1..], k) {
      LeftAfterDelete(listed, o, j, k);
      WithRkeyFinds(listed, k);
    }
  }

  lemma LeftAfterDelete(listed: seq<Listed>, o: Outcome, j: nat, k: string)
    requires j < |o.delete| && forall a, b :: 0 <= a < b < |o.delete| ==> o.delete[a].0 != o.delete[b].0
    ensures var found := Left(listed, o, o.delete[j..], k);
      Left(listed, o, o.delete[j + 1..], k) ==
        if found.Some? && (k, found.value.cid) == o.delete[j] then None else found
  {
    assert o.delete[j..] == [o.delete[j]] + o.delete[j + 1..];
    assert o.delete[j] !in o.delete[j + 1..];
  }

  // ---------------------------------------------------------------- what a tidy listing reconciles to

  lemma OnlyMember(s: seq<Listed>, rec: Listed)
    requires rec in s && multiset(s)[rec] <= 1 && forall r :: r in s ==> r == rec
    ensures s == [rec]
  {
    assert s[0] in s;
    if |s| > 1 {
      assert s[1] in s;
      CountedTwice(s, 0, 1);
    }
  }

  lemma TidyOthers(
      cid: CidOf, listed: seq<Listed>, me: Machine, keys: set<string>, records: seq<Listed>, body: Json, rec: Listed)
    requires DistinctRkeys(listed) && Reconciled(listed, me).Some? && Foreign(listed, me, keys)
    requires Tidy(cid, listed, me, keys, [], records, body)
    requires rec in records && rec.rkey != Reconciled(listed, me).value.canonicalRkey
    ensures Classify(rec, me) != Mine
    ensures Classify(rec, me) == LegacyCandidate ==> rec in listed && |OfKind(listed, me, LegacyCandidate)| != 1
  {
    var o := Reconciled(listed, me).value;
    FoundIsListed(records, rec);
    if rec.rkey !in keys {
      WithRkeyFinds(listed, rec.rkey);
      UntouchedIsNotOurs(listed, me, me, rec);
    }
  }

  /** An ambiguous look-alike of the listing is still there. */
  lemma TidyKeepsLookalikes(
      cid: CidOf, listed: seq<Listed>, me: Machine, keys: set<string>, records: seq<Listed>, body: Json, rec: Listed)
    requires DistinctRkeys(listed) && Reconciled(listed, me).Some? && Foreign(listed, me, keys)
    requires Tidy(cid, listed, me, keys, [], records, body)
    requires rec in listed && Classify(rec, me) == LegacyCandidate && |OfKind(listed, me, LegacyCandidate)| != 1
    ensures rec in OfKind(records, me, LegacyCandidate)
  {
    Partition(listed, me, rec);
    OursMembers(listed, me, rec);
    FoundIsListed(listed, rec);
    WithRkeyFinds(records, rec.rkey);
    OfKindMembers(records, me, LegacyCandidate, rec);
  }

  lemma KindOnce(listed: seq<Listed>, me: Machine, kind: Kinship, rec: Listed)
    requires DistinctRkeys(listed)
    ensures multiset(OfKind(listed, me, kind))[rec] <= 1
  {
    OfKindCount(listed, me, kind, rec);
    ListedOnce(listed, rec);
  }

  /** A look-alike besides the adopted record was one of several in the listing. */
  lemma TidyLookalike(
      cid: CidOf, listed: seq<Listed>, me: Machine, keys: set<string>, records: seq<Listed>, body: Json, r: Listed)
    requires DistinctRkeys(listed) && Reconciled(listed, me).Some? && Foreign(listed, me, keys)
    requires Tidy(cid, listed, me, keys, [], records, body) && r in OfKind(records, me, LegacyCandidate)
    ensures var rec := FromValue(Reconciled(listed, me).value.canonicalRkey, cid(body), body);
      r == rec || |OfKind(listed, me, LegacyCandidate)| > 1
  {
    var rec := FromValue(Reconciled(listed, me).value.canonicalRkey, cid(body), body);
    OfKindMembers(records, me, LegacyCandidate, r);
    if r.rkey == rec.rkey {
      FoundIsListed(records, r);
    } else {
      TidyOthers(cid, listed, me, keys, records, body, r);
      OfKindMembers(listed, me, LegacyCandidate, r);
    }
  }

  /** Several look-alikes in the listing are several still. */
  lemma TidyStaysAmbiguous(
      cid: CidOf, listed: seq<Listed>, me: Machine, keys: set<string>, records: seq<Listed>, body: Json)
    requires DistinctRkeys(listed) && Reconciled(listed, me).Some? && Foreign(listed, me, keys)
    requires Tidy(cid, listed, me, keys, [], records, body) && |OfKind(listed, me, LegacyCandidate)| > 1
    ensures |OfKind(records, me, LegacyCandidate)| > 1
  {
    var was, legacy := OfKind(listed, me, LegacyCandidate), OfKind(records, me, LegacyCandidate);
    assert was[0] in was && was[1] in was;
    OfKindMembers(listed, me, LegacyCandidate, was[0]);
    OfKindMembers(listed, me, LegacyCandidate, was[1]);
    TidyKeepsLookalikes(cid, listed, me, keys, records, body, was[0]);
    TidyKeepsLookalikes(cid, listed, me, keys, records, body, was[1]);
    KindOnce(listed, me, LegacyCandidate, was[0]);
    if was[0] == was[1] { CountedTwice(was, 0, 1); }
  }

  /** Look-alikes stay ambiguous, or there are none besides this machine's own. */
  lemma TidyLegacy(
      cid: CidOf, listed: seq<Listed>, me: Machine, keys: set<string>, records: seq<Listed>, body: Json)
    requires DistinctRkeys(listed) && Reconciled(listed, me).Some? && Foreign(listed, me, keys)
    requires Tidy(cid, listed, me, keys, [], records, body)
    ensures var rec := FromValue(Reconciled(listed, me).value.canonicalRkey, cid(body), body);
            var legacy := OfKind(records, me, LegacyCandidate);
      if Classify(rec, me) == LegacyCandidate then legacy == [rec] else |legacy| != 1
  {
    var rec := FromValue(Reconciled(listed, me).value.canonicalRkey, cid(body), body);
    var legacy := OfKind(records, me, LegacyCandidate);
    FoundIsListed(records, rec);
    OfKindMembers(records, me, LegacyCandidate, rec);
    if |OfKind(listed, me, LegacyCandidate)| > 1 {
      TidyStaysAmbiguous(cid, listed, me, keys, records, body);
    } else {
      forall r | r in legacy ensures r == rec { TidyLookalike(cid, listed, me, keys, records, body, r); }
      KindOnce(records, me, LegacyCandidate, rec);
      if legacy != [] {
        assert legacy[0] in legacy;
        OnlyMember(legacy, rec);
      }
    }
  }

  lemma TidyIsSettled(
      cid: CidOf, listed: seq<Listed>, me: Machine, keys: set<string>, records: seq<Listed>, body: Json)
    requires DistinctRkeys(listed) && Reconciled(listed, me).Some? && Foreign(listed, me, keys)
    requires Tidy(cid, listed, me, keys, [], records, body)
    ensures Reconciled(records, me) == Some(Outcome(
      Reconciled(listed, me).value.canonicalRkey, cid(body), body, [], Ambiguous(records, me)))
  {
    var rec := FromValue(Reconciled(listed, me).value.canonicalRkey, cid(body), body);
    TidyLegacy(cid, listed, me, keys, records, body);
    FoundIsListed(records, rec);
    OursMembers(records, me, rec);
    forall r | r in Ours(records, me) ensures r == rec {
      OursMembers(records, me, r);
      if r.rkey == rec.rkey { SameRkeySameRecord(records, r, rec); }
      else { TidyOthers(cid, listed, me, keys, records, body, r); }
    }
    OursOnce(records, me, rec);
    OnlyMember(Ours(records, me), rec);
    assert Newest([rec]) == [rec] by { assert [rec][1..] == []; }
    OneRecordIsItsOwnBase(rec, me, Ambiguous(records, me));
  }
}
