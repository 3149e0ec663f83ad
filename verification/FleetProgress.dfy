/** One undisturbed round of a machine - list, delete the duplicates, put the merged record - leaves exactly
    one record of that machine, and everybody else's as they were. */
module FleetProgress {
  import opened Wrappers
  import opened CanonicalJson
  import opened FieldMerge
  import opened Reconcile
  import opened ReconcileLaws
  import R = RecordStore
  import opened FleetSafety

  /** The listing shows every record, each once. */
  ghost predicate ShowsAll(cid: R.CidOf, records: map<string, Json>, listing: seq<Listed>) {
    && Shows(cid, records, listing) && DistinctRkeys(listing)
    && forall rkey :: rkey in records ==> exists rec :: rec in listing && rec.rkey == rkey
  }

  function Deletes(m: string, j: nat, n: nat): seq<Act>
    decreases n - j
  {
    if j >= n then [] else [Delete(m, j)] + Deletes(m, j + 1, n)
  }

  function KeysFrom(delete: seq<(string, string)>, j: nat): set<string> {
    set i | j <= i < |delete| :: delete[i].0
  }

  lemma {:induction false} DeletesDelete(cid: R.CidOf, s: Fleet, m: string, j: nat)
    requires m in s.plans && j <= |s.plans[m].delete|
    requires var d := s.plans[m].delete;
      && (forall i :: j <= i < |d| ==> Current(cid, s, d[i].0, d[i].1))
      && (forall i, k :: j <= i < k < |d| ==> d[i].0 != d[k].0)
    ensures var d := s.plans[m].delete;
      && Legal(cid, s, Deletes(m, j, |d|))
      && Run(cid, s, Deletes(m, j, |d|)) == s.(records := s.records - KeysFrom(d, j))
    decreases |s.plans[m].delete| - j
  {
    var d := s.plans[m].delete;
    if j < |d| {
      var t := Next(cid, s, Delete(m, j));
      assert Current(cid, s, d[j].0, d[j].1);
      assert t == s.(records := s.records - {d[j].0});
      forall i | j + 1 <= i < |d| ensures Current(cid, t, d[i].0, d[i].1) {
        assert Current(cid, s, d[i].0, d[i].1) && d[i].0 != d[j].0;
      }
      DeletesDelete(cid, t, m, j + 1);
      assert Deletes(m, j, |d|)[1..] == Deletes(m, j + 1, |d|);
      assert KeysFrom(d, j) == {d[j].0} + KeysFrom(d, j + 1);
      assert t.records - KeysFrom(d, j + 1) == s.records - KeysFrom(d, j);
    } else {
      assert KeysFrom(d, j) == {};
      assert s.records - KeysFrom(d, j) == s.records;
    }
  }

  /** A key of the fleet is listed for deletion exactly when its record is ours and not the adopted one. */
  lemma DeletedKeys(cid: R.CidOf, s: Fleet, listing: seq<Listed>, me: Machine, m: string, rkey: string)
    requires AllStamped(s.records) && ShowsAll(cid, s.records, listing) && me.machineFingerprint == Some(m)
    requires Reconciled(listing, me).Some? && rkey in s.records
    ensures var o := Reconciled(listing, me).value;
      && (Fingerprint(s.records[rkey]) == Some(m) <==> rkey == o.canonicalRkey || rkey in KeysFrom(o.delete, 0))
      && !(rkey == o.canonicalRkey && rkey in KeysFrom(o.delete, 0))
  {
    var o := Reconciled(listing, me).value;
    var rec :| rec in listing && rec.rkey == rkey;
    OursCarryOurFingerprint(listing, me, rec);
    Partition(listing, me, rec);
    if rkey in KeysFrom(o.delete, 0) {
      var i :| 0 <= i < |o.delete| && o.delete[i].0 == rkey;
      DeletedIsListed(cid, s, listing, me, i);
      assert o.delete[i] == (rec.rkey, rec.cid);
    }
  }

  /** What is listed for deletion is a record of the fleet in its stored version. */
  lemma DeletedIsListed(cid: R.CidOf, s: Fleet, listing: seq<Listed>, me: Machine, i: nat)
    requires Shows(cid, s.records, listing) && Reconciled(listing, me).Some?
    requires i < |Reconciled(listing, me).value.delete|
    ensures var pair := Reconciled(listing, me).value.delete[i]; Current(cid, s, pair.0, pair.1)
  {
    var o := Reconciled(listing, me).value;
    var sorted := Newest(Ours(listing, me));
    LosersMembers(sorted, o.canonicalRkey, o.delete[i]);
    var loser :| loser in sorted && loser.rkey != o.canonicalRkey && o.delete[i] == (loser.rkey, loser.cid);
    NewestMembers(Ours(listing, me), loser);
    OursMembers(listing, me, loser);
  }

  lemma AdoptedIsCurrent(cid: R.CidOf, s: Fleet, listing: seq<Listed>, me: Machine)
    requires Shows(cid, s.records, listing) && Reconciled(listing, me).Some?
    ensures var o := Reconciled(listing, me).value; Current(cid, s, o.canonicalRkey, o.canonicalCid)
  {
    var canonical := AdoptedFrom(listing, me);
    AdoptedIsListed(Newest(Ours(listing, me)), me);
    NewestMembers(Ours(listing, me), canonical);
    OursMembers(listing, me, canonical);
  }

  /** The fleet after one round, when nobody else acts in between. */
  ghost function AfterRound(cid: R.CidOf, s: Fleet, m: string, me: Machine, listing: seq<Listed>, patch: Fields): Fleet
    requires Reconciled(listing, me).Some?
    requires Legal(cid, Next(cid, s, List(m, me, listing)),
      Deletes(m, 0, |Reconciled(listing, me).value.delete|) + [PutRecord(m, patch)])
  {
    Run(cid, Next(cid, s, List(m, me, listing)),
      Deletes(m, 0, |Reconciled(listing, me).value.delete|) + [PutRecord(m, patch)])
  }

  lemma {:induction false} RunAppend(cid: R.CidOf, s: Fleet, acts: seq<Act>, a: Act)
    requires Legal(cid, s, acts) && Possible(cid, Run(cid, s, acts), a)
    ensures Legal(cid, s, acts + [a]) && Run(cid, s, acts + [a]) == Next(cid, Run(cid, s, acts), a)
    decreases |acts|
  {
    if acts == [] {
      assert [] + [a] == [a] && [a][1..] == [];
    } else {
      RunAppend(cid, Next(cid, s, acts[0]), acts[1..], a);
      assert (acts + [a])[0] == acts[0] && (acts + [a])[1..] == acts[1..] + [a];
    }
  }

  lemma DeletesLeave(cid: R.CidOf, s: Fleet, m: string, me: Machine, listing: seq<Listed>)
    requires ShowsAll(cid, s.records, listing) && Reconciled(listing, me).Some?
    ensures var o, t := Reconciled(listing, me).value, Next(cid, s, List(m, me, listing));
      && Legal(cid, t, Deletes(m, 0, |o.delete|))
      && Run(cid, t, Deletes(m, 0, |o.delete|)) == t.(records := s.records - KeysFrom(o.delete, 0))
  {
    var o, t := Reconciled(listing, me).value, Next(cid, s, List(m, me, listing));
    DeleteListIsExact(listing, me);
    forall i | 0 <= i < |o.delete| ensures Current(cid, t, o.delete[i].0, o.delete[i].1) {
      DeletedIsListed(cid, s, listing, me, i);
    }
    DeletesDelete(cid, t, m, 0);
  }

  /** After the round exactly one record carries the machine's fingerprint: the one at the adopted key, with
      the agent's fields merged onto the harvested base. All other records are as they were. */
  lemma OneRoundSettles(
      cid: R.CidOf, s: Fleet, m: string, me: Machine, listing: seq<Listed>, patch: Fields, rkey: string)
    requires AllStamped(s.records) && ShowsAll(cid, s.records, listing) && me.machineFingerprint == Some(m)
    requires Reconciled(listing, me).Some? && Stamped(patch, m)
    ensures var o := Reconciled(listing, me).value;
      && Legal(cid, Next(cid, s, List(m, me, listing)), Deletes(m, 0, |o.delete|) + [PutRecord(m, patch)])
      && var t := AfterRound(cid, s, m, me, listing, patch);
      && (rkey in t.records && Fingerprint(t.records[rkey]) == Some(m) <==> rkey == o.canonicalRkey)
      && Get(t.records, o.canonicalRkey) == Some(Object(Merged(FieldsOf(o.base), patch)))
      && (rkey in s.records && Fingerprint(s.records[rkey]) != Some(m) ==> Get(t.records, rkey) == Get(s.records, rkey))
  {
    var o, t := Reconciled(listing, me).value, Next(cid, s, List(m, me, listing));
    DeletesLeave(cid, s, m, me, listing);
    AdoptedIsCurrent(cid, s, listing, me);
    DeletedKeys(cid, s, listing, me, m, o.canonicalRkey);
    RunAppend(cid, t, Deletes(m, 0, |o.delete|), PutRecord(m, patch));
    StampedAfterMerge(o.base, patch, m);
    if rkey in s.records { DeletedKeys(cid, s, listing, me, m, rkey); }
  }
}
