/** The provider records of one account as several parties write them: this machine's requests and,
    in between, whatever other writers do. What a write leaves under each key. */
module AccountRecords {
  import opened Wrappers
  import opened CanonicalJson
  import opened Reconcile
  import opened ReconcileLaws
  import opened RecordStore

  // ---------------------------------------------------------------- single writes

  function Without(records: seq<Listed>, gone: Listed -> bool): seq<Listed> {
    if records == [] then []
    else (if gone(records[0]) then [] else [records[0]]) + Without(records[1..], gone)
  }

  function At(rkey: string): Listed -> bool {
    (rec: Listed) => rec.rkey == rkey
  }

  function AtVersion(rkey: string, version: string): Listed -> bool {
    (rec: Listed) => rec.rkey == rkey && rec.cid == version
  }

  function Replaced(records: seq<Listed>, rkey: string, rec: Listed): seq<Listed> {
    if records == [] then []
    else [if records[0].rkey == rkey then rec else records[0]] + Replaced(records[1..], rkey, rec)
  }

  function Upserted(records: seq<Listed>, rec: Listed): seq<Listed> {
    if WithRkey(records, rec.rkey).Some? then Replaced(records, rec.rkey, rec) else records + [rec]
  }

  predicate Stores(records: seq<Listed>, rkey: string, version: string) {
    WithRkey(records, rkey).Some? && WithRkey(records, rkey).value.cid == version
  }

  // ---------------------------------------------------------------- other writers

  /** Another writer puts a body at a key, new or not, or deletes the key. */
  datatype Edit = Upsert(rkey: string, body: Json) | Remove(rkey: string)

  function Applied(cid: CidOf, records: seq<Listed>, e: Edit): seq<Listed> {
    match e
    case Upsert(rkey, body) => Upserted(records, FromValue(rkey, cid(body), body))
    case Remove(rkey) => Without(records, At(rkey))
  }

  function Changed(cid: CidOf, records: seq<Listed>, edits: seq<Edit>): seq<Listed>
    decreases |edits|
  {
    if edits == [] then records else Changed(cid, Applied(cid, records, edits[0]), edits[1..])
  }

  /** One request of this machine: what others write before it arrives, and what becomes of it. */
  datatype Exchange = Exchange(others: seq<Edit>, fate: Fate)

  /** The requests beyond the given ones are undisturbed. */
  function Nth(exchanges: seq<Exchange>, j: nat): Exchange {
    if j < |exchanges| then exchanges[j] else Exchange([], Answered)
  }

  /** A delete of one version; a failure is logged and skipped. */
  function Deleting(cid: CidOf, records: seq<Listed>, pair: (string, string), x: Exchange): seq<Listed> {
    var now := Changed(cid, records, x.others);
    if x.fate.Lost? then now else Without(now, AtVersion(pair.0, pair.1))
  }

  /** Deletes one after the other, the first being request j. */
  function Cleaned(
      cid: CidOf, records: seq<Listed>, pairs: seq<(string, string)>, exchanges: seq<Exchange>, j: nat): seq<Listed>
    decreases |pairs|
  {
    if pairs == [] then records
    else Cleaned(cid, Deleting(cid, records, pairs[0], Nth(exchanges, j)), pairs[1..], exchanges, j + 1)
  }

  // ---------------------------------------------------------------- what is found under a key

  lemma {:induction false} FindWithout(records: seq<Listed>, gone: Listed -> bool, rkey: string)
    requires forall rec :: rec in records && rec.rkey == rkey ==> !gone(rec)
    ensures WithRkey(Without(records, gone), rkey) == WithRkey(records, rkey)
  {
    if records != [] {
      assert records[0] in records;
      FindWithout(records[1..], gone, rkey);
      if gone(records[0]) {
        assert Without(records, gone) == Without(records[1..], gone);
      } else {
        assert Without(records, gone)[1..] == Without(records[1..], gone);
      }
    }
  }

  lemma {:induction false} FindReplaced(records: seq<Listed>, rkey: string, rec: Listed, k: string)
    requires rec.rkey == rkey
    ensures WithRkey(Replaced(records, rkey, rec), k) ==
      if k == rkey && WithRkey(records, rkey).Some? then Some(rec) else WithRkey(records, k)
  {
    if records != [] { FindReplaced(records[1..], rkey, rec, k); }
  }

  lemma {:induction false} FindAppended(records: seq<Listed>, rec: Listed, k: string)
    ensures WithRkey(records + [rec], k) ==
      if WithRkey(records, k).Some? then WithRkey(records, k) else if k == rec.rkey then Some(rec) else None
  {
    if records == [] {
      assert [rec][1..] == [];
    } else {
      assert (records + [rec])[1..] == records[1..] + [rec];
      FindAppended(records[1..], rec, k);
    }
  }

  lemma FindUpserted(records: seq<Listed>, rec: Listed, k: string)
    ensures WithRkey(Upserted(records, rec), k) == if k == rec.rkey then Some(rec) else WithRkey(records, k)
  {
    FindReplaced(records, rec.rkey, rec, k);
    FindAppended(records, rec, k);
  }

  /** With distinct keys a record is listed exactly when it is found. */
  lemma FoundIsListed(records: seq<Listed>, rec: Listed)
    requires DistinctRkeys(records)
    ensures rec in records <==> WithRkey(records, rec.rkey) == Some(rec)
  {
    WithRkeyFinds(records, rec.rkey);
    if rec in records { SameRkeySameRecord(records, rec, WithRkey(records, rec.rkey).value); }
  }

  lemma FindRemaining(records: seq<Listed>, gone: Listed -> bool, rkey: string)
    requires DistinctRkeys(records)
    ensures WithRkey(Without(records, gone), rkey) ==
      var found := WithRkey(records, rkey); if found.Some? && gone(found.value) then None else found
  {
    var found := WithRkey(records, rkey);
    forall rec | rec in records && rec.rkey == rkey ensures found == Some(rec) { FoundIsListed(records, rec); }
    if found.Some? && gone(found.value) {
      WithoutMembers(records, gone);
      WithRkeyFinds(Without(records, gone), rkey);
    } else {
      FindWithout(records, gone, rkey);
    }
  }

  // ---------------------------------------------------------------- keys stay distinct

  lemma {:induction false} WithoutMembers(records: seq<Listed>, gone: Listed -> bool)
    ensures forall rec :: rec in Without(records, gone) ==> rec in records && !gone(rec)
  {
    if records != [] { WithoutMembers(records[1..], gone); }
  }

  lemma DistinctCons(head: Listed, tail: seq<Listed>)
    requires DistinctRkeys(tail) && forall rec :: rec in tail ==> rec.rkey != head.rkey
    ensures DistinctRkeys([head] + tail)
  {}

  lemma {:induction false} WithoutKeepsDistinct(records: seq<Listed>, gone: Listed -> bool)
    requires DistinctRkeys(records)
    ensures DistinctRkeys(Without(records, gone))
  {
    if records != [] {
      var rest := Without(records[1..], gone);
      WithoutKeepsDistinct(records[1..], gone);
      WithoutMembers(records[1..], gone);
      forall rec | rec in rest ensures rec.rkey != records[0].rkey { assert rec in records[1..]; }
      DistinctCons(records[0], rest);
    }
  }

  lemma {:induction false} ReplacedKeepsDistinct(records: seq<Listed>, rkey: string, rec: Listed)
    requires DistinctRkeys(records) && rec.rkey == rkey
    ensures DistinctRkeys(Replaced(records, rkey, rec)) && |Replaced(records, rkey, rec)| == |records|
    ensures forall i :: 0 <= i < |records| ==> Replaced(records, rkey, rec)[i].rkey == records[i].rkey
  {
    if records != [] { ReplacedKeepsDistinct(records[1..], rkey, rec); }
  }

  lemma AppliedKeepsDistinct(cid: CidOf, records: seq<Listed>, e: Edit)
    requires DistinctRkeys(records)
    ensures DistinctRkeys(Applied(cid, records, e))
  {
    match e
    case Upsert(rkey, body) =>
      ReplacedKeepsDistinct(records, rkey, FromValue(rkey, cid(body), body));
      WithRkeyFinds(records, rkey);
    case Remove(rkey) => WithoutKeepsDistinct(records, At(rkey));
  }

  lemma FindApplied(cid: CidOf, records: seq<Listed>, e: Edit, k: string)
    requires e.rkey != k || e.Upsert?
    ensures WithRkey(Applied(cid, records, e), k) ==
      if e.rkey == k then Some(FromValue(k, cid(e.body), e.body)) else WithRkey(records, k)
  {
    match e
    case Upsert(rkey, body) => FindUpserted(records, FromValue(rkey, cid(body), body), k);
    case Remove(rkey) => FindWithout(records, At(rkey), k);
  }

  // ---------------------------------------------------------------- a key that nobody writes

  predicate Spared(x: Exchange, rkey: string) {
    forall e :: e in x.others ==> e.rkey != rkey
  }

  lemma {:induction false} ChangedSpares(cid: CidOf, records: seq<Listed>, edits: seq<Edit>, rkey: string)
    requires forall e :: e in edits ==> e.rkey != rkey
    ensures WithRkey(Changed(cid, records, edits), rkey) == WithRkey(records, rkey)
    decreases |edits|
  {
    if edits != [] {
      FindApplied(cid, records, edits[0], rkey);
      ChangedSpares(cid, Applied(cid, records, edits[0]), edits[1..], rkey);
    }
  }

  /** Deletes of other keys leave it alone, whatever becomes of them. */
  lemma {:induction false} CleanedSpares(
      cid: CidOf, records: seq<Listed>, pairs: seq<(string, string)>, exchanges: seq<Exchange>, j: nat, rkey: string)
    requires forall p :: p in pairs ==> p.0 != rkey
    requires forall i: nat :: j <= i < j + |pairs| ==> Spared(Nth(exchanges, i), rkey)
    ensures WithRkey(Cleaned(cid, records, pairs, exchanges, j), rkey) == WithRkey(records, rkey)
    decreases |pairs|
  {
    if pairs != [] {
      var x := Nth(exchanges, j);
      var now := Changed(cid, records, x.others);
      ChangedSpares(cid, records, x.others, rkey);
      assert pairs[0] in pairs;
      FindWithout(now, AtVersion(pairs[0].0, pairs[0].1), rkey);
      CleanedSpares(cid, Deleting(cid, records, pairs[0], x), pairs[1..], exchanges, j + 1, rkey);
    }
  }
}
