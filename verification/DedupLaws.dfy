/** What a publish makes of this machine's records, and what becomes of the owner's choices that it
    harvests from duplicates: the duplicates are deleted before the first put, so a choice can be lost
    when that put does not land. */
module DedupLaws {
  import opened Wrappers
  import opened CanonicalJson
  import opened FieldMerge
  import opened Reconcile
  import opened ReconcileLaws
  import opened ReconcileSettles
  import opened RecordStore
  import opened AccountRecords
  import opened DedupPublish
  import opened DedupStates
  import opened Retries

  // ---------------------------------------------------------------- a first put that lands

  /** What the first attempt lists, and the exchanges of that attempt. */
  function FirstListing(cid: CidOf, records: seq<Listed>, meetings: seq<seq<Exchange>>): seq<Listed> {
    Shown(cid, records, ExchangesOf(meetings, 0))
  }

  predicate FirstPutLands(cid: CidOf, listed: seq<Listed>, me: Machine, meetings: seq<seq<Exchange>>)
    requires Reconciled(listed, me).Some?
  {
    var o := Reconciled(listed, me).value;
    Lands(BeforePut(cid, listed, o, ExchangesOf(meetings, 0), true), o, PutOf(o, ExchangesOf(meetings, 0), true).fate)
  }

  /** Whatever other writers do and whichever deletes fail: if the first put lands, the record left at
      the adopted key holds every owner choice of the harvested base, answered or not. */
  lemma HarvestSurvives(
      cid: CidOf, records: seq<Listed>, me: Machine, patch: Fields, freshRkey: string,
      meetings: seq<seq<Exchange>>, key: string)
    requires meetings != [] && AgentRecord(patch) && Owned(key)
    requires Nth(meetings[0], 0).fate.Answered?
    requires var listed := FirstListing(cid, records, meetings);
      Reconciled(listed, me).Some? && FirstPutLands(cid, listed, me, meetings)
    ensures var o := Reconciled(FirstListing(cid, records, meetings), me).value;
            var left := WithRkey(
              PublishRun(cid, me, patch, freshRkey, meetings, records).records, o.canonicalRkey);
      left.Some? && Setting(left.value, key) == Get(FieldsOf(o.base), key)
  {
    var listed := FirstListing(cid, records, meetings);
    var o := Reconciled(listed, me).value;
    var merged := Object(Merged(FieldsOf(o.base), patch));
    assert Attempts(cid, me, patch, freshRkey, meetings)(records, 0) ==
      PublishOnce(cid, me, patch, freshRkey, meetings[0], records, true);
    FindReplaced(BeforePut(cid, listed, o, meetings[0], true), o.canonicalRkey,
      FromValue(o.canonicalRkey, cid(merged), merged), o.canonicalRkey);
    MergeKeepsOthers(FieldsOf(o.base), patch, key);
  }

  /** Nobody else writes the adopted key in the first attempt, after the listing and up to the put. */
  ghost predicate Undisturbed(o: Outcome, exchanges: seq<Exchange>) {
    forall j: nat :: 1 <= j <= |o.delete| + 1 ==> Spared(Nth(exchanges, j), o.canonicalRkey)
  }

  /** Then the first put lands if it reaches the store at all, whichever deletes fail. */
  lemma UndisturbedPutLands(cid: CidOf, listed: seq<Listed>, me: Machine, meetings: seq<seq<Exchange>>)
    requires DistinctRkeys(listed) && Reconciled(listed, me).Some? && meetings != []
    requires Undisturbed(Reconciled(listed, me).value, meetings[0])
    ensures FirstPutLands(cid, listed, me, meetings) <==>
            !PutOf(Reconciled(listed, me).value, meetings[0], true).fate.Lost?
  {
    var o, exchanges := Reconciled(listed, me).value, meetings[0];
    forall p | p in o.delete ensures p.0 != o.canonicalRkey { DeletesSpareTheAdopted(listed, me, p); }
    CleanedSpares(cid, listed, o.delete, exchanges, 1, o.canonicalRkey);
    ChangedSpares(cid, Cleaned(cid, listed, o.delete, exchanges, 1), PutOf(o, exchanges, true).others, o.canonicalRkey);
    CanonicalIsFound(listed, me);
  }

  // ---------------------------------------------------------------- the body that remains

  /** One attempt as the adopted record alone sees it: `own` is its body in the first listing, `o` what
      that listing reconciles to, and `body` what is stored when the attempt starts. */
  function BodyOnce(
      cid: CidOf, patch: Fields, o: Outcome, own: Json, exchanges: seq<Exchange>, body: Json, first: bool)
    : Progress<Json, Json>
  {
    var shown := if first then own else LastAt(body, o.canonicalRkey, Nth(exchanges, 0).others);
    if !Nth(exchanges, 0).fate.Answered? then Over(shown)
    else
      var last := if first then |o.delete| + 1 else 1;
      var now := LastIn(shown, o.canonicalRkey, exchanges, 1, last + 1);
      BodyPut(cid, patch, if first then o.base else shown, shown, now, Nth(exchanges, last).fate)
  }

  function BodyPut(cid: CidOf, patch: Fields, base: Json, shown: Json, now: Json, fate: Fate): Progress<Json, Json> {
    if !fate.Lost? && cid(now) == cid(shown) then Over(Object(Merged(FieldsOf(base), patch)))
    else if fate.Answered? then Again(now)
    else Over(now)
  }

  function Bodies(cid: CidOf, patch: Fields, o: Outcome, own: Json, meetings: seq<seq<Exchange>>)
    : (Json, nat) -> Progress<Json, Json>
  {
    (body: Json, i: nat) => BodyOnce(cid, patch, o, own, ExchangesOf(meetings, i), body, i == 0)
  }

  function TheBody(): Json -> Json {
    (body: Json) => body
  }

  /** The body at the adopted key when the publish ends, however it ends. */
  function FinalBody(cid: CidOf, patch: Fields, o: Outcome, own: Json, meetings: seq<seq<Exchange>>): Json
    requires meetings != []
  {
    Retry(Bodies(cid, patch, o, own, meetings), TheBody(), own, 0, |meetings|)
  }

  lemma {:induction false} LastInMore(body: Json, rkey: string, exchanges: seq<Exchange>, j: nat, n: nat)
    requires j <= n
    ensures LastIn(body, rkey, exchanges, j, n + 1) ==
            LastAt(LastIn(body, rkey, exchanges, j, n), rkey, Nth(exchanges, n).others)
    decreases n - j
  {
    if j < n { LastInMore(LastAt(body, rkey, Nth(exchanges, j).others), rkey, exchanges, j + 1, n); }
  }

  lemma PutKeepsShape(
      cid: CidOf, listed: seq<Listed>, me: Machine, keys: set<string>, now: seq<Listed>, was: Json, body: Json)
    requires Reconciled(listed, me).Some? && Foreign(listed, me, keys) && Shaped(cid, listed, me, keys, [], now, was)
    ensures var rkey := Reconciled(listed, me).value.canonicalRkey;
      Shaped(cid, listed, me, keys, [], Replaced(now, rkey, FromValue(rkey, cid(body), body)), body)
  {
    var rkey := Reconciled(listed, me).value.canonicalRkey;
    var rec := FromValue(rkey, cid(body), body);
    ReplacedKeepsDistinct(now, rkey, rec);
    forall k ensures WithRkey(Replaced(now, rkey, rec), k) == if k == rkey then Some(rec) else WithRkey(now, k) {
      FindReplaced(now, rkey, rec, k);
    }
  }

  lemma FirstIsAllowed(
      cid: CidOf, listed: seq<Listed>, me: Machine, keys: set<string>, meetings: seq<seq<Exchange>>, j: nat)
    requires Assumed(cid, listed, me, keys, meetings) && j > 0
    ensures AllAllowed(cid, listed, me, keys, Nth(meetings[0], j).others)
    ensures j <= |Reconciled(listed, me).value.delete| ==> !Nth(meetings[0], j).fate.Lost?
  {
    assert 0 + j > 0;
  }

  lemma FirstDeletesReach(
      cid: CidOf, listed: seq<Listed>, me: Machine, keys: set<string>, meetings: seq<seq<Exchange>>)
    requires Assumed(cid, listed, me, keys, meetings)
    ensures DeletesReach(cid, listed, me, keys, meetings[0], 0)
  {
    forall j: nat | 0 < j <= |Reconciled(listed, me).value.delete|
      ensures AllAllowed(cid, listed, me, keys, Nth(meetings[0], j).others) && !Nth(meetings[0], j).fate.Lost? {
      FirstIsAllowed(cid, listed, me, keys, meetings, j);
    }
  }

  /** The records once the duplicates are deleted. */
  lemma FirstCleaned(cid: CidOf, listed: seq<Listed>, me: Machine, keys: set<string>, exchanges: seq<Exchange>)
    requires DistinctRkeys(listed) && Reconciled(listed, me).Some? && Foreign(listed, me, keys)
    requires Tidy(
      cid, listed, me, keys, Reconciled(listed, me).value.delete, listed, AdoptedFrom(listed, me).value)
    requires DeletesReach(cid, listed, me, keys, exchanges, 0)
    ensures var o := Reconciled(listed, me).value;
      Tidy(cid, listed, me, keys, [], Cleaned(cid, listed, o.delete, exchanges, 1),
        LastIn(AdoptedFrom(listed, me).value, o.canonicalRkey, exchanges, 1, |o.delete| + 1))
  {
    var pending := Reconciled(listed, me).value.delete;
    assert pending[0..] == pending;
    CleaningKeepsTidy(
      cid, listed, me, keys, pending, exchanges, 0, listed, AdoptedFrom(listed, me).value);
  }

  /** The records just before the first put. */
  lemma FirstBeforePut(cid: CidOf, listed: seq<Listed>, me: Machine, keys: set<string>, meetings: seq<seq<Exchange>>)
    requires Assumed(cid, listed, me, keys, meetings)
    ensures var o := Reconciled(listed, me).value;
      Tidy(cid, listed, me, keys, [], BeforePut(cid, listed, o, meetings[0], true),
        LastIn(AdoptedFrom(listed, me).value, o.canonicalRkey, meetings[0], 1, |o.delete| + 2))
  {
    var o, own := Reconciled(listed, me).value, AdoptedFrom(listed, me).value;
    var n := |o.delete| + 1;
    FirstDeletesReach(cid, listed, me, keys, meetings);
    ListingIsTidy(cid, listed, me, keys);
    FirstCleaned(cid, listed, me, keys, meetings[0]);
    FirstIsAllowed(cid, listed, me, keys, meetings, n);
    LastInMore(own, o.canonicalRkey, meetings[0], 1, n);
    EditsKeepTidy(cid, listed, me, keys, [], Cleaned(cid, listed, o.delete, meetings[0], 1),
      LastIn(own, o.canonicalRkey, meetings[0], 1, n), Nth(meetings[0], n).others);
  }

  /** The first put lands exactly when it reaches the store and the adopted body is as listed. */
  lemma FirstPutLandsIff(cid: CidOf, listed: seq<Listed>, me: Machine, keys: set<string>, meetings: seq<seq<Exchange>>)
    requires Assumed(cid, listed, me, keys, meetings)
    ensures var o, own := Reconciled(listed, me).value, AdoptedFrom(listed, me).value;
      FirstPutLands(cid, listed, me, meetings) <==>
        && !Nth(meetings[0], |o.delete| + 1).fate.Lost?
        && cid(LastIn(own, o.canonicalRkey, meetings[0], 1, |o.delete| + 2)) == cid(own)
  {
    FirstBeforePut(cid, listed, me, keys, meetings);
    CanonicalIsListed(listed, me);
  }

  /** With the agent's fields merged in, a recognized body is definitely this machine's. */
  lemma MergedIsMine(
      cid: CidOf, listed: seq<Listed>, me: Machine, base: Json, patch: Fields)
    requires Reconciled(listed, me).Some? && Publishes(patch, me) && KeepsIdentity(cid, listed, me, base)
    ensures KeepsIdentity(cid, listed, me, Object(Merged(FieldsOf(base), patch)))
  {
    MergedIdentity(base, patch, me);
  }

  ghost predicate Ended(
      cid: CidOf, listed: seq<Listed>, me: Machine, patch: Fields, keys: set<string>, records: seq<Listed>, body: Json)
    requires Reconciled(listed, me).Some?
  {
    && Shaped(cid, listed, me, keys, [], records, body)
    && (Publishes(patch, me) ==> KeepsIdentity(cid, listed, me, body))
  }

  /** An attempt ends or goes on as the adopted record sees it. */
  ghost predicate Follows(
      cid: CidOf, listed: seq<Listed>, me: Machine, patch: Fields, keys: set<string>,
      p: Progress<seq<Listed>, PublishResult>, q: Progress<Json, Json>)
    requires Reconciled(listed, me).Some?
  {
    match (p, q)
    case (Over(result), Over(body)) => Ended(cid, listed, me, patch, keys, result.records, body)
    case (Again(records), Again(body)) => Tidy(cid, listed, me, keys, [], records, body)
    case _ => false
  }

  lemma LandingAgrees(
      cid: CidOf, listed: seq<Listed>, me: Machine, keys: set<string>, plan: Outcome, shown: Json,
      records: seq<Listed>, body: Json, fate: Fate)
    requires Reconciled(listed, me).Some? && Shaped(cid, listed, me, keys, [], records, body)
    requires plan.canonicalRkey == Reconciled(listed, me).value.canonicalRkey && plan.canonicalCid == cid(shown)
    ensures Lands(records, plan, fate) <==> !fate.Lost? && cid(body) == cid(shown)
  {}

  lemma MergedEnds(
      cid: CidOf, listed: seq<Listed>, me: Machine, patch: Fields, keys: set<string>, plan: Outcome,
      records: seq<Listed>, body: Json)
    requires Reconciled(listed, me).Some? && Foreign(listed, me, keys)
    requires Shaped(cid, listed, me, keys, [], records, body) && KeepsIdentity(cid, listed, me, plan.base)
    requires plan.canonicalRkey == Reconciled(listed, me).value.canonicalRkey
    ensures var merged := Object(Merged(FieldsOf(plan.base), patch));
      Ended(cid, listed, me, patch, keys,
        Replaced(records, plan.canonicalRkey, FromValue(plan.canonicalRkey, cid(merged), merged)), merged)
  {
    PutKeepsShape(cid, listed, me, keys, records, body, Object(Merged(FieldsOf(plan.base), patch)));
    if Publishes(patch, me) { MergedIsMine(cid, listed, me, plan.base, patch); }
  }

  lemma PutFollows(
      cid: CidOf, listed: seq<Listed>, me: Machine, patch: Fields, keys: set<string>, plan: Outcome,
      shown: Json, records: seq<Listed>, body: Json, fate: Fate)
    requires Reconciled(listed, me).Some? && Foreign(listed, me, keys)
    requires Tidy(cid, listed, me, keys, [], records, body) && KeepsIdentity(cid, listed, me, plan.base)
    requires plan.canonicalRkey == Reconciled(listed, me).value.canonicalRkey && plan.canonicalCid == cid(shown)
    ensures Follows(cid, listed, me, patch, keys,
      PutMerged(cid, patch, plan, records, fate), BodyPut(cid, patch, plan.base, shown, body, fate))
  {
    LandingAgrees(cid, listed, me, keys, plan, shown, records, body, fate);
    if Lands(records, plan, fate) { MergedEnds(cid, listed, me, patch, keys, plan, records, body); }
  }

  lemma FirstFollows(
      cid: CidOf, records: seq<Listed>, me: Machine, patch: Fields, freshRkey: string, keys: set<string>,
      meetings: seq<seq<Exchange>>, body: Json)
    requires meetings != [] && Assumed(cid, Shown(cid, records, meetings[0]), me, keys, meetings)
    ensures var listed := Shown(cid, records, meetings[0]);
      Follows(cid, listed, me, patch, keys, PublishOnce(cid, me, patch, freshRkey, meetings[0], records, true),
        BodyOnce(cid, patch, Reconciled(listed, me).value, AdoptedFrom(listed, me).value, meetings[0], body, true))
  {
    var listed := Shown(cid, records, meetings[0]);
    var o, own := Reconciled(listed, me).value, AdoptedFrom(listed, me).value;
    FirstBeforePut(cid, listed, me, keys, meetings);
    ListingIsTidy(cid, listed, me, keys);
    CanonicalIsListed(listed, me);
    BaseIsRecognized(listed, me, me, cid(o.base));
    PutFollows(cid, listed, me, patch, keys, o, own, BeforePut(cid, listed, o, meetings[0], true),
      LastIn(own, o.canonicalRkey, meetings[0], 1, |o.delete| + 2), PutOf(o, meetings[0], true).fate);
  }

  lemma RetryFollows(
      cid: CidOf, listed: seq<Listed>, me: Machine, patch: Fields, freshRkey: string, keys: set<string>,
      exchanges: seq<Exchange>, records: seq<Listed>, body: Json)
    requires WellStored(cid, listed) && Reconciled(listed, me).Some? && Foreign(listed, me, keys)
    requires AllAllowed(cid, listed, me, keys, Nth(exchanges, 0).others)
    requires AllAllowed(cid, listed, me, keys, Nth(exchanges, 1).others)
    requires Tidy(cid, listed, me, keys, [], records, body)
    ensures Follows(cid, listed, me, patch, keys, PublishOnce(cid, me, patch, freshRkey, exchanges, records, false),
      BodyOnce(cid, patch, Reconciled(listed, me).value, AdoptedFrom(listed, me).value, exchanges, body, false))
  {
    var o := Reconciled(listed, me).value;
    var shown := LastAt(body, o.canonicalRkey, Nth(exchanges, 0).others);
    var now := LastAt(shown, o.canonicalRkey, Nth(exchanges, 1).others);
    var relisted := Shown(cid, records, exchanges);
    EditsKeepTidy(cid, listed, me, keys, [], records, body, Nth(exchanges, 0).others);
    TidyIsSettled(cid, listed, me, keys, relisted, shown);
    EditsKeepTidy(cid, listed, me, keys, [], relisted, shown, Nth(exchanges, 1).others);
    assert LastIn(shown, o.canonicalRkey, exchanges, 1, 2) == now;
    PutFollows(cid, listed, me, patch, keys, Reconciled(relisted, me).value, shown,
      Changed(cid, relisted, Nth(exchanges, 1).others), now, Nth(exchanges, 1).fate);
  }

  // ---------------------------------------------------------------- the whole publish

  ghost function Related(
      cid: CidOf, start: seq<Listed>, listed: seq<Listed>, me: Machine, keys: set<string>)
    : (seq<Listed>, Json, nat) -> bool
    requires Reconciled(listed, me).Some?
  {
    (records: seq<Listed>, body: Json, i: nat) =>
      && Reconciled(listed, me).Some?
      && if i == 0 then records == start else Tidy(cid, listed, me, keys, [], records, body)
  }

  ghost function EndsAs(cid: CidOf, listed: seq<Listed>, me: Machine, patch: Fields, keys: set<string>)
    : (PublishResult, Json) -> bool
    requires Reconciled(listed, me).Some?
  {
    (result: PublishResult, body: Json) =>
      Reconciled(listed, me).Some? && Ended(cid, listed, me, patch, keys, result.records, body)
  }

  lemma AttemptsAgree(
      cid: CidOf, start: seq<Listed>, me: Machine, patch: Fields, freshRkey: string, keys: set<string>,
      meetings: seq<seq<Exchange>>, records: seq<Listed>, body: Json, i: nat)
    requires i < |meetings| && Assumed(cid, FirstListing(cid, start, meetings), me, keys, meetings)
    requires var listed := FirstListing(cid, start, meetings);
      Related(cid, start, listed, me, keys)(records, body, i)
    ensures var listed := FirstListing(cid, start, meetings);
      var o, own := Reconciled(listed, me).value, AdoptedFrom(listed, me).value;
      AgreeAt(
        Attempts(cid, me, patch, freshRkey, meetings)(records, i), Bodies(cid, patch, o, own, meetings)(body, i),
        Related(cid, start, listed, me, keys), EndsAs(cid, listed, me, patch, keys), i)
  {
    var listed := FirstListing(cid, start, meetings);
    if i == 0 {
      FirstFollows(cid, records, me, patch, freshRkey, keys, meetings, body);
    } else {
      assert i + 0 > 0 && i + 1 > 0;
      RetryFollows(cid, listed, me, patch, freshRkey, keys, meetings[i], records, body);
    }
  }

  lemma GivingUpAgrees(
      cid: CidOf, start: seq<Listed>, listed: seq<Listed>, me: Machine, patch: Fields, keys: set<string>,
      records: seq<Listed>, body: Json, n: nat)
    requires n > 0 && Reconciled(listed, me).Some? && Related(cid, start, listed, me, keys)(records, body, n)
    ensures EndsAs(cid, listed, me, patch, keys)(GiveUp()(records), TheBody()(body))
  {
    assert TheBody()(body) == body && GiveUp()(records).records == records;
    assert Tidy(cid, listed, me, keys, [], records, body);
  }

  lemma AllAttemptsAgree(
      cid: CidOf, start: seq<Listed>, me: Machine, patch: Fields, freshRkey: string, keys: set<string>,
      meetings: seq<seq<Exchange>>, listed: seq<Listed>, o: Outcome, own: Json)
    requires meetings != [] && Assumed(cid, listed, me, keys, meetings)
    requires listed == FirstListing(cid, start, meetings)
    requires o == Reconciled(listed, me).value && own == AdoptedFrom(listed, me).value
    ensures Agree(
      Attempts(cid, me, patch, freshRkey, meetings), GiveUp(), Bodies(cid, patch, o, own, meetings), TheBody(),
      Related(cid, start, listed, me, keys), EndsAs(cid, listed, me, patch, keys), |meetings|)
  {
    var attempts, bodies := Attempts(cid, me, patch, freshRkey, meetings), Bodies(cid, patch, o, own, meetings);
    var related, ends := Related(cid, start, listed, me, keys), EndsAs(cid, listed, me, patch, keys);
    forall records, body, i: nat | i < |meetings| && related(records, body, i)
      ensures AgreeAt(attempts(records, i), bodies(body, i), related, ends, i) {
      AttemptsAgree(cid, start, me, patch, freshRkey, keys, meetings, records, body, i);
    }
    forall records, body | related(records, body, |meetings|) ensures ends(GiveUp()(records), TheBody()(body)) {
      GivingUpAgrees(cid, start, listed, me, patch, keys, records, body, |meetings|);
    }
  }

  lemma RunsAgree(
      cid: CidOf, records: seq<Listed>, me: Machine, patch: Fields, freshRkey: string, keys: set<string>,
      meetings: seq<seq<Exchange>>)
    requires meetings != [] && Assumed(cid, FirstListing(cid, records, meetings), me, keys, meetings)
    ensures var listed := FirstListing(cid, records, meetings);
      EndsAs(cid, listed, me, patch, keys)(PublishRun(cid, me, patch, freshRkey, meetings, records),
        FinalBody(cid, patch, Reconciled(listed, me).value, AdoptedFrom(listed, me).value, meetings))
  {
    var listed := FirstListing(cid, records, meetings);
    var o, own := Reconciled(listed, me).value, AdoptedFrom(listed, me).value;
    AllAttemptsAgree(cid, records, me, patch, freshRkey, keys, meetings, listed, o, own);
    Simulates(
      Attempts(cid, me, patch, freshRkey, meetings), GiveUp(), Bodies(cid, patch, o, own, meetings), TheBody(),
      Related(cid, records, listed, me, keys), EndsAs(cid, listed, me, patch, keys), records, own, 0, |meetings|);
  }

  /** However the publish ends, the adopted key holds the body that the attempts, seen from that record
      alone, leave there; the duplicates are gone; and every other record is as listed, except where
      others write foreign records. Reconciling again finds nothing to do. */
  lemma PublishHolds(
      cid: CidOf, records: seq<Listed>, me: Machine, patch: Fields, freshRkey: string, keys: set<string>,
      meetings: seq<seq<Exchange>>)
    requires meetings != [] && Assumed(cid, FirstListing(cid, records, meetings), me, keys, meetings)
    ensures var listed := FirstListing(cid, records, meetings);
      var o := Reconciled(listed, me).value;
      var end := PublishRun(cid, me, patch, freshRkey, meetings, records).records;
      var final := FinalBody(cid, patch, o, AdoptedFrom(listed, me).value, meetings);
      && Shaped(cid, listed, me, keys, [], end, final)
      && (Publishes(patch, me) ==>
            Reconciled(end, me) == Some(Outcome(o.canonicalRkey, cid(final), final, [], Ambiguous(end, me))))
  {
    var listed := FirstListing(cid, records, meetings);
    var o, own := Reconciled(listed, me).value, AdoptedFrom(listed, me).value;
    RunsAgree(cid, records, me, patch, freshRkey, keys, meetings);
    var end := PublishRun(cid, me, patch, freshRkey, meetings, records).records;
    if Publishes(patch, me) { TidyIsSettled(cid, listed, me, keys, end, FinalBody(cid, patch, o, own, meetings)); }
  }

  // ---------------------------------------------------------------- harvested choices

  /** From the first listing on, no other writer changes this key of the adopted record. */
  ghost predicate OthersLeave(o: Outcome, key: string, v: Option<Json>, meetings: seq<seq<Exchange>>) {
    forall i: nat, j: nat :: i < |meetings| && i + j > 0 ==> Leave(o, key, v, Nth(meetings[i], j).others)
  }

  ghost predicate Leave(o: Outcome, key: string, v: Option<Json>, edits: seq<Edit>) {
    forall e :: e in edits && e.Upsert? && e.rkey == o.canonicalRkey ==> Get(FieldsOf(e.body), key) == v
  }

  lemma {:induction false} LastAtLeaves(o: Outcome, key: string, body: Json, edits: seq<Edit>)
    requires Leave(o, key, Get(FieldsOf(body), key), edits)
    ensures Get(FieldsOf(LastAt(body, o.canonicalRkey, edits)), key) == Get(FieldsOf(body), key)
    decreases |edits|
  {
    if edits != [] {
      var e := edits[0];
      assert e in edits;
      LastAtLeaves(o, key, if e.Upsert? && e.rkey == o.canonicalRkey then e.body else body, edits[1..]);
    }
  }

  lemma {:induction false} LastInLeaves(o: Outcome, key: string, body: Json, exchanges: seq<Exchange>, j: nat, n: nat)
    requires forall i: nat :: j <= i < n ==> Leave(o, key, Get(FieldsOf(body), key), Nth(exchanges, i).others)
    ensures Get(FieldsOf(LastIn(body, o.canonicalRkey, exchanges, j, n)), key) == Get(FieldsOf(body), key)
    decreases n - j
  {
    if j < n {
      LastAtLeaves(o, key, body, Nth(exchanges, j).others);
      LastInLeaves(o, key, LastAt(body, o.canonicalRkey, Nth(exchanges, j).others), exchanges, j + 1, n);
    }
  }

  lemma {:induction false} RetriesKeepTheSetting(
      cid: CidOf, patch: Fields, o: Outcome, own: Json, meetings: seq<seq<Exchange>>, body: Json, i: nat, key: string)
    requires AgentRecord(patch) && Owned(key) && 0 < i < |meetings|
    requires OthersLeave(o, key, Get(FieldsOf(body), key), meetings)
    ensures Get(FieldsOf(Retry(Bodies(cid, patch, o, own, meetings), TheBody(), body, i, |meetings|)), key) ==
            Get(FieldsOf(body), key)
    decreases |meetings| - i
  {
    var exchanges := meetings[i];
    var shown := LastAt(body, o.canonicalRkey, Nth(exchanges, 0).others);
    var now := LastIn(shown, o.canonicalRkey, exchanges, 1, 2);
    assert i + 0 > 0 && i + 1 > 0;
    LastAtLeaves(o, key, body, Nth(exchanges, 0).others);
    LastInLeaves(o, key, shown, exchanges, 1, 2);
    MergeKeepsOthers(FieldsOf(shown), patch, key);
    assert Bodies(cid, patch, o, own, meetings)(body, i) == BodyOnce(cid, patch, o, own, exchanges, body, false);
    if Nth(exchanges, 0).fate.Answered? && BodyPut(cid, patch, shown, shown, now, Nth(exchanges, 1).fate).Again? {
      if i + 1 < |meetings| { RetriesKeepTheSetting(cid, patch, o, own, meetings, now, i + 1, key); }
    }
  }

  /** What the adopted record holds under an owner key in the end. */
  lemma FinalSetting(
      cid: CidOf, listed: seq<Listed>, me: Machine, patch: Fields, keys: set<string>, meetings: seq<seq<Exchange>>,
      key: string)
    requires Assumed(cid, listed, me, keys, meetings) && AgentRecord(patch) && Owned(key)
    requires OthersLeave(Reconciled(listed, me).value, key, Setting(AdoptedFrom(listed, me), key), meetings)
    ensures var o, own := Reconciled(listed, me).value, AdoptedFrom(listed, me).value;
      Get(FieldsOf(FinalBody(cid, patch, o, own, meetings)), key) ==
      Get(FieldsOf(if FirstPutLands(cid, listed, me, meetings) then o.base else own), key)
  {
    var o, own := Reconciled(listed, me).value, AdoptedFrom(listed, me).value;
    var last := |o.delete| + 1;
    var now := LastIn(own, o.canonicalRkey, meetings[0], 1, last + 1);
    FirstPutLandsIff(cid, listed, me, keys, meetings);
    MergeKeepsOthers(FieldsOf(o.base), patch, key);
    forall j: nat | 1 <= j < last + 1 ensures Leave(o, key, Get(FieldsOf(own), key), Nth(meetings[0], j).others) {
      assert 0 + j > 0;
    }
    LastInLeaves(o, key, own, meetings[0], 1, last + 1);
    assert Bodies(cid, patch, o, own, meetings)(own, 0) == BodyOnce(cid, patch, o, own, meetings[0], own, true);
    if BodyPut(cid, patch, o.base, own, now, Nth(meetings[0], last).fate).Again? && 1 < |meetings| {
      RetriesKeepTheSetting(cid, patch, o, own, meetings, now, 1, key);
    }
  }

  /** The duplicates are deleted before the first put, and a retry reads a listing that no longer
      holds them. So whether the publish succeeds, gives up or fails, the record that remains holds
      an owner choice of the harvested base exactly when the first put lands or the adopted record
      held that choice itself. */
  lemma HarvestSurvivesIff(
      cid: CidOf, records: seq<Listed>, me: Machine, patch: Fields, freshRkey: string, keys: set<string>,
      meetings: seq<seq<Exchange>>, key: string)
    requires meetings != [] && Assumed(cid, FirstListing(cid, records, meetings), me, keys, meetings)
    requires AgentRecord(patch) && Owned(key)
    requires var listed := FirstListing(cid, records, meetings);
      OthersLeave(Reconciled(listed, me).value, key, Setting(AdoptedFrom(listed, me), key), meetings)
    ensures var listed := FirstListing(cid, records, meetings);
            var o, stored := Reconciled(listed, me).value, AdoptedFrom(listed, me);
            var left := WithRkey(
              PublishRun(cid, me, patch, freshRkey, meetings, records).records, o.canonicalRkey);
      left.Some? &&
      ((Setting(left.value, key) == Get(FieldsOf(o.base), key)) <==>
        (FirstPutLands(cid, listed, me, meetings) || Setting(stored, key) == Get(FieldsOf(o.base), key)))
  {
    PublishHolds(cid, records, me, patch, freshRkey, keys, meetings);
    FinalSetting(cid, FirstListing(cid, records, meetings), me, patch, keys, meetings, key);
  }
}
