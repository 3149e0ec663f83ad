/** What a publish reports is what happened: published and created mean that the agent's record is
    stored, and a conflict that every attempt was refused by the version stored. */
module DedupEndings {
  import opened Wrappers
  import opened CanonicalJson
  import opened FieldMerge
  import opened Reconcile
  import opened RecordStore
  import opened AccountRecords
  import opened DedupPublish
  import opened Retries

  /** How the put of an attempt ends. */
  lemma PutEnds(cid: CidOf, patch: Fields, plan: Outcome, now: seq<Listed>, fate: Fate)
    ensures var p := PutMerged(cid, patch, plan, now, fate);
      var current := WithRkey(now, plan.canonicalRkey).Some?
        && WithRkey(now, plan.canonicalRkey).value.cid == plan.canonicalCid;
      if fate != Answered then p.Over? && p.result.ending == Failed
      else if current then p.Over? && p.result.ending == Published
      else p.Again?
  {}

  /** An attempt ends at once when the listing fails, and after the create when nothing is ours. */
  lemma WithoutAPlan(
      cid: CidOf, me: Machine, patch: Fields, freshRkey: string, exchanges: seq<Exchange>, records: seq<Listed>,
      first: bool)
    requires Nth(exchanges, 0).fate != Answered || Reconciled(Shown(cid, records, exchanges), me).None?
    ensures var p := PublishOnce(cid, me, patch, freshRkey, exchanges, records, first);
      var created := Nth(exchanges, 0).fate == Answered && Nth(exchanges, 1).fate == Answered;
      p.Over? && p.result.ending == if created then Created else Failed
  {}

  /** With a plan it ends by what became of the put, which follows the listing and the deletes. */
  lemma WithAPlan(
      cid: CidOf, me: Machine, patch: Fields, freshRkey: string, exchanges: seq<Exchange>, records: seq<Listed>,
      first: bool)
    requires Nth(exchanges, 0).fate == Answered && Reconciled(Shown(cid, records, exchanges), me).Some?
    ensures var p := PublishOnce(cid, me, patch, freshRkey, exchanges, records, first);
      var plan := Reconciled(Shown(cid, records, exchanges), me).value;
      var put := Nth(exchanges, if first then |plan.delete| + 1 else 1);
      var now := BeforePut(cid, Shown(cid, records, exchanges), plan, exchanges, first);
      var current := WithRkey(now, plan.canonicalRkey).Some?
        && WithRkey(now, plan.canonicalRkey).value.cid == plan.canonicalCid;
      if put.fate != Answered then p.Over? && p.result.ending == Failed
      else if current then p.Over? && p.result.ending == Published
      else p.Again?
  {
    var plan := Reconciled(Shown(cid, records, exchanges), me).value;
    var now := BeforePut(cid, Shown(cid, records, exchanges), plan, exchanges, first);
    PutEnds(cid, patch, plan, now, PutOf(plan, exchanges, first).fate);
  }

  /** Some record is the agent's fields merged onto some base. */
  ghost predicate HoldsMerged(cid: CidOf, patch: Fields, records: seq<Listed>, rkey: string, base: Json) {
    var body := Object(Merged(FieldsOf(base), patch));
    WithRkey(records, rkey) == Some(FromValue(rkey, cid(body), body))
  }

  ghost predicate Truthful(cid: CidOf, patch: Fields, freshRkey: string, r: PublishResult) {
    && (r.ending == Published ==> exists rkey, base :: HoldsMerged(cid, patch, r.records, rkey, base))
    && (r.ending == Created ==>
          FromValue(freshRkey, cid(Object(patch)), Object(patch)) in r.records)
  }

  lemma AttemptIsTruthful(
      cid: CidOf, me: Machine, patch: Fields, freshRkey: string, exchanges: seq<Exchange>, records: seq<Listed>,
      first: bool)
    ensures var p := PublishOnce(cid, me, patch, freshRkey, exchanges, records, first);
      p.Over? ==> Truthful(cid, patch, freshRkey, p.result) && p.result.ending != Conflict
  {
    var listed := Shown(cid, records, exchanges);
    if Nth(exchanges, 0).fate.Answered? && Reconciled(listed, me).Some? {
      var plan := Reconciled(listed, me).value;
      var now := BeforePut(cid, listed, plan, exchanges, first);
      var body := Object(Merged(FieldsOf(plan.base), patch));
      var written := FromValue(plan.canonicalRkey, cid(body), body);
      FindReplaced(now, plan.canonicalRkey, written, plan.canonicalRkey);
      if Lands(now, plan, PutOf(plan, exchanges, first).fate) {
        assert HoldsMerged(cid, patch, Replaced(now, plan.canonicalRkey, written), plan.canonicalRkey, plan.base);
      }
    }
  }

  /** Attempts i, i+1, ... all end with another try. */
  ghost predicate AllAgain(
      step: (seq<Listed>, nat) -> Progress<seq<Listed>, PublishResult>, records: seq<Listed>, i: nat, n: nat)
    requires i < n
    decreases n - i
  {
    step(records, i).Again? && (i + 1 < n ==> AllAgain(step, step(records, i).state, i + 1, n))
  }

  lemma {:induction false} RunEnds(
      cid: CidOf, me: Machine, patch: Fields, freshRkey: string, meetings: seq<seq<Exchange>>,
      records: seq<Listed>, i: nat)
    requires i < |meetings|
    ensures var step := Attempts(cid, me, patch, freshRkey, meetings);
      var r := Retry(step, GiveUp(), records, i, |meetings|);
      Truthful(cid, patch, freshRkey, r) && (r.ending == Conflict <==> AllAgain(step, records, i, |meetings|))
    decreases |meetings| - i
  {
    var step := Attempts(cid, me, patch, freshRkey, meetings);
    AttemptIsTruthful(cid, me, patch, freshRkey, meetings[i], records, i == 0);
    assert step(records, i) == PublishOnce(cid, me, patch, freshRkey, meetings[i], records, i == 0);
    if step(records, i).Again? && i + 1 < |meetings| {
      RunEnds(cid, me, patch, freshRkey, meetings, step(records, i).state, i + 1);
    }
  }

  /** The report of a publish is true: a record merged from the agent's is stored if it says published,
      the agent's record itself if it says created; and it says conflict exactly when every attempt was
      answered that another version is stored. */
  lemma TheReportIsTrue(
      cid: CidOf, me: Machine, patch: Fields, freshRkey: string, meetings: seq<seq<Exchange>>, records: seq<Listed>)
    requires meetings != []
    ensures var r := PublishRun(cid, me, patch, freshRkey, meetings, records);
      && Truthful(cid, patch, freshRkey, r)
      && (r.ending == Conflict <==>
            AllAgain(Attempts(cid, me, patch, freshRkey, meetings), records, 0, |meetings|))
  {
    RunEnds(cid, me, patch, freshRkey, meetings, records, 0);
  }
}
