/** Publishing a machine's record: reconcile the listing, delete the duplicates on the first attempt,
    merge the agent's fields onto the harvested base, put under compare-and-swap, and start over when
    another version is stored. Before every single request others may write, and it may fail. */
module DedupPublish {
  import opened CanonicalJson
  import opened FieldMerge
  import opened Reconcile
  import opened RecordStore
  import opened AccountRecords
  import opened Retries

  datatype Ending = Created | Published | Conflict | Failed

  datatype PublishResult = PublishResult(ending: Ending, records: seq<Listed>)

  // ---------------------------------------------------------------- one attempt

  /** The duplicates are deleted on the first attempt only. */
  function ToDelete(plan: Outcome, first: bool): seq<(string, string)> {
    if first then plan.delete else []
  }

  /** The records that the attempt's listing shows, request 0. */
  function Shown(cid: CidOf, records: seq<Listed>, exchanges: seq<Exchange>): seq<Listed> {
    Changed(cid, records, Nth(exchanges, 0).others)
  }

  /** The put follows the listing and the deletes. */
  function PutOf(plan: Outcome, exchanges: seq<Exchange>, first: bool): Exchange {
    Nth(exchanges, |ToDelete(plan, first)| + 1)
  }

  function BeforePut(
      cid: CidOf, listed: seq<Listed>, plan: Outcome, exchanges: seq<Exchange>, first: bool): seq<Listed>
  {
    Changed(cid, Cleaned(cid, listed, ToDelete(plan, first), exchanges, 1), PutOf(plan, exchanges, first).others)
  }

  /** The put reaches the store, and finds the version that was listed. */
  predicate Lands(now: seq<Listed>, plan: Outcome, fate: Fate) {
    !fate.Lost? && Stores(now, plan.canonicalRkey, plan.canonicalCid)
  }

  function PutMerged(cid: CidOf, patch: Fields, plan: Outcome, now: seq<Listed>, fate: Fate)
    : Progress<seq<Listed>, PublishResult>
  {
    if Lands(now, plan, fate) then
      var merged := Object(Merged(FieldsOf(plan.base), patch));
      var written := FromValue(plan.canonicalRkey, cid(merged), merged);
      Over(PublishResult(if fate.Answered? then Published else Failed, Replaced(now, plan.canonicalRkey, written)))
    else if fate.Answered? then Again(now)
    else Over(PublishResult(Failed, now))
  }

  function Create(cid: CidOf, patch: Fields, freshRkey: string, x: Exchange, listed: seq<Listed>): PublishResult {
    var now := Changed(cid, listed, x.others);
    PublishResult(
      if x.fate.Answered? then Created else Failed,
      if x.fate.Lost? then now else now + [FromValue(freshRkey, cid(Object(patch)), Object(patch))])
  }

  /** One attempt on the records as they are when it starts. */
  function PublishOnce(
      cid: CidOf, me: Machine, patch: Fields, freshRkey: string, exchanges: seq<Exchange>, records: seq<Listed>,
      first: bool): Progress<seq<Listed>, PublishResult>
  {
    var listed := Shown(cid, records, exchanges);
    if !Nth(exchanges, 0).fate.Answered? then Over(PublishResult(Failed, listed))
    else
      match Reconciled(listed, me)
      case None => Over(Create(cid, patch, freshRkey, Nth(exchanges, 1), listed))
      case Some(plan) =>
        PutMerged(
          cid, patch, plan, BeforePut(cid, listed, plan, exchanges, first), PutOf(plan, exchanges, first).fate)
  }

  // ---------------------------------------------------------------- the whole publish

  function ExchangesOf(meetings: seq<seq<Exchange>>, i: nat): seq<Exchange> {
    if i < |meetings| then meetings[i] else []
  }

  function Attempts(cid: CidOf, me: Machine, patch: Fields, freshRkey: string, meetings: seq<seq<Exchange>>)
    : (seq<Listed>, nat) -> Progress<seq<Listed>, PublishResult>
  {
    (records: seq<Listed>, i: nat) =>
      PublishOnce(cid, me, patch, freshRkey, ExchangesOf(meetings, i), records, i == 0)
  }

  function GiveUp(): seq<Listed> -> PublishResult {
    records => PublishResult(Conflict, records)
  }

  /** As many attempts as meetings; each meeting gives the exchanges of one attempt. */
  function PublishRun(
      cid: CidOf, me: Machine, patch: Fields, freshRkey: string, meetings: seq<seq<Exchange>>,
      records: seq<Listed>): PublishResult
    requires meetings != []
  {
    Retry(Attempts(cid, me, patch, freshRkey, meetings), GiveUp(), records, 0, |meetings|)
  }

  class Account {
    const cid: CidOf
    var records: seq<Listed>

    constructor (cid: CidOf, records: seq<Listed>)
      ensures this.cid == cid && this.records == records
    {
      this.cid := cid;
      this.records := records;
    }

    method Drop(gone: Listed -> bool)
      modifies this
      ensures records == Without(old(records), gone)
    {
      var kept := [];
      for i := 0 to |records|
        invariant records == old(records)
        invariant kept + Without(records[i..], gone) == Without(records, gone)
      {
        assert records[i..][1..] == records[i + 1..];
        var part := if gone(records[i]) then [] else [records[i]];
        Reconcile.Regroup(kept, part, Without(records[i + 1..], gone));
        assert Without(records[i..], gone) == part + Without(records[i + 1..], gone);
        kept := kept + part;
      }
      records := kept;
    }

    /** A delete that removes the record only in the expected version. */
    method DeleteRecord(rkey: string, swap: string)
      modifies this
      ensures records == Without(old(records), AtVersion(rkey, swap))
    {
      Drop(AtVersion(rkey, swap));
    }

    method Overwrite(rkey: string, body: Json)
      modifies this
      ensures records == Replaced(old(records), rkey, FromValue(rkey, cid(body), body))
    {
      var next := [];
      for i := 0 to |records|
        invariant records == old(records)
        invariant next + Replaced(records[i..], rkey, FromValue(rkey, cid(body), body)) ==
                  Replaced(records, rkey, FromValue(rkey, cid(body), body))
      {
        assert records[i..][1..] == records[i + 1..];
        next := next + [if records[i].rkey == rkey then FromValue(rkey, cid(body), body) else records[i]];
      }
      records := next;
    }

    /** A put that succeeds only when the stored version is the expected one. */
    method PutRecord(rkey: string, body: Json, swap: string) returns (ok: bool)
      modifies this
      ensures ok <==> Stores(old(records), rkey, swap)
      ensures records == if ok then Replaced(old(records), rkey, FromValue(rkey, cid(body), body)) else old(records)
    {
      var found := FindRkey(records, rkey);
      ok := found.Some? && found.value.cid == swap;
      if ok { Overwrite(rkey, body); }
    }

    method CreateRecord(rkey: string, body: Json)
      modifies this
      ensures records == old(records) + [FromValue(rkey, cid(body), body)]
    {
      records := records + [FromValue(rkey, cid(body), body)];
    }

    /** What other writers do meanwhile. */
    method Interfere(edits: seq<Edit>)
      modifies this
      ensures records == Changed(cid, old(records), edits)
    {
      for i := 0 to |edits|
        invariant Changed(cid, records, edits[i..]) == Changed(cid, old(records), edits)
      {
        assert edits[i..][0] == edits[i] && edits[i..][1..] == edits[i + 1..];
        match edits[i] {
          case Upsert(rkey, body) =>
            var found := FindRkey(records, rkey);
            if found.Some? { Overwrite(rkey, body); }
            else { CreateRecord(rkey, body); }
          case Remove(rkey) => Drop(At(rkey));
        }
      }
    }

    /** Delete the duplicates, best effort. */
    method DeleteAll(pairs: seq<(string, string)>, exchanges: seq<Exchange>)
      modifies this
      ensures records == Cleaned(cid, old(records), pairs, exchanges, 1)
    {
      for i := 0 to |pairs|
        invariant Cleaned(cid, records, pairs[i..], exchanges, i + 1) ==
                  Cleaned(cid, old(records), pairs, exchanges, 1)
      {
        assert pairs[i..][0] == pairs[i] && pairs[i..][1..] == pairs[i + 1..];
        var x := Nth(exchanges, i + 1);
        Interfere(x.others);
        if !x.fate.Lost? { DeleteRecord(pairs[i].0, pairs[i].1); }
      }
    }

    /** A first publish: nothing listed is this machine's, so its record gets a fresh key. */
    method PublishNew(patch: Fields, freshRkey: string, x: Exchange) returns (ending: Ending)
      modifies this
      ensures PublishResult(ending, records) == Create(cid, patch, freshRkey, x, old(records))
    {
      Interfere(x.others);
      if !x.fate.Lost? { CreateRecord(freshRkey, Object(patch)); }
      return if x.fate.Answered? then Created else Failed;
    }

    /** At most six attempts, each on a fresh listing; the duplicates are deleted on the first. */
    method DedupAndPublish(me: Machine, patch: Fields, freshRkey: string, meetings: seq<seq<Exchange>>)
      returns (ending: Ending)
      requires |meetings| == 6
      modifies this
      ensures PublishResult(ending, records) == PublishRun(cid, me, patch, freshRkey, meetings, old(records))
    {
      ghost var attempts := Attempts(cid, me, patch, freshRkey, meetings);
      for attempt := 1 to PUBLISH_ATTEMPTS + 1
        invariant attempt <= PUBLISH_ATTEMPTS
        invariant PublishRun(cid, me, patch, freshRkey, meetings, old(records)) ==
                  Retry(attempts, GiveUp(), records, attempt - 1, PUBLISH_ATTEMPTS)
      {
        var exchanges := meetings[attempt - 1];
        assert attempts(records, attempt - 1) ==
          PublishOnce(cid, me, patch, freshRkey, exchanges, records, attempt == 1);
        Interfere(Nth(exchanges, 0).others);
        if !Nth(exchanges, 0).fate.Answered? { return Failed; }
        var plan := ReconcileProviderRecords(records, me);
        if plan.None? {
          ending := PublishNew(patch, freshRkey, Nth(exchanges, 1));
          return;
        }
        var recon := plan.value;
        if attempt == 1 { DeleteAll(recon.delete, exchanges); }
        var merged := MergeAgentProviderFields(recon.base, Object(patch));
        var x := PutOf(recon, exchanges, attempt == 1);
        Interfere(x.others);
        if x.fate.Lost? { return Failed; }
        var ok := PutRecord(recon.canonicalRkey, merged, recon.canonicalCid);
        if x.fate.Unanswered? { return Failed; }
        if ok { return Published; }
        if attempt == PUBLISH_ATTEMPTS { return Conflict; }
      }
      assert false;
    }
  }
}
