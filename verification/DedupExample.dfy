/** A machine whose publish loses the owner's choice, for each of the two ways in which the first put
    may not land. */
module DedupExample {
  import opened Wrappers
  import opened CanonicalJson
  import opened FieldMerge
  import opened Reconcile
  import opened ReconcileLaws
  import opened ReconcileSettles
  import opened RecordStore
  import opened AccountRecords
  import opened DedupPublish
  import opened DedupStates
  import opened DedupLaws

  // A machine with two records: the older one, left from before a reinstall, holds the owner's tier.

  const STRANDED: Json := Object(map[
    PUB_KEY := String("key"), CREATED_AT := String("1"), "desiredTier" := String("attested")])
  const CURRENT: Json := Object(map[PUB_KEY := String("key"), CREATED_AT := String("2")])
  const TOUCHED: Json := Object(map[PUB_KEY := String("key"), CREATED_AT := String("2"), "active" := Bool(true)])
  const THIS_MACHINE: Machine := Machine("key", None, "label", None, "chip", Some("current"))

  function Two(cid: CidOf): seq<Listed> {
    [FromValue("current", cid(CURRENT), CURRENT), FromValue("stranded", cid(STRANDED), STRANDED)]
  }

  const TIER: string := "desiredTier"

  lemma TwoAreMine(cid: CidOf)
    ensures forall rec :: rec in Two(cid) ==> Classify(rec, THIS_MACHINE) == Mine
    ensures DistinctRkeys(Two(cid))
  {
    var two := Two(cid);
    assert two[0].attestationPubKey == Some("key") && two[1].attestationPubKey == Some("key");
    assert two[0].rkey[0] != two[1].rkey[0];
  }

  lemma TheirTiers(cid: CidOf)
    ensures Setting(Two(cid)[0], TIER) == None && Setting(Two(cid)[1], TIER) == Some(String("attested"))
    ensures Get(FieldsOf(TOUCHED), TIER) == None && CURRENT != TOUCHED && Owned(TIER)
  {
    assert OWNER_INTENT_KEYS[3] == TIER;
    assert "active" in TOUCHED.fields && "active" !in CURRENT.fields;
  }

  lemma CurrentIsAdopted(cid: CidOf)
    ensures Reconciled(Two(cid), THIS_MACHINE).Some?
    ensures AdoptedFrom(Two(cid), THIS_MACHINE) == Two(cid)[0]
    ensures Deleted(Two(cid)[1], Reconciled(Two(cid), THIS_MACHINE).value)
  {
    var two := Two(cid);
    TwoAreMine(cid);
    OursMembers(two, THIS_MACHINE, two[0]);
    OursMembers(two, THIS_MACHINE, two[1]);
    NothingOursNothingDone(two, THIS_MACHINE);
    NewestMembers(Ours(two, THIS_MACHINE), two[0]);
    WithRkeyFinds(Newest(Ours(two, THIS_MACHINE)), "current");
    CanonicalIsListed(two, THIS_MACHINE);
    SameRkeySameRecord(two, AdoptedFrom(two, THIS_MACHINE), two[0]);
    Partition(two, THIS_MACHINE, two[1]);
  }

  lemma AllAreOurs(cid: CidOf)
    ensures Ours(Two(cid), THIS_MACHINE) == Two(cid)
  {
    var two := Two(cid);
    var tail := two[1..];
    TwoAreMine(cid);
    assert two[0] in two && two[1] in two && tail == [two[1]] && tail[1..] == [];
    assert OfKind(tail, THIS_MACHINE, Mine) == [two[1]] && OfKind(tail, THIS_MACHINE, LegacyCandidate) == [];
    assert OfKind(two, THIS_MACHINE, Mine) == [two[0]] + [two[1]];
    assert OfKind(two, THIS_MACHINE, LegacyCandidate) == [];
  }

  lemma OneIsDeleted(cid: CidOf)
    ensures Reconciled(Two(cid), THIS_MACHINE).Some? && |Reconciled(Two(cid), THIS_MACHINE).value.delete| == 1
  {
    TwoAreMine(cid);
    CurrentIsAdopted(cid);
    AllAreOurs(cid);
    DeleteListIsExact(Two(cid), THIS_MACHINE);
  }

  /** What the machine decides on that listing. */
  lemma ThePlan(cid: CidOf)
    ensures WellStored(cid, Two(cid)) && Reconciled(Two(cid), THIS_MACHINE).Some?
    ensures var o := Reconciled(Two(cid), THIS_MACHINE).value;
      o.canonicalRkey == "current" && o.delete == [("stranded", cid(STRANDED))]
    ensures AdoptedFrom(Two(cid), THIS_MACHINE) == FromValue("current", cid(CURRENT), CURRENT)
  {
    var two := Two(cid);
    TwoAreMine(cid);
    CurrentIsAdopted(cid);
    OneIsDeleted(cid);
    var o := Reconciled(two, THIS_MACHINE).value;
    assert (two[1].rkey, two[1].cid) in o.delete;
  }

  lemma TierIsHarvested(cid: CidOf)
    ensures Reconciled(Two(cid), THIS_MACHINE).Some?
    ensures Get(FieldsOf(Reconciled(Two(cid), THIS_MACHINE).value.base), TIER) == Some(String("attested"))
  {
    var two := Two(cid);
    TheirTiers(cid);
    CurrentIsAdopted(cid);
    AllAreOurs(cid);
    OwnerChoicesAreCarried(two, THIS_MACHINE, TIER);
    var v := Get(FieldsOf(Reconciled(two, THIS_MACHINE).value.base), TIER);
    var rec :| rec in Ours(two, THIS_MACHINE) && IsSet(Setting(rec, TIER)) && v == Setting(rec, TIER);
    assert two == [two[0], two[1]];
  }

  // That machine publishes the record AGENT. The listing and the delete succeed; then the put meets
  // an edit of another setting, or it is lost.

  lemma AgentIsPublishable()
    ensures Publishes(AGENT, THIS_MACHINE)
  {
    AgentIsAgentRecord();
    assert AGENT[PUB_KEY] == String("key");
  }

  const QUIET: Exchange := Exchange([], Answered)

  function PutMeets(x: Exchange): seq<seq<Exchange>> {
    [[QUIET, QUIET, x], [], [], [], [], []]
  }

  const CONFLICT_ONCE: seq<seq<Exchange>> := PutMeets(Exchange([Upsert("current", TOUCHED)], Answered))
  const FAILURE: seq<seq<Exchange>> := PutMeets(Exchange([], Lost))

  lemma TouchedIsMine(cid: CidOf)
    ensures Classify(FromValue("current", cid(TOUCHED), TOUCHED), THIS_MACHINE) == Mine
  {
    assert FromValue("current", cid(TOUCHED), TOUCHED).attestationPubKey == Some("key");
  }

  lemma OnlyTouched(meetings: seq<seq<Exchange>>, i: nat, j: nat)
    requires (meetings == CONFLICT_ONCE || meetings == FAILURE) && i < |meetings|
    ensures Nth(meetings[i], j).others == [] || Nth(meetings[i], j).others == [Upsert("current", TOUCHED)]
    ensures i + j < 2 ==> Nth(meetings[i], j) == QUIET
  {}

  lemma TouchedIsAllowed(cid: CidOf, meetings: seq<seq<Exchange>>, i: nat, j: nat)
    requires (meetings == CONFLICT_ONCE || meetings == FAILURE) && i < |meetings|
    ensures Reconciled(Two(cid), THIS_MACHINE).Some?
    ensures AllAllowed(cid, Two(cid), THIS_MACHINE, {}, Nth(meetings[i], j).others)
    ensures Leave(Reconciled(Two(cid), THIS_MACHINE).value, TIER, None, Nth(meetings[i], j).others)
  {
    ThePlan(cid);
    TheirTiers(cid);
    TouchedIsMine(cid);
    OnlyTouched(meetings, i, j);
  }

  lemma TwoAreAssumed(cid: CidOf, meetings: seq<seq<Exchange>>)
    requires meetings == CONFLICT_ONCE || meetings == FAILURE
    ensures Assumed(cid, Two(cid), THIS_MACHINE, {}, meetings) && |meetings| == 6
  {
    ThePlan(cid);
    forall i: nat, j: nat | i < |meetings| && i + j > 0
      ensures AllAllowed(cid, Two(cid), THIS_MACHINE, {}, Nth(meetings[i], j).others) {
      TouchedIsAllowed(cid, meetings, i, j);
    }
    OnlyTouched(meetings, 0, 0);
    OnlyTouched(meetings, 0, 1);
  }

  lemma TierIsLeft(cid: CidOf, meetings: seq<seq<Exchange>>)
    requires meetings == CONFLICT_ONCE || meetings == FAILURE
    ensures Reconciled(Two(cid), THIS_MACHINE).Some?
    ensures OthersLeave(Reconciled(Two(cid), THIS_MACHINE).value, TIER, None, meetings)
  {
    ThePlan(cid);
    forall i: nat, j: nat | i < |meetings| && i + j > 0
      ensures Leave(Reconciled(Two(cid), THIS_MACHINE).value, TIER, None, Nth(meetings[i], j).others) {
      TouchedIsAllowed(cid, meetings, i, j);
    }
  }

  lemma FirstPutFails(cid: CidOf, meetings: seq<seq<Exchange>>)
    requires Injective(cid) && (meetings == CONFLICT_ONCE || meetings == FAILURE)
    ensures Reconciled(Two(cid), THIS_MACHINE).Some? && !FirstPutLands(cid, Two(cid), THIS_MACHINE, meetings)
  {
    TwoAreAssumed(cid, meetings);
    ThePlan(cid);
    TheirTiers(cid);
    FirstPutLandsIff(cid, Two(cid), THIS_MACHINE, {}, meetings);
    if meetings == CONFLICT_ONCE { PutMeetsTouched(); }
    else { assert Nth(meetings[0], 2).fate.Lost?; }
  }

  lemma PutMeetsTouched()
    ensures LastIn(CURRENT, "current", CONFLICT_ONCE[0], 1, 3) == TOUCHED
  {
    var exchanges := CONFLICT_ONCE[0];
    assert exchanges == [QUIET, QUIET, Exchange([Upsert("current", TOUCHED)], Answered)];
    assert LastAt(CURRENT, "current", [Upsert("current", TOUCHED)]) == TOUCHED;
    assert LastIn(CURRENT, "current", exchanges, 2, 3) == TOUCHED;
  }

  /** One conflicting edit of an unrelated setting, or one put that is lost, and the owner's tier is
      gone: it was harvested, the record that held it is deleted, and no record holds it any more. */
  lemma HarvestCanBeLost(cid: CidOf, patch: Fields, freshRkey: string, meetings: seq<seq<Exchange>>)
    requires Injective(cid) && Publishes(patch, THIS_MACHINE)
    requires meetings == CONFLICT_ONCE || meetings == FAILURE
    ensures Assumed(cid, Two(cid), THIS_MACHINE, {}, meetings) && |meetings| == 6
    ensures FirstListing(cid, Two(cid), meetings) == Two(cid)
    ensures Get(FieldsOf(Reconciled(Two(cid), THIS_MACHINE).value.base), TIER) == Some(String("attested"))
    ensures var end := PublishRun(cid, THIS_MACHINE, patch, freshRkey, meetings, Two(cid)).records;
      |end| == 1 && end[0].rkey == "current" && Setting(end[0], TIER) == None
  {
    var two := Two(cid);
    var end := PublishRun(cid, THIS_MACHINE, patch, freshRkey, meetings, two).records;
    TwoAreAssumed(cid, meetings);
    TierIsLeft(cid, meetings);
    OnlyTouched(meetings, 0, 0);
    ThePlan(cid);
    TierIsHarvested(cid);
    TheirTiers(cid);
    FirstPutFails(cid, meetings);
    PublishHolds(cid, two, THIS_MACHINE, patch, freshRkey, {}, meetings);
    FinalSetting(cid, two, THIS_MACHINE, patch, {}, meetings, TIER);
    OnlyCurrentIsLeft(cid, end, FinalBody(cid, patch, Reconciled(two, THIS_MACHINE).value, CURRENT, meetings));
  }

  lemma OnlyCurrentIsLeft(cid: CidOf, end: seq<Listed>, body: Json)
    requires Reconciled(Two(cid), THIS_MACHINE).Some? && Shaped(cid, Two(cid), THIS_MACHINE, {}, [], end, body)
    ensures end == [FromValue("current", cid(body), body)]
  {
    var rec := FromValue("current", cid(body), body);
    ThePlan(cid);
    forall r | r in end ensures r == rec {
      FoundIsListed(end, r);
      if r.rkey != "current" { NothingElseIsLeft(cid, r.rkey); }
    }
    FoundIsListed(end, rec);
    ListedOnce(end, rec);
    OnlyMember(end, rec);
  }

  lemma NothingElseIsLeft(cid: CidOf, rkey: string)
    requires Reconciled(Two(cid), THIS_MACHINE).Some? && rkey != "current"
    ensures Left(Two(cid), Reconciled(Two(cid), THIS_MACHINE).value, [], rkey) == None
  {
    var two := Two(cid);
    ThePlan(cid);
    WithRkeyFinds(two, rkey);
    assert two[1] in two && WithRkey(two, rkey).Some? ==> WithRkey(two, rkey).value == two[1];
  }
}
