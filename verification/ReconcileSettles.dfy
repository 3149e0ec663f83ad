/** Carrying out a reconciliation settles it: once the base (or the base with the agent's fields
    merged in) is written at the adopted key and the duplicates are deleted, reconciling again
    adopts the same record, finds nothing to delete and nothing more to harvest. */
module ReconcileSettles {
  import opened Wrappers
  import opened CanonicalJson
  import opened FieldMerge
  import opened Reconcile
  import opened ReconcileLaws

  /** The listing after the adopted record is overwritten and the duplicates are deleted. */
  function After(listed: seq<Listed>, o: Outcome, written: Listed): seq<Listed> {
    if listed == [] then []
    else
      (if listed[0].rkey == o.canonicalRkey then [written]
       else if Deleted(listed[0], o) then []
       else [listed[0]]) + After(listed[1..], o, written)
  }

  predicate Deleted(rec: Listed, o: Outcome) {
    (rec.rkey, rec.cid) in o.delete
  }

  predicate Untouched(rec: Listed, o: Outcome) {
    rec.rkey != o.canonicalRkey && !Deleted(rec, o)
  }

  /** Every listed record was read from its body. */
  ghost predicate WellRead(listed: seq<Listed>) {
    forall rec :: rec in listed ==> rec == FromValue(rec.rkey, rec.cid, rec.value)
  }

  /** The same machine on its next publish: it may have cached the adopted key meanwhile. */
  predicate Later(me: Machine, later: Machine, o: Outcome) {
    later == me || later == me.(cachedRkey := Some(o.canonicalRkey))
  }

  // ---------------------------------------------------------------- the kinds after the writes

  lemma {:induction false} OnlyWrittenRemains(
      listed: seq<Listed>, o: Outcome, written: Listed, me: Machine, kind: Kinship)
    requires DistinctRkeys(listed)
    requires forall rec :: rec in listed && Untouched(rec, o) ==> Classify(rec, me) != kind
    ensures OfKind(After(listed, o, written), me, kind) ==
      if Classify(written, me) == kind && WithRkey(listed, o.canonicalRkey).Some? then [written] else []
  {
    if listed != [] {
      OnlyWrittenRemains(listed[1..], o, written, me, kind);
      WithRkeyFinds(listed[1..], o.canonicalRkey);
      var rest := After(listed[1..], o, written);
      if listed[0].rkey == o.canonicalRkey {
        assert After(listed, o, written)[1..] == rest;
      } else if !Deleted(listed[0], o) {
        assert listed[0] in listed && Untouched(listed[0], o);
        assert After(listed, o, written)[1..] == rest;
      } else {
        assert After(listed, o, written) == rest;
      }
    }
  }

  lemma {:induction false} KindIsKept(
      listed: seq<Listed>, o: Outcome, written: Listed, me: Machine, later: Machine, kind: Kinship)
    requires forall rec :: rec in listed && !Untouched(rec, o) ==> Classify(rec, me) != kind
    requires forall rec :: rec in listed && Untouched(rec, o) ==> Classify(rec, later) == Classify(rec, me)
    requires Classify(written, later) != kind
    ensures OfKind(After(listed, o, written), later, kind) == OfKind(listed, me, kind)
  {
    if listed != [] {
      KindIsKept(listed[1..], o, written, me, later, kind);
      var rest := After(listed[1..], o, written);
      assert listed[0] in listed;
      if listed[0].rkey == o.canonicalRkey || !Deleted(listed[0], o) {
        assert After(listed, o, written)[1..] == rest;
      } else {
        assert After(listed, o, written) == rest;
      }
    }
  }

  // ---------------------------------------------------------------- what stays is not ours

  lemma OthersStayOthers(rec: Listed, me: Machine, later: Machine, o: Outcome)
    requires Later(me, later, o) && rec.rkey != o.canonicalRkey && Classify(rec, me) != Mine
    ensures Classify(rec, later) == Classify(rec, me)
  {}

  lemma UntouchedIsNotOurs(listed: seq<Listed>, me: Machine, later: Machine, rec: Listed)
    requires DistinctRkeys(listed) && Reconciled(listed, me).Some?
    requires rec in listed && Untouched(rec, Reconciled(listed, me).value)
    requires Later(me, later, Reconciled(listed, me).value)
    ensures Classify(rec, me) != Mine && Classify(rec, later) == Classify(rec, me)
    ensures |OfKind(listed, me, LegacyCandidate)| == 1 ==> Classify(rec, me) == Other
  {
    Partition(listed, me, rec);
    OursMembers(listed, me, rec);
    OthersStayOthers(rec, me, later, Reconciled(listed, me).value);
  }

  lemma CanonicalIsListed(listed: seq<Listed>, me: Machine)
    requires Reconciled(listed, me).Some?
    ensures AdoptedFrom(listed, me) in listed && AdoptedFrom(listed, me) in Ours(listed, me)
    ensures WithRkey(listed, Reconciled(listed, me).value.canonicalRkey).Some?
  {
    var c := AdoptedFrom(listed, me);
    AdoptedIsListed(Newest(Ours(listed, me)), me);
    NewestMembers(Ours(listed, me), c);
    OursMembers(listed, me, c);
    WithRkeyFinds(listed, c.rkey);
  }

  /** The written record is recognized again. */
  ghost predicate Recognized(listed: seq<Listed>, me: Machine, later: Machine, written: Listed) {
    || Classify(written, later) == Mine
    || (Classify(written, later) == LegacyCandidate && |OfKind(listed, me, LegacyCandidate)| == 1)
  }

  lemma NoLegacyAtAll(listed: seq<Listed>, me: Machine, rec: Listed)
    requires |OfKind(listed, me, LegacyCandidate)| == 0 && rec in listed
    ensures Classify(rec, me) != LegacyCandidate
  {
    OfKindMembers(listed, me, LegacyCandidate, rec);
  }

  lemma SettlesUnambiguous(listed: seq<Listed>, me: Machine, later: Machine, written: Listed)
    requires DistinctRkeys(listed) && Reconciled(listed, me).Some?
    requires Later(me, later, Reconciled(listed, me).value) && Recognized(listed, me, later, written)
    requires |OfKind(listed, me, LegacyCandidate)| <= 1
    ensures var next := After(listed, Reconciled(listed, me).value, written);
      Ours(next, later) == [written] && Ambiguous(next, later) == 0
  {
    var o := Reconciled(listed, me).value;
    CanonicalIsListed(listed, me);
    forall rec | rec in listed && Untouched(rec, o) ensures Classify(rec, later) == Other {
      UntouchedIsNotOurs(listed, me, later, rec);
      if |OfKind(listed, me, LegacyCandidate)| == 0 { NoLegacyAtAll(listed, me, rec); }
    }
    OnlyWrittenRemains(listed, o, written, later, Mine);
    OnlyWrittenRemains(listed, o, written, later, LegacyCandidate);
  }

  lemma SettlesAmbiguous(listed: seq<Listed>, me: Machine, later: Machine, written: Listed)
    requires DistinctRkeys(listed) && Reconciled(listed, me).Some?
    requires Later(me, later, Reconciled(listed, me).value) && Recognized(listed, me, later, written)
    requires |OfKind(listed, me, LegacyCandidate)| > 1
    ensures var next := After(listed, Reconciled(listed, me).value, written);
      Ours(next, later) == [written] && Ambiguous(next, later) == Ambiguous(listed, me)
  {
    var o := Reconciled(listed, me).value;
    CanonicalIsListed(listed, me);
    forall rec | rec in listed && Untouched(rec, o)
      ensures Classify(rec, later) != Mine && Classify(rec, later) == Classify(rec, me) {
      UntouchedIsNotOurs(listed, me, later, rec);
    }
    forall rec | rec in listed && !Untouched(rec, o) ensures Classify(rec, me) != LegacyCandidate {
      Partition(listed, me, rec);
      OursMembers(listed, me, rec);
    }
    OnlyWrittenRemains(listed, o, written, later, Mine);
    KindIsKept(listed, o, written, me, later, LegacyCandidate);
  }

  lemma FirstSetOfOne(rec: Listed, key: string)
    ensures FirstSet([rec], key) == if IsSet(Setting(rec, key)) then Setting(rec, key) else None
  {
    assert [rec][1..] == [];
  }

  lemma OneRecordIsItsOwnBase(written: Listed, me: Machine, ambiguous: nat)
    ensures Decide([written], me, ambiguous) == Outcome(written.rkey, written.cid, written.value, [], ambiguous)
  {
    assert [written][1..] == [];
    assert Losers([], written.rkey) == [];
    AdoptedIsListed([written], me);
    if written.value.Object? {
      var own := written.value.fields;
      forall k ensures Get(Harvested(own, [written]), k) == Get(own, k) {
        HarvestedLookup(own, [written], k);
        FirstSetOfOne(written, k);
      }
      SameFields(Harvested(own, [written]), own);
    }
  }

  /** Any body at the adopted key that is still recognized ends the reconciliation. */
  lemma Settles(listed: seq<Listed>, me: Machine, later: Machine, written: Listed)
    requires DistinctRkeys(listed) && Reconciled(listed, me).Some?
    requires Later(me, later, Reconciled(listed, me).value) && Recognized(listed, me, later, written)
    ensures Reconciled(After(listed, Reconciled(listed, me).value, written), later) ==
      Some(Outcome(written.rkey, written.cid, written.value, [], Ambiguous(listed, me)))
  {
    if |OfKind(listed, me, LegacyCandidate)| <= 1 { SettlesUnambiguous(listed, me, later, written); }
    else { SettlesAmbiguous(listed, me, later, written); }
    assert Newest([written]) == [written] by { assert [written][1..] == []; }
    OneRecordIsItsOwnBase(written, later, Ambiguous(listed, me));
  }

  // ---------------------------------------------------------------- the two bodies that are written

  lemma IdentityIsNotOwned()
    ensures !Owned(PUB_KEY) && !Owned(FINGERPRINT) && !Owned(LABEL) && !Owned(CHIP) && !Owned(MODEL)
    ensures PUB_KEY in AGENT_REQUIRED_KEYS
  {}

  lemma BaseKeepsIdentity(value: Json, sorted: seq<Listed>, rkey: string, oldCid: string, cid: string)
    ensures var before := FromValue(rkey, oldCid, value);
            var after := FromValue(rkey, cid, Base(value, sorted));
      && after.attestationPubKey == before.attestationPubKey && after.machineFingerprint == before.machineFingerprint
      && after.machineLabel == before.machineLabel && after.chip == before.chip
      && after.modelIdentifier == before.modelIdentifier
  {
    IdentityIsNotOwned();
    if value.Object? {
      HarvestedLookup(value.fields, sorted, PUB_KEY);
      HarvestedLookup(value.fields, sorted, FINGERPRINT);
      HarvestedLookup(value.fields, sorted, LABEL);
      HarvestedLookup(value.fields, sorted, CHIP);
      HarvestedLookup(value.fields, sorted, MODEL);
    }
  }

  /** Harvesting does not change whose record it is. */
  lemma BaseIsRecognized(listed: seq<Listed>, me: Machine, later: Machine, cid: string)
    requires WellRead(listed) && Reconciled(listed, me).Some? && Later(me, later, Reconciled(listed, me).value)
    ensures var o := Reconciled(listed, me).value;
      Recognized(listed, me, later, FromValue(o.canonicalRkey, cid, o.base))
  {
    var c := AdoptedFrom(listed, me);
    CanonicalIsListed(listed, me);
    OursMembers(listed, me, c);
    assert c == FromValue(c.rkey, c.cid, c.value);
    BaseKeepsIdentity(c.value, Newest(Ours(listed, me)), c.rkey, c.cid, cid);
  }

  /** Writing the harvested base settles the reconciliation. */
  lemma SecondRunAfterBase(listed: seq<Listed>, me: Machine, later: Machine, cid: string)
    requires DistinctRkeys(listed) && WellRead(listed)
    requires Reconciled(listed, me).Some? && Later(me, later, Reconciled(listed, me).value)
    ensures var o := Reconciled(listed, me).value;
            var written := FromValue(o.canonicalRkey, cid, o.base);
      Reconciled(After(listed, o, written), later) == Some(o.(canonicalCid := cid, delete := []))
  {
    BaseIsRecognized(listed, me, later, cid);
    var o := Reconciled(listed, me).value;
    Settles(listed, me, later, FromValue(o.canonicalRkey, cid, o.base));
  }

  /** The identity is taken from the record about to be published. */
  ghost predicate Publishes(patch: Fields, me: Machine) {
    && AgentRecord(patch)
    && Get(patch, PUB_KEY) == Some(String(me.attestationPubKey))
    && Get(patch, FINGERPRINT) == (match me.machineFingerprint { case Some(f) => Some(String(f)) case None => None })
  }

  lemma MergedIdentity(base: Json, patch: Fields, me: Machine)
    requires Publishes(patch, me)
    ensures TextField(Object(Merged(FieldsOf(base), patch)), PUB_KEY) == Some(me.attestationPubKey)
    ensures TextField(Object(Merged(FieldsOf(base), patch)), FINGERPRINT) ==
      if me.machineFingerprint.Some? then me.machineFingerprint else TextField(base, FINGERPRINT)
  {
    IdentityIsNotOwned();
    FingerprintIsAlwaysKept();
    MergedLookup(FieldsOf(base), patch, PUB_KEY);
    MergedLookup(FieldsOf(base), patch, FINGERPRINT);
  }

  /** Publishing the agent's record on the harvested base settles it too: the next publish adopts
      the same key, deletes nothing and harvests nothing. */
  lemma SecondRunAfterPublish(listed: seq<Listed>, me: Machine, later: Machine, cid: string, patch: Fields)
    requires DistinctRkeys(listed) && WellRead(listed) && Publishes(patch, me)
    requires Reconciled(listed, me).Some? && Later(me, later, Reconciled(listed, me).value)
    ensures var o := Reconciled(listed, me).value;
            var body := Object(Merged(FieldsOf(o.base), patch));
      Reconciled(After(listed, o, FromValue(o.canonicalRkey, cid, body)), later) ==
        Some(Outcome(o.canonicalRkey, cid, body, [], o.ambiguousLegacy))
  {
    var o := Reconciled(listed, me).value;
    var body := Object(Merged(FieldsOf(o.base), patch));
    var c := AdoptedFrom(listed, me);
    MergedIdentity(o.base, patch, me);
    CanonicalIsListed(listed, me);
    OursMembers(listed, me, c);
    BaseKeepsIdentity(c.value, Newest(Ours(listed, me)), c.rkey, c.cid, cid);
    Settles(listed, me, later, FromValue(o.canonicalRkey, cid, body));
  }
}
