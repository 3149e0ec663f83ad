/** Several machines under one account, each reconciling and publishing at its own pace on listings
    that may be stale by the time it acts. When every record carries a machine fingerprint, no
    machine ever deletes, overwrites or harvests from another machine's record. */
module FleetSafety {
  import opened Wrappers
  import opened CanonicalJson
  import opened FieldMerge
  import opened Reconcile
  import opened ReconcileLaws
  import opened RecordStore

  function Fingerprint(body: Json): Option<string> {
    TextField(body, FINGERPRINT)
  }

  /** The records of the account by key, and each machine's current plan. Machines are named by
      their fingerprints. */
  datatype Fleet = Fleet(records: map<string, Json>, plans: map<string, Outcome>)

  datatype Act =
    | List(m: string, me: Machine, listing: seq<Listed>)
    | Delete(m: string, i: nat)
    | PutRecord(m: string, patch: Fields)
    | Create(m: string, rkey: string, patch: Fields)
    | OwnerEdit(m: string, rkey: string, edits: map<string, Option<Json>>)

  /** A listing shows records as they are stored now; it may be incomplete and in any order. */
  ghost predicate Shows(cid: CidOf, records: map<string, Json>, listing: seq<Listed>) {
    forall rec :: rec in listing ==>
      rec.rkey in records && rec == FromValue(rec.rkey, cid(records[rec.rkey]), records[rec.rkey])
  }

  ghost predicate Stamped(patch: Fields, m: string) {
    AgentRecord(patch) && Get(patch, FINGERPRINT) == Some(String(m))
  }

  ghost predicate Possible(cid: CidOf, s: Fleet, a: Act) {
    match a
    case List(m, me, listing) => me.machineFingerprint == Some(m) && Shows(cid, s.records, listing)
    case Delete(m, i) => m in s.plans && i < |s.plans[m].delete|
    case PutRecord(m, patch) => m in s.plans && Stamped(patch, m)
    case Create(m, rkey, patch) => rkey !in s.records && Stamped(patch, m)
    case OwnerEdit(m, rkey, edits) => rkey in s.records && Fingerprint(s.records[rkey]) == Some(m) && OwnersOnly(edits)
  }

  /** The stored version is still the one that was read. */
  predicate Current(cid: CidOf, s: Fleet, rkey: string, version: string) {
    rkey in s.records && cid(s.records[rkey]) == version
  }

  function Next(cid: CidOf, s: Fleet, a: Act): Fleet
    requires a.Delete? ==> a.m in s.plans && a.i < |s.plans[a.m].delete|
    requires a.PutRecord? ==> a.m in s.plans
    requires a.OwnerEdit? ==> a.rkey in s.records
  {
    match a
    case List(m, me, listing) =>
      var plan := Reconciled(listing, me);
      if plan.Some? then s.(plans := s.plans[m := plan.value]) else s.(plans := s.plans - {m})
    case Delete(m, i) =>
      var (rkey, version) := s.plans[m].delete[i];
      if Current(cid, s, rkey, version) then s.(records := s.records - {rkey}) else s
    case PutRecord(m, patch) =>
      var plan := s.plans[m];
      if Current(cid, s, plan.canonicalRkey, plan.canonicalCid)
      then s.(records := s.records[plan.canonicalRkey := Object(Merged(FieldsOf(plan.base), patch))])
      else s
    case Create(m, rkey, patch) => s.(records := s.records[rkey := Object(patch)])
    case OwnerEdit(m, rkey, edits) => s.(records := s.records[rkey := Object(Edited(FieldsOf(s.records[rkey]), edits))])
  }

  ghost predicate Legal(cid: CidOf, s: Fleet, acts: seq<Act>)
    decreases |acts|
  {
    acts == [] || (Possible(cid, s, acts[0]) && Legal(cid, Next(cid, s, acts[0]), acts[1..]))
  }

  ghost function Run(cid: CidOf, s: Fleet, acts: seq<Act>): Fleet
    requires Legal(cid, s, acts)
    decreases |acts|
  {
    if acts == [] then s else Run(cid, Next(cid, s, acts[0]), acts[1..])
  }

  // ---------------------------------------------------------------- the invariant

  ghost predicate AllStamped(records: map<string, Json>) {
    forall rkey :: rkey in records ==> Fingerprint(records[rkey]).Some?
  }

  /** A version that only a record of machine m can have. */
  ghost predicate VersionOf(cid: CidOf, m: string, version: string) {
    forall body :: cid(body) == version ==> Fingerprint(body) == Some(m)
  }

  ghost predicate PlanOk(cid: CidOf, m: string, plan: Outcome) {
    && VersionOf(cid, m, plan.canonicalCid)
    && forall i :: 0 <= i < |plan.delete| ==> VersionOf(cid, m, plan.delete[i].1)
  }

  ghost predicate FleetOk(cid: CidOf, s: Fleet) {
    && AllStamped(s.records)
    && forall m :: m in s.plans ==> PlanOk(cid, m, s.plans[m])
  }

  /** With fingerprints on every record, ours are exactly the listed ones that carry our fingerprint. */
  lemma OursCarryOurFingerprint(listing: seq<Listed>, me: Machine, rec: Listed)
    requires me.machineFingerprint.Some?
    requires forall r :: r in listing ==> r.machineFingerprint.Some?
    ensures rec in Ours(listing, me) <==> rec in listing && rec.machineFingerprint == me.machineFingerprint
  {
    OursMembers(listing, me, rec);
  }

  lemma ShownVersion(cid: CidOf, s: Fleet, listing: seq<Listed>, me: Machine, m: string, rec: Listed)
    requires Injective(cid) && AllStamped(s.records) && Shows(cid, s.records, listing)
    requires me.machineFingerprint == Some(m) && rec in Ours(listing, me)
    ensures VersionOf(cid, m, rec.cid)
  {
    OursCarryOurFingerprint(listing, me, rec);
  }

  lemma PlanIsOk(cid: CidOf, s: Fleet, listing: seq<Listed>, me: Machine, m: string)
    requires Injective(cid) && AllStamped(s.records) && Shows(cid, s.records, listing)
    requires me.machineFingerprint == Some(m) && Reconciled(listing, me).Some?
    ensures PlanOk(cid, m, Reconciled(listing, me).value)
  {
    var plan := Reconciled(listing, me).value;
    var sorted := Newest(Ours(listing, me));
    var canonical := AdoptedFrom(listing, me);
    AdoptedIsListed(sorted, me);
    NewestMembers(Ours(listing, me), canonical);
    ShownVersion(cid, s, listing, me, m, canonical);
    forall i | 0 <= i < |plan.delete| ensures VersionOf(cid, m, plan.delete[i].1) {
      LosersMembers(sorted, canonical.rkey, plan.delete[i]);
      var loser :| loser in sorted && loser.rkey != canonical.rkey && plan.delete[i] == (loser.rkey, loser.cid);
      NewestMembers(Ours(listing, me), loser);
      ShownVersion(cid, s, listing, me, m, loser);
    }
  }

  lemma StampedAfterMerge(base: Json, patch: Fields, m: string)
    requires Stamped(patch, m)
    ensures Fingerprint(Object(Merged(FieldsOf(base), patch))) == Some(m)
  {
    FingerprintIsAlwaysKept();
    MergedLookup(FieldsOf(base), patch, FINGERPRINT);
  }

  lemma StampedAfterEdit(body: Json, edits: map<string, Option<Json>>)
    requires OwnersOnly(edits)
    ensures Fingerprint(Object(Edited(FieldsOf(body), edits))) == Fingerprint(body)
  {
    FingerprintIsAlwaysKept();
    EditedLookup(FieldsOf(body), edits, FINGERPRINT);
  }

  // ---------------------------------------------------------------- one step

  /** The records of one machine. */
  ghost function RecordsOf(s: Fleet, m: string): map<string, Json> {
    map rkey | rkey in s.records && Fingerprint(s.records[rkey]) == Some(m) :: s.records[rkey]
  }

  lemma DeleteOne(cid: CidOf, s: Fleet, a: Act)
    requires Injective(cid) && FleetOk(cid, s) && a.Delete? && Possible(cid, s, a)
    ensures FleetOk(cid, Next(cid, s, a))
    ensures forall m :: m != a.m ==> RecordsOf(Next(cid, s, a), m) == RecordsOf(s, m)
  {
    assert VersionOf(cid, a.m, s.plans[a.m].delete[a.i].1);
  }

  lemma PutOne(cid: CidOf, s: Fleet, a: Act)
    requires Injective(cid) && FleetOk(cid, s) && a.PutRecord? && Possible(cid, s, a)
    ensures FleetOk(cid, Next(cid, s, a))
    ensures forall m :: m != a.m ==> RecordsOf(Next(cid, s, a), m) == RecordsOf(s, m)
  {
    var plan := s.plans[a.m];
    assert VersionOf(cid, a.m, plan.canonicalCid);
    StampedAfterMerge(plan.base, a.patch, a.m);
    if Current(cid, s, plan.canonicalRkey, plan.canonicalCid) {
      WriteOne(cid, s, a.m, plan.canonicalRkey, Object(Merged(FieldsOf(plan.base), a.patch)));
    }
  }

  lemma ListOne(cid: CidOf, s: Fleet, a: Act)
    requires Injective(cid) && FleetOk(cid, s) && a.List? && Possible(cid, s, a)
    ensures FleetOk(cid, Next(cid, s, a)) && Next(cid, s, a).records == s.records
    ensures a.m in Next(cid, s, a).plans <==> Reconciled(a.listing, a.me).Some?
  {
    if Reconciled(a.listing, a.me).Some? { PlanIsOk(cid, s, a.listing, a.me, a.m); }
  }

  /** A body of machine m put where nothing or a record of m is stored. */
  lemma WriteOne(cid: CidOf, s: Fleet, m: string, rkey: string, body: Json)
    requires FleetOk(cid, s) && Fingerprint(body) == Some(m)
    requires rkey in s.records ==> Fingerprint(s.records[rkey]) == Some(m)
    ensures FleetOk(cid, s.(records := s.records[rkey := body]))
    ensures forall n :: n != m ==> RecordsOf(s.(records := s.records[rkey := body]), n) == RecordsOf(s, n)
  {}

  lemma OtherActs(cid: CidOf, s: Fleet, a: Act)
    requires Injective(cid) && FleetOk(cid, s) && !a.Delete? && !a.PutRecord? && Possible(cid, s, a)
    ensures FleetOk(cid, Next(cid, s, a))
    ensures forall m :: m != a.m ==> RecordsOf(Next(cid, s, a), m) == RecordsOf(s, m)
  {
    match a
    case List(_, _, _) => ListOne(cid, s, a);
    case Create(m, rkey, patch) => WriteOne(cid, s, m, rkey, Object(patch));
    case OwnerEdit(m, rkey, edits) =>
      StampedAfterEdit(s.records[rkey], edits);
      WriteOne(cid, s, m, rkey, Object(Edited(FieldsOf(s.records[rkey]), edits)));
  }

  // ---------------------------------------------------------------- every run

  /** Over any run in which machine m does not act and its records are not edited by the owner, its
      records stay exactly as they were, whatever the other machines do. */
  lemma {:induction false} OthersNeverTouchMine(cid: CidOf, s: Fleet, acts: seq<Act>, m: string)
    requires Injective(cid) && FleetOk(cid, s) && Legal(cid, s, acts)
    requires forall i :: 0 <= i < |acts| ==> acts[i].m != m
    ensures RecordsOf(Run(cid, s, acts), m) == RecordsOf(s, m)
    ensures FleetOk(cid, Run(cid, s, acts))
    decreases |acts|
  {
    if acts != [] {
      var a := acts[0];
      if a.Delete? { DeleteOne(cid, s, a); }
      else if a.PutRecord? { PutOne(cid, s, a); }
      else { OtherActs(cid, s, a); }
      OthersNeverTouchMine(cid, Next(cid, s, a), acts[1..], m);
    }
  }

  /** Nor does a machine take settings from another's record: what its base holds under an owner key
      comes from a record with its own fingerprint. */
  lemma HarvestStaysHome(cid: CidOf, s: Fleet, listing: seq<Listed>, me: Machine, key: string)
    requires AllStamped(s.records) && Shows(cid, s.records, listing)
    requires me.machineFingerprint.Some? && Reconciled(listing, me).Some? && Owned(key)
    requires Get(FieldsOf(Reconciled(listing, me).value.base), key).Some?
    ensures exists rkey :: (
      && rkey in s.records && Fingerprint(s.records[rkey]) == me.machineFingerprint
      && Get(FieldsOf(s.records[rkey]), key) == Get(FieldsOf(Reconciled(listing, me).value.base), key))
  {
    var v := Get(FieldsOf(Reconciled(listing, me).value.base), key);
    var canonical := AdoptedFrom(listing, me);
    AdoptedIsListed(Newest(Ours(listing, me)), me);
    NewestMembers(Ours(listing, me), canonical);
    OursCarryOurFingerprint(listing, me, canonical);
    assert Setting(canonical, key) == Get(FieldsOf(s.records[canonical.rkey]), key);
    assert canonical.value.Object?;
    OwnerChoicesAreCarried(listing, me, key);
    if v != Setting(canonical, key) {
      var rec :| rec in Ours(listing, me) && IsSet(Setting(rec, key)) && v == Setting(rec, key);
      OursCarryOurFingerprint(listing, me, rec);
      assert Setting(rec, key) == Get(FieldsOf(s.records[rec.rkey]), key);
    }
  }
}
