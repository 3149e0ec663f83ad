/** One provider record with several writers: the owner edits settings, agents publish by merging,
    and advisor-fault patches change one field. Agents and patches read, compute and put under a
    compare-and-swap on the content identifier (cid) that they read, a bounded number of times; any
    request may fail, with or without having been carried out.
    Every run is equivalent to doing the committed writes one after the other. */
module RecordStore {
  import opened Wrappers
  import opened CanonicalJson
  import opened FieldMerge

  const PATCH_ATTEMPTS: nat := 4
  const PUBLISH_ATTEMPTS: nat := 6

  /** The identifier of a body is derived from its content. */
  type CidOf = Json -> string

  ghost predicate Injective(cid: CidOf) {
    forall a, b :: cid(a) == cid(b) ==> a == b
  }

  // ---------------------------------------------------------------- one write

  datatype AdvisorFault = AdvisorFault(code: string, message: string, observedAt: string)

  function FaultJson(fault: AdvisorFault): Json {
    Object(map[
      "code" := String(fault.code), "message" := String(fault.message), "observedAt" := String(fault.observedAt)])
  }

  function FaultField(fault: Option<AdvisorFault>): Option<Json> {
    match fault
    case Some(f) => Some(FaultJson(f))
    case None => None
  }

  function WithFault(body: Json, fault: Option<AdvisorFault>): Json {
    match fault
    case Some(f) => Object(FieldsOf(body)[ADVISOR_FAULT := FaultJson(f)])
    case None => Object(FieldsOf(body) - {ADVISOR_FAULT})
  }

  function CodeOf(published: Option<Json>): Option<string> {
    if published.Some? then
      match Get(FieldsOf(published.value), "code")
      case Some(String(code)) => Some(code)
      case _ => None
    else None
  }

  /** The record already carries the wanted state; faults are compared by code only. */
  predicate Unchanged(body: Json, fault: Option<AdvisorFault>) {
    var existing := Get(FieldsOf(body), ADVISOR_FAULT);
    match fault
    case Some(f) => CodeOf(existing) == Some(f.code)
    case None => existing == None
  }

  lemma WithFaultChangesOneKey(body: Json, fault: Option<AdvisorFault>, key: string)
    ensures Get(FieldsOf(WithFault(body, fault)), key) ==
      if key == ADVISOR_FAULT then FaultField(fault) else Get(FieldsOf(body), key)
  {}

  /** A fault is stored with its code, its message and the time of its observation. */
  lemma FaultIsStored(body: Json, f: AdvisorFault)
    ensures Get(FieldsOf(WithFault(body, Some(f))), "advisorFault") == Some(Object(map[
      "code" := String(f.code), "message" := String(f.message), "observedAt" := String(f.observedAt)]))
    ensures Get(FieldsOf(WithFault(body, None)), "advisorFault") == None
  {}

  /** A patch is skipped when the stored fault is an object with the same code, whatever else it says, and
      a clearing only when there is no fault of any shape. */
  lemma UnchangedMeans(body: Json, f: AdvisorFault)
    ensures var stored := Get(FieldsOf(body), "advisorFault");
      && (Unchanged(body, Some(f)) <==>
            stored.Some? && stored.value.Object? && Get(stored.value.fields, "code") == Some(String(f.code)))
      && (Unchanged(body, None) <==> !body.Object? || "advisorFault" !in body.fields)
  {}

  lemma CodeOfFault(f: AdvisorFault)
    ensures CodeOf(Some(FaultJson(f))) == Some(f.code)
  {}

  /** After a patch, a patch to any fault with the same code has nothing to do, and any other has. */
  lemma PatchedIsUnchanged(body: Json, fault: Option<AdvisorFault>, next: Option<AdvisorFault>)
    ensures Unchanged(WithFault(body, fault), next) <==>
      match (fault, next) {
        case (Some(f), Some(g)) => f.code == g.code
        case (None, None) => true
        case _ => false
      }
  {
    WithFaultChangesOneKey(body, fault, ADVISOR_FAULT);
    if fault.Some? { CodeOfFault(fault.value); }
  }

  // ---------------------------------------------------------------- the retry loop of one patch

  /** What becomes of a request: it is carried out and answered, it is not carried out, or it is
      carried out and the answer is lost. In the last two cases the caller sees an error that is no
      swap conflict. */
  datatype Fate = Answered | Lost | Unanswered

  datatype Listing = Unreadable | Missing | Holds(body: Json)

  /** What one attempt meets: the listing it gets, the record stored when its put arrives, if any,
      and the fate of that put. */
  datatype Attempt = Attempt(listing: Listing, stored: Option<Json>, fate: Fate)

  datatype PatchError = NotFound | SwapConflict | RequestFailed

  predicate Matches(cid: CidOf, a: Attempt) {
    a.listing.Holds? && a.stored.Some? && cid(a.listing.body) == cid(a.stored.value)
  }

  /** The attempt sends its put, and is told that another version is stored. */
  predicate Conflicts(cid: CidOf, a: Attempt, fault: Option<AdvisorFault>) {
    a.listing.Holds? && !Unchanged(a.listing.body, fault) && a.fate.Answered? && !Matches(cid, a)
  }

  /** The loop goes on only after a swap conflict, and writes at most once, at the last attempt it
      made: there it found the record it had read still stored, and changed the one field. It stops
      early when the record is gone or already as wanted, or when a request fails. */
  method PatchProviderAdvisorFault(cid: CidOf, fault: Option<AdvisorFault>, attempts: seq<Attempt>)
    returns (result: Result<bool, PatchError>, written: Option<Json>, made: nat)
    requires Injective(cid) && |attempts| == 4
    ensures 1 <= made <= 4
    ensures forall i :: 0 <= i < made - 1 ==> Conflicts(cid, attempts[i], fault)
    ensures var last := attempts[made - 1];
      match result {
        case Ok(true) =>
          && last.listing.Holds? && last.stored == Some(last.listing.body) && last.fate.Answered?
          && !Unchanged(last.listing.body, fault) && written == Some(WithFault(last.listing.body, fault))
        case Ok(false) => written == None && last.listing.Holds? && Unchanged(last.listing.body, fault)
        case Err(NotFound) => written == None && last.listing.Missing?
        case Err(SwapConflict) => written == None && made == 4 && Conflicts(cid, last, fault)
        case Err(RequestFailed) =>
          || (last.listing.Unreadable? && written == None)
          || (&& last.listing.Holds? && !Unchanged(last.listing.body, fault) && !last.fate.Answered?
              && written == if last.fate.Unanswered? && last.stored == Some(last.listing.body)
                            then Some(WithFault(last.listing.body, fault)) else None)
      }
  {
    for attempt := 1 to PATCH_ATTEMPTS + 1
      invariant forall i :: 0 <= i < attempt - 1 ==> Conflicts(cid, attempts[i], fault)
      invariant attempt <= PATCH_ATTEMPTS
    {
      var now := attempts[attempt - 1];
      if now.listing.Unreadable? { return Err(RequestFailed), None, attempt; }
      if now.listing.Missing? { return Err(NotFound), None, attempt; }
      var body := now.listing.body;
      if Unchanged(body, fault) { return Ok(false), None, attempt; }
      var patched := WithFault(body, fault);
      written := if !now.fate.Lost? && Matches(cid, now) then Some(patched) else None;
      if !now.fate.Answered? { return Err(RequestFailed), written, attempt; }
      if written.Some? { return Ok(true), written, attempt; }
      if attempt == PATCH_ATTEMPTS { return Err(SwapConflict), None, attempt; }
    }
    assert false;
  }

  // ---------------------------------------------------------------- all writers together

  datatype Task = Patch(fault: Option<AdvisorFault>) | Publish(agent: Fields)

  function Limit(task: Task): nat {
    if task.Patch? then PATCH_ATTEMPTS else PUBLISH_ATTEMPTS
  }

  datatype Writer =
    | Reading(task: Task, attempt: nat)
    | Putting(task: Task, attempt: nat, snapshot: Json)
    | Done(task: Task, wrote: bool)  // whether a put was carried out, answered or not

  datatype Write = Owner(edits: map<string, Option<Json>>) | Agent(task: Task)

  /** `log` and `puts` observe the run: the committed writes, and how many puts each writer sent. */
  datatype Store = Store(body: Json, writers: map<nat, Writer>, log: seq<Write>, puts: map<nat, nat>)

  datatype Event =
    | OwnerEdits(edits: map<string, Option<Json>>)
    | Arrive(id: nat, task: Task)
    | Read(id: nat)
    | ReadFails(id: nat)
    | Put(id: nat, fate: Fate)

  function Written(body: Json, w: Write): Json {
    match w
    case Owner(edits) => Object(Edited(FieldsOf(body), edits))
    case Agent(Patch(fault)) => WithFault(body, fault)
    case Agent(Publish(agent)) => Object(Merged(FieldsOf(body), agent))
  }

  predicate Enabled(s: Store, e: Event) {
    match e
    case OwnerEdits(edits) => true
    case Arrive(id, _) => id !in s.writers
    case Read(id) => id in s.writers && s.writers[id].Reading?
    case ReadFails(id) => id in s.writers && s.writers[id].Reading?
    case Put(id, _) => id in s.writers && s.writers[id].Putting?
  }

  function PutsOf(s: Store, id: nat): nat {
    if id in s.puts then s.puts[id] else 0
  }

  /** A put that is told of another version: try again, or give up on the last attempt. */
  function Refused(w: Writer): Writer
    requires w.Putting?
  {
    if w.attempt < Limit(w.task) then Reading(w.task, w.attempt + 1) else Done(w.task, false)
  }

  function Step(cid: CidOf, s: Store, e: Event): Store
    requires Enabled(s, e)
  {
    match e
    case OwnerEdits(edits) => s.(body := Written(s.body, Owner(edits)), log := s.log + [Owner(edits)])
    case Arrive(id, task) => s.(writers := s.writers[id := Reading(task, 1)])
    case Read(id) =>
      var w := s.writers[id];
      if w.task.Patch? && Unchanged(s.body, w.task.fault) then s.(writers := s.writers[id := Done(w.task, false)])
      else s.(writers := s.writers[id := Putting(w.task, w.attempt, s.body)])
    case ReadFails(id) => s.(writers := s.writers[id := Done(s.writers[id].task, false)])
    case Put(id, fate) =>
      var w := s.writers[id];
      var sent := s.(puts := s.puts[id := PutsOf(s, id) + 1]);
      if fate.Lost? then sent.(writers := s.writers[id := Done(w.task, false)])
      else if cid(s.body) == cid(w.snapshot) then
        sent.(
          body := Written(w.snapshot, Agent(w.task)),
          log := s.log + [Agent(w.task)],
          writers := s.writers[id := Done(w.task, true)])
      else sent.(writers := s.writers[id := if fate.Answered? then Refused(w) else Done(w.task, false)])
  }

  ghost predicate Legal(cid: CidOf, s: Store, events: seq<Event>)
    decreases |events|
  {
    events == [] || (Enabled(s, events[0]) && Legal(cid, Step(cid, s, events[0]), events[1..]))
  }

  ghost function Run(cid: CidOf, s: Store, events: seq<Event>): Store
    requires Legal(cid, s, events)
    decreases |events|
  {
    if events == [] then s else Run(cid, Step(cid, s, events[0]), events[1..])
  }

  function Initial(body: Json): Store {
    Store(body, map[], [], map[])
  }

  /** The committed writes, done one after the other. */
  function Replay(body: Json, log: seq<Write>): Json {
    if log == [] then body else Written(Replay(body, log[..|log| - 1]), log[|log| - 1])
  }

  lemma ReplayMore(body: Json, log: seq<Write>, w: Write)
    ensures Replay(body, log + [w]) == Written(Replay(body, log), w)
  {
    assert (log + [w])[..|log|] == log;
  }

  // ---------------------------------------------------------------- serializability

  /** Every write takes effect on the record as it is at that instant, and a request that fails ends its
      writer. */
  lemma StepIsAtomic(cid: CidOf, s: Store, e: Event)
    requires Injective(cid) && Enabled(s, e)
    ensures var t := Step(cid, s, e);
      match e {
        case OwnerEdits(edits) => Wrote(s, t, Owner(edits))
        case Put(id, fate) =>
          if !fate.Lost? && cid(s.body) == cid(s.writers[id].snapshot) then Wrote(s, t, Agent(s.writers[id].task))
          else WroteNothing(s, t)
        case _ => WroteNothing(s, t)
      }
    ensures e.Put? && !e.fate.Answered? ==>
      var w := s.writers[e.id];
      Step(cid, s, e).writers[e.id] == Done(w.task, e.fate.Unanswered? && s.body == w.snapshot)
    ensures e.ReadFails? ==> Step(cid, s, e).writers[e.id] == Done(s.writers[e.id].task, false)
  {}

  predicate Wrote(s: Store, t: Store, w: Write) {
    t.body == Written(s.body, w) && t.log == s.log + [w]
  }

  predicate WroteNothing(s: Store, t: Store) {
    t.body == s.body && t.log == s.log
  }

  lemma {:induction false} RunIsSerial(cid: CidOf, start: Json, s: Store, events: seq<Event>)
    requires Injective(cid) && Legal(cid, s, events) && s.body == Replay(start, s.log)
    ensures var t := Run(cid, s, events); t.body == Replay(start, t.log)
    decreases |events|
  {
    if events != [] {
      var t := Step(cid, s, events[0]);
      StepIsAtomic(cid, s, events[0]);
      if t.log != s.log {
        var w :| Wrote(s, t, w);
        ReplayMore(start, s.log, w);
      }
      RunIsSerial(cid, start, t, events[1..]);
    }
  }

  /** In every interleaving the record is what the committed writes give one after the other. */
  lemma Serializable(cid: CidOf, body: Json, events: seq<Event>)
    requires Injective(cid) && Legal(cid, Initial(body), events)
    ensures var t := Run(cid, Initial(body), events); t.body == Replay(body, t.log)
  {
    RunIsSerial(cid, body, Initial(body), events);
  }

  // ---------------------------------------------------------------- who is not disturbed commits

  predicate IsOf(e: Event, id: nat) {
    !e.OwnerEdits? && e.id == id
  }

  lemma LogGrows(cid: CidOf, s: Store, e: Event)
    requires Enabled(s, e)
    ensures var t := Step(cid, s, e);
      |t.log| >= |s.log| && (|t.log| == |s.log| ==> t.log == s.log && t.body == s.body)
  {}

  lemma {:induction false} WithoutWrites(cid: CidOf, s: Store, events: seq<Event>, id: nat)
    requires Legal(cid, s, events) && id in s.writers && (forall e :: e in events ==> !IsOf(e, id))
    ensures var t := Run(cid, s, events);
      && |t.log| >= |s.log| && (|t.log| == |s.log| ==> t.log == s.log && t.body == s.body)
      && id in t.writers && t.writers[id] == s.writers[id] && PutsOf(t, id) == PutsOf(s, id)
    decreases |events|
  {
    if events != [] {
      LogGrows(cid, s, events[0]);
      assert events[0] in events && forall e :: e in events[1..] ==> e in events;
      WithoutWrites(cid, Step(cid, s, events[0]), events[1..], id);
    }
  }

  /** Whatever the others do between a writer's read and its put, as long as none of them commits a write:
      the put commits the writer's change of the record as it was read. A patch that finds its fault
      stored sends no put. */
  lemma UndisturbedWriterCommits(cid: CidOf, s: Store, id: nat, others: seq<Event>)
    requires Enabled(s, Read(id)) && (forall e :: e in others ==> !IsOf(e, id))
    requires var r := Step(cid, s, Read(id)); Legal(cid, r, others) && |Run(cid, r, others).log| == |s.log|
    ensures var task := s.writers[id].task;
      var t := Run(cid, Step(cid, s, Read(id)), others);
      && t.body == s.body && t.log == s.log && id in t.writers
      && if task.Patch? && Unchanged(s.body, task.fault) then t.writers[id] == Done(task, false)
         else
           && Enabled(t, Put(id, Answered))
           && var u := Step(cid, t, Put(id, Answered));
           Wrote(s, u, Agent(task)) && u.writers[id] == Done(task, true) && PutsOf(u, id) == PutsOf(s, id) + 1
  {
    WithoutWrites(cid, Step(cid, s, Read(id)), others, id);
  }

  /** The owner may edit at any time, and every edit is stored at once. */
  lemma OwnerEditsAtOnce(cid: CidOf, s: Store, edits: map<string, Option<Json>>, key: string)
    requires key in edits
    ensures Enabled(s, OwnerEdits(edits))
    ensures Get(FieldsOf(Step(cid, s, OwnerEdits(edits)).body), key) == edits[key]
  {
    EditedLookup(FieldsOf(s.body), edits, key);
  }

  // ---------------------------------------------------------------- no lost update

  ghost predicate OwnersOnly(edits: map<string, Option<Json>>) {
    forall k :: k in edits ==> Owned(k)
  }

  ghost predicate Disciplined(w: Write) {
    match w
    case Owner(edits) => OwnersOnly(edits)
    case Agent(Patch(_)) => true
    case Agent(Publish(agent)) => AgentRecord(agent)
  }

  ghost predicate AllDisciplined(log: seq<Write>) {
    forall i :: 0 <= i < |log| ==> Disciplined(log[i])
  }

  /** What the owner last committed under a key, if anything. */
  function LastOwner(log: seq<Write>, key: string): Option<Option<Json>> {
    if log == [] then None
    else
      var last := log[|log| - 1];
      if last.Owner? && key in last.edits then Some(last.edits[key]) else LastOwner(log[..|log| - 1], key)
  }

  /** The fault that the last committed patch wrote, if any patch committed. */
  function LastFault(log: seq<Write>): Option<Option<Json>> {
    if log == [] then None
    else
      var last := log[|log| - 1];
      if last.Agent? && last.task.Patch? then Some(FaultField(last.task.fault)) else LastFault(log[..|log| - 1])
  }

  function Else<T>(v: Option<T>, otherwise: T): T {
    if v.Some? then v.value else otherwise
  }

  lemma WriteKeeps(body: Json, w: Write, key: string)
    requires Disciplined(w) && NotAgents(key)
    ensures Get(FieldsOf(Written(body, w)), key) ==
      if w.Owner? && key in w.edits then w.edits[key]
      else if w.Agent? && w.task.Patch? && key == ADVISOR_FAULT then FaultField(w.task.fault)
      else Get(FieldsOf(body), key)
  {
    match w
    case Owner(edits) => EditedLookup(FieldsOf(body), edits, key);
    case Agent(Patch(fault)) => WithFaultChangesOneKey(body, fault, key);
    case Agent(Publish(agent)) => MergeKeepsOthers(FieldsOf(body), agent, key);
  }

  lemma {:induction false} ReplayKeepsOwner(body: Json, log: seq<Write>, key: string)
    requires AllDisciplined(log) && NotAgents(key) && key != ADVISOR_FAULT
    ensures Get(FieldsOf(Replay(body, log)), key) == Else(LastOwner(log, key), Get(FieldsOf(body), key))
  {
    if log != [] {
      var init := log[..|log| - 1];
      ReplayKeepsOwner(body, init, key);
      WriteKeeps(Replay(body, init), log[|log| - 1], key);
    }
  }

  lemma {:induction false} ReplayKeepsFault(body: Json, log: seq<Write>)
    requires AllDisciplined(log)
    ensures Get(FieldsOf(Replay(body, log)), ADVISOR_FAULT) == Else(LastFault(log), Get(FieldsOf(body), ADVISOR_FAULT))
  {
    FaultIsNotAgents();
    if log != [] {
      var init := log[..|log| - 1];
      ReplayKeepsFault(body, init);
      WriteKeeps(Replay(body, init), log[|log| - 1], ADVISOR_FAULT);
    }
  }

  ghost predicate WellBehaved(events: seq<Event>) {
    forall i :: 0 <= i < |events| ==>
      match events[i]
      case OwnerEdits(edits) => OwnersOnly(edits)
      case Arrive(_, task) => Disciplined(Agent(task))
      case _ => true
  }

  ghost predicate AllTasksDisciplined(s: Store) {
    AllDisciplined(s.log) && forall id :: id in s.writers ==> Disciplined(Agent(s.writers[id].task))
  }

  lemma {:induction false} RunStaysDisciplined(cid: CidOf, s: Store, events: seq<Event>)
    requires Legal(cid, s, events) && WellBehaved(events) && AllTasksDisciplined(s)
    ensures AllTasksDisciplined(Run(cid, s, events))
    decreases |events|
  {
    if events != [] {
      assert WellBehaved(events[1..]);
      assert AllTasksDisciplined(Step(cid, s, events[0]));
      RunStaysDisciplined(cid, Step(cid, s, events[0]), events[1..]);
    }
  }

  /** In every interleaving of owner edits, publishes and patches, each owner setting is what the
      owner last committed, unknown fields are as they were, and the advisor fault is what the last
      committed patch wrote. */
  lemma NoLostUpdate(cid: CidOf, body: Json, events: seq<Event>, key: string)
    requires Injective(cid) && Legal(cid, Initial(body), events) && WellBehaved(events) && NotAgents(key)
    ensures var t := Run(cid, Initial(body), events);
      Get(FieldsOf(t.body), key) ==
        Else(if key == ADVISOR_FAULT then LastFault(t.log) else LastOwner(t.log, key), Get(FieldsOf(body), key))
  {
    var t := Run(cid, Initial(body), events);
    Serializable(cid, body, events);
    RunStaysDisciplined(cid, Initial(body), events);
    if key == ADVISOR_FAULT { ReplayKeepsFault(body, t.log); }
    else { ReplayKeepsOwner(body, t.log, key); }
  }

  // ---------------------------------------------------------------- a bounded number of attempts

  ghost predicate Counted(s: Store) {
    forall id :: id in s.writers ==>
      match s.writers[id]
      case Done(task, wrote) => PutsOf(s, id) <= Limit(task) && (wrote ==> PutsOf(s, id) >= 1)
      case w => 1 <= w.attempt <= Limit(w.task) && PutsOf(s, id) == w.attempt - 1
  }

  ghost predicate NoStrayPuts(s: Store) {
    forall id :: id in s.puts ==> id in s.writers
  }

  lemma PutIsCounted(cid: CidOf, s: Store, e: Event)
    requires e.Put? && Enabled(s, e) && Counted(s) && NoStrayPuts(s)
    ensures Counted(Step(cid, s, e)) && NoStrayPuts(Step(cid, s, e))
  {
    var t := Step(cid, s, e);
    assert PutsOf(t, e.id) == PutsOf(s, e.id) + 1;
    assert forall id :: id != e.id ==> PutsOf(t, id) == PutsOf(s, id);
  }

  lemma StepIsCounted(cid: CidOf, s: Store, e: Event)
    requires Enabled(s, e) && Counted(s) && NoStrayPuts(s)
    ensures Counted(Step(cid, s, e)) && NoStrayPuts(Step(cid, s, e))
  {
    if e.Put? { PutIsCounted(cid, s, e); }
  }

  lemma {:induction false} RunIsCounted(cid: CidOf, s: Store, events: seq<Event>)
    requires Legal(cid, s, events) && Counted(s) && NoStrayPuts(s)
    ensures Counted(Run(cid, s, events)) && NoStrayPuts(Run(cid, s, events))
    decreases |events|
  {
    if events != [] {
      StepIsCounted(cid, s, events[0]);
      RunIsCounted(cid, Step(cid, s, events[0]), events[1..]);
    }
  }

  /** A writer that is told of another version goes on to its next attempt, unless that was the fourth of a
      patch or the sixth of a publish. */
  lemma ConflictsAreRetried(cid: CidOf, body: Json, events: seq<Event>, id: nat)
    requires Legal(cid, Initial(body), events) && Enabled(Run(cid, Initial(body), events), Put(id, Answered))
    requires var s := Run(cid, Initial(body), events); cid(s.body) != cid(s.writers[id].snapshot)
    ensures var s := Run(cid, Initial(body), events);
      var t := Step(cid, s, Put(id, Answered));
      && t.writers[id].task == s.writers[id].task && PutsOf(t, id) == PutsOf(s, id) + 1
      && (t.writers[id].Reading? <==> PutsOf(t, id) < if s.writers[id].task.Patch? then 4 else 6)
      && (!t.writers[id].Reading? ==> t.writers[id] == Done(s.writers[id].task, false))
  {
    RunIsCounted(cid, Initial(body), events);
  }

  /** No run makes a patch send more than four puts, or a publish more than six. */
  lemma AttemptsAreBounded(cid: CidOf, body: Json, events: seq<Event>, id: nat)
    requires Legal(cid, Initial(body), events) && id in Run(cid, Initial(body), events).writers
    ensures var t := Run(cid, Initial(body), events);
      PutsOf(t, id) <= if t.writers[id].task.Patch? then 4 else 6
  {
    RunIsCounted(cid, Initial(body), events);
  }
}
