/** All jobs of one provider at once: the invocation manager with its shared limits and timers, and for
    each session its own stream to the advisor. Every joint run projects to a legal run of the manager
    and, for each session, to a run of its stream. So the manager's assumption on resume verdicts
    always holds, and what is proved about one stream holds for every session. */
module ManagerStreams {
  import opened Wrappers
  import opened ReplayJob
  import opened InvocationManagers
  import opened AdvisorSessions
  import M = ManagerRuns
  import D = StreamDelivery
  import StreamSafety

  /** One world per session ever admitted, each with its own view of the connection. */
  datatype Joint = Joint(system: M.System, worlds: map<string, D.World>, connected: bool)

  /** A manager event; a new connection; or an event of one session's link or of the advisor. */
  datatype Move = Manage(e: M.Event) | Connect | Link(session: string, event: D.Event)

  const INITIAL: Joint := Joint(M.INITIAL, map[], true)

  // ---------------------------------------------------------------- one move

  /** What the handler emitted, and whether it is numbered as the handler numbers. */
  function OutputOf(decoded: Option<Message>): D.Output {
    match decoded
    case None => D.Garbled
    case Some(Chunk(_, body)) => D.Delta(body)
    case Some(Complete(summary, _)) => D.Finish(summary)
    case Some(Keepalive) => D.Alive
    case Some(Unbuffered) => D.Ignored
  }

  predicate Numbered(decoded: Option<Message>, w: D.World) {
    decoded == D.MessageOf(OutputOf(decoded), w.handlerSeq)
  }

  /** The next reply that the connection brings for this session. */
  predicate NextReply(j: Joint, session: string, token: string, reply: Reply) {
    && session in j.worlds && j.connected
    && j.worlds[session].down != [] && j.worlds[session].down[0] == reply
    && (session in j.system.jobs ==> j.system.jobs[session].resumeToken == token)
  }

  /** What may happen. Nothing is assumed about the marks that a reply carries. */
  predicate Possible(j: Joint, m: Move) {
    match m
    case Connect => !j.connected
    case Link(session, f) =>
      session in j.worlds && (f.Deliver? || f.LoseTail? || f.AdvisorClose? || f.SessionExpired?)
    case Manage(e) =>
      match e
      case Resumed(session, token, status, nextSeq) => NextReply(j, session, token, Verdict(status, nextSeq))
      case Acked(session, token, nextSeq, completed) => NextReply(j, session, token, Ack(nextSeq, completed))
      case Offer(session, decoded) =>
        M.Enabled(j.system, e) && session in j.worlds && Numbered(decoded, j.worlds[session])
      case Admit(_, _) => M.Enabled(j.system, e) && j.connected
      case Drain => j.connected
      case Disconnect => j.connected
      case _ => M.Enabled(j.system, e)
  }

  ghost function Advance(enc: Encoder, hash: string -> nat, worlds: map<string, D.World>, k: string, f: D.Event)
    : map<string, D.World>
  {
    if k in worlds then worlds[k := D.Step(enc, hash, worlds[k], f)] else worlds
  }

  ghost function AdvanceAll(enc: Encoder, hash: string -> nat, worlds: map<string, D.World>, f: D.Event)
    : map<string, D.World>
  {
    map k | k in worlds :: D.Step(enc, hash, worlds[k], f)
  }

  /** What a manager event means for the streams. */
  ghost function Mirrored(enc: Encoder, hash: string -> nat, j: Joint, e: M.Event): map<string, D.World> {
    match e
    case Admit(session, token) =>
      if session in j.system.jobs || |j.system.jobs| >= MAX_JOBS then j.worlds
      else j.worlds[session := D.Initial(token)]
    case Offer(session, decoded) =>
      Advance(enc, hash, j.worlds, session, D.Produce(OutputOf(decoded), TotalBytes(j.system.jobs)))
    case HandlerDone(session) => Advance(enc, hash, j.worlds, session, D.HandlerDone)
    case HandlerPanicked(session) => Advance(enc, hash, j.worlds, session, D.HandlerPanicked)
    case Resumed(session, _, _, _) => Advance(enc, hash, j.worlds, session, D.Receive)
    case Acked(session, _, _, _) => Advance(enc, hash, j.worlds, session, D.Receive)
    case Drain => AdvanceAll(enc, hash, j.worlds, D.Drain)
    case Disconnect => AdvanceAll(enc, hash, j.worlds, D.Disconnect)
    case Fire(armed) =>
      if Expires(j.system.jobs, armed.timer)
      then Advance(enc, hash, j.worlds, armed.timer.session, D.TimerExpired)
      else j.worlds
    case Tick => j.worlds
  }

  ghost function Next(enc: Encoder, hash: string -> nat, j: Joint, m: Move): Joint {
    match m
    case Connect => j.(worlds := AdvanceAll(enc, hash, j.worlds, D.Connect), connected := true)
    case Link(session, f) => j.(worlds := Advance(enc, hash, j.worlds, session, f))
    case Manage(e) =>
      Joint(M.Apply(enc, j.system, e), Mirrored(enc, hash, j, e), j.connected && !e.Disconnect?)
  }

  ghost function Run(enc: Encoder, hash: string -> nat, moves: seq<Move>): Joint {
    if moves == [] then INITIAL
    else Next(enc, hash, Run(enc, hash, moves[..|moves| - 1]), moves[|moves| - 1])
  }

  ghost predicate Legal(enc: Encoder, hash: string -> nat, moves: seq<Move>) {
    moves != [] ==>
      && Legal(enc, hash, moves[..|moves| - 1])
      && Possible(Run(enc, hash, moves[..|moves| - 1]), moves[|moves| - 1])
  }

  // ---------------------------------------------------------------- what every reachable state satisfies

  /** Some run of the single-session protocol ends in this world. */
  ghost predicate Reachable(enc: Encoder, hash: string -> nat, w: D.World) {
    exists token, events :: w == D.Run(enc, hash, token, events)
  }

  lemma StepIsReachable(enc: Encoder, hash: string -> nat, w: D.World, f: D.Event)
    requires Reachable(enc, hash, w)
    ensures Reachable(enc, hash, D.Step(enc, hash, w, f))
  {
    var token, events :| w == D.Run(enc, hash, token, events);
    assert (events + [f])[..|events|] == events;
    assert D.Step(enc, hash, w, f) == D.Run(enc, hash, token, events + [f]);
  }

  lemma InitialIsReachable(enc: Encoder, hash: string -> nat, token: string)
    ensures Reachable(enc, hash, D.Initial(token))
  {
    assert D.Initial(token) == D.Run(enc, hash, token, []);
  }

  lemma ReachableIsSafe(enc: Encoder, hash: string -> nat, w: D.World)
    requires Reachable(enc, hash, w)
    ensures D.Safe(w, hash)
  {
    var token, events :| w == D.Run(enc, hash, token, events);
    StreamSafety.AlwaysSafe(enc, hash, token, events);
  }

  /** The manager's view of a session and its stream agree. */
  ghost predicate Agrees(
      enc: Encoder, hash: string -> nat, jobs: Jobs, running: set<string>, connected: bool, k: string, w: D.World)
  {
    && Reachable(enc, hash, w)
    && w.job == (if k in jobs then Some(jobs[k]) else None)
    && w.running == (k in running)
    && w.socket.Some? == connected
  }

  ghost predicate AllAgree(enc: Encoder, hash: string -> nat, j: Joint) {
    && j.system.jobs.Keys <= j.system.started && j.system.running <= j.system.started
    && j.worlds.Keys == j.system.started
    && forall k :: k in j.worlds ==>
         Agrees(enc, hash, j.system.jobs, j.system.running, j.connected, k, j.worlds[k])
  }

  ghost predicate SameElsewhere(s: M.System, t: M.System, k: string) {
    && (forall i :: i != k ==> (i in t.jobs <==> i in s.jobs) && (i in t.running <==> i in s.running))
    && (forall i :: i != k && i in t.jobs ==> t.jobs[i] == s.jobs[i])
  }

  /** A session that moves or joins leaves the others as they are. */
  lemma OneSessionMoves(enc: Encoder, hash: string -> nat, j: Joint, k: string, w: D.World, s: M.System)
    requires AllAgree(enc, hash, j) && SameElsewhere(j.system, s, k) && s.started == j.system.started + {k}
    requires Agrees(enc, hash, s.jobs, s.running, j.connected, k, w)
    ensures AllAgree(enc, hash, Joint(s, j.worlds[k := w], j.connected))
  {}

  lemma SocketStays(enc: Encoder, hash: string -> nat, w: D.World, f: D.Event)
    requires !f.Connect? && !f.Disconnect?
    ensures D.Step(enc, hash, w, f).socket == w.socket
  {}

  lemma StepAgrees(enc: Encoder, hash: string -> nat, j: Joint, k: string, f: D.Event, s: M.System)
    requires AllAgree(enc, hash, j) && k in j.worlds
    requires SameElsewhere(j.system, s, k) && s.started == j.system.started
    requires !f.Connect? && !f.Disconnect?
    requires var w := D.Step(enc, hash, j.worlds[k], f);
      w.job == (if k in s.jobs then Some(s.jobs[k]) else None) && w.running == (k in s.running)
    ensures AllAgree(enc, hash, Joint(s, Advance(enc, hash, j.worlds, k, f), j.connected))
  {
    SocketStays(enc, hash, j.worlds[k], f);
    StepIsReachable(enc, hash, j.worlds[k], f);
    OneSessionMoves(enc, hash, j, k, D.Step(enc, hash, j.worlds[k], f), s);
  }

  lemma OfferAgrees(enc: Encoder, hash: string -> nat, j: Joint, e: M.Event)
    requires AllAgree(enc, hash, j) && e.Offer? && Possible(j, Manage(e))
    ensures AllAgree(enc, hash, Next(enc, hash, j, Manage(e)))
  {
    StepAgrees(enc, hash, j, e.session, D.Produce(OutputOf(e.decoded), TotalBytes(j.system.jobs)),
      M.Apply(enc, j.system, e));
  }

  lemma HandlerAgrees(enc: Encoder, hash: string -> nat, j: Joint, e: M.Event)
    requires AllAgree(enc, hash, j) && (e.HandlerDone? || e.HandlerPanicked?) && Possible(j, Manage(e))
    ensures AllAgree(enc, hash, Next(enc, hash, j, Manage(e)))
  {
    var s := M.Apply(enc, j.system, e);
    assert e.session in j.worlds;
    if e.HandlerDone? { StepAgrees(enc, hash, j, e.session, D.HandlerDone, s); }
    else { StepAgrees(enc, hash, j, e.session, D.HandlerPanicked, s); }
  }

  lemma ResumedAgrees(enc: Encoder, hash: string -> nat, j: Joint, e: M.Event)
    requires AllAgree(enc, hash, j) && e.Resumed? && Possible(j, Manage(e))
    ensures AllAgree(enc, hash, Next(enc, hash, j, Manage(e)))
  {
    StepAgrees(enc, hash, j, e.session, D.Receive, M.Apply(enc, j.system, e));
  }

  lemma AckedAgrees(enc: Encoder, hash: string -> nat, j: Joint, e: M.Event)
    requires AllAgree(enc, hash, j) && e.Acked? && Possible(j, Manage(e))
    ensures AllAgree(enc, hash, Next(enc, hash, j, Manage(e)))
  {
    StepAgrees(enc, hash, j, e.session, D.Receive, M.Apply(enc, j.system, e));
  }

  lemma FireAgrees(enc: Encoder, hash: string -> nat, j: Joint, e: M.Event)
    requires AllAgree(enc, hash, j) && e.Fire?
    ensures AllAgree(enc, hash, Next(enc, hash, j, Manage(e)))
  {
    var k := e.armed.timer.session;
    if Expires(j.system.jobs, e.armed.timer) {
      assert k in j.worlds;
      StepAgrees(enc, hash, j, k, D.TimerExpired, M.Apply(enc, j.system, e));
    }
  }

  lemma AdmitAgrees(enc: Encoder, hash: string -> nat, j: Joint, e: M.Event)
    requires AllAgree(enc, hash, j) && e.Admit? && Possible(j, Manage(e))
    ensures AllAgree(enc, hash, Next(enc, hash, j, Manage(e)))
  {
    var s := M.Apply(enc, j.system, e);
    if s != j.system {
      InitialIsReachable(enc, hash, e.token);
      OneSessionMoves(enc, hash, j, e.session, D.Initial(e.token), s);
    }
  }

  lemma DrainAgrees(enc: Encoder, hash: string -> nat, j: Joint)
    requires AllAgree(enc, hash, j) && j.connected
    ensures AllAgree(enc, hash, Next(enc, hash, j, Manage(M.Drain)))
  {
    var t := Next(enc, hash, j, Manage(M.Drain));
    forall k | k in t.worlds ensures Agrees(enc, hash, t.system.jobs, t.system.running, true, k, t.worlds[k]) {
      StepIsReachable(enc, hash, j.worlds[k], D.Drain);
      ReachableIsSafe(enc, hash, j.worlds[k]);
    }
  }

  lemma DisconnectAgrees(enc: Encoder, hash: string -> nat, j: Joint)
    requires AllAgree(enc, hash, j) && j.connected
    ensures AllAgree(enc, hash, Next(enc, hash, j, Manage(M.Disconnect)))
  {
    var t := Next(enc, hash, j, Manage(M.Disconnect));
    forall k | k in t.worlds ensures Agrees(enc, hash, t.system.jobs, t.system.running, false, k, t.worlds[k]) {
      StepIsReachable(enc, hash, j.worlds[k], D.Disconnect);
    }
  }

  lemma ConnectAgrees(enc: Encoder, hash: string -> nat, j: Joint)
    requires AllAgree(enc, hash, j) && !j.connected
    ensures AllAgree(enc, hash, Next(enc, hash, j, Connect))
  {
    var t := Next(enc, hash, j, Connect);
    forall k | k in t.worlds ensures Agrees(enc, hash, t.system.jobs, t.system.running, true, k, t.worlds[k]) {
      StepIsReachable(enc, hash, j.worlds[k], D.Connect);
    }
  }

  lemma LinkAgrees(enc: Encoder, hash: string -> nat, j: Joint, k: string, f: D.Event)
    requires AllAgree(enc, hash, j) && Possible(j, Link(k, f))
    ensures AllAgree(enc, hash, Next(enc, hash, j, Link(k, f)))
  {
    StepAgrees(enc, hash, j, k, f, j.system);
  }

  lemma MoveAgrees(enc: Encoder, hash: string -> nat, j: Joint, m: Move)
    requires AllAgree(enc, hash, j) && Possible(j, m)
    ensures AllAgree(enc, hash, Next(enc, hash, j, m))
  {
    match m
    case Connect => ConnectAgrees(enc, hash, j);
    case Link(k, f) => LinkAgrees(enc, hash, j, k, f);
    case Manage(e) =>
      match e {
        case Admit(_, _) => AdmitAgrees(enc, hash, j, e);
        case Offer(_, _) => OfferAgrees(enc, hash, j, e);
        case HandlerDone(_) => HandlerAgrees(enc, hash, j, e);
        case HandlerPanicked(_) => HandlerAgrees(enc, hash, j, e);
        case Resumed(_, _, _, _) => ResumedAgrees(enc, hash, j, e);
        case Acked(_, _, _, _) => AckedAgrees(enc, hash, j, e);
        case Drain => DrainAgrees(enc, hash, j);
        case Disconnect => DisconnectAgrees(enc, hash, j);
        case Fire(_) => FireAgrees(enc, hash, j, e);
        case Tick =>
      }
  }

  // ---------------------------------------------------------------- the manager's run

  /** A reply that the connection brings never falls behind an acknowledgment. */
  lemma ManagerIsEnabled(enc: Encoder, hash: string -> nat, j: Joint, e: M.Event)
    requires AllAgree(enc, hash, j) && Possible(j, Manage(e))
    ensures M.Enabled(j.system, e)
  {
    if e.Resumed? && e.session in j.system.jobs {
      ReachableIsSafe(enc, hash, j.worlds[e.session]);
    }
  }

  function EventsOf(moves: seq<Move>): seq<M.Event> {
    if moves == [] then []
    else EventsOf(moves[..|moves| - 1]) + if moves[|moves| - 1].Manage? then [moves[|moves| - 1].e] else []
  }

  lemma ManagerRunsOn(enc: Encoder, events: seq<M.Event>, e: M.Event)
    requires M.Legal(enc, events) && M.Enabled(M.Run(enc, events), e)
    ensures M.Legal(enc, events + [e]) && M.Run(enc, events + [e]) == M.Apply(enc, M.Run(enc, events), e)
  {
    assert (events + [e])[..|events|] == events;
  }

  lemma {:induction false} AlwaysAgree(enc: Encoder, hash: string -> nat, moves: seq<Move>)
    requires Legal(enc, hash, moves)
    ensures AllAgree(enc, hash, Run(enc, hash, moves))
  {
    if moves != [] {
      AlwaysAgree(enc, hash, moves[..|moves| - 1]);
      MoveAgrees(enc, hash, Run(enc, hash, moves[..|moves| - 1]), moves[|moves| - 1]);
    }
  }

  /** The manager's part of a joint run is a legal run of the manager. */
  ghost predicate Projects(enc: Encoder, events: seq<M.Event>, s: M.System) {
    M.Legal(enc, events) && M.Run(enc, events) == s
  }

  lemma MoveProjects(enc: Encoder, hash: string -> nat, j: Joint, m: Move, events: seq<M.Event>)
    requires AllAgree(enc, hash, j) && Possible(j, m) && Projects(enc, events, j.system)
    ensures Projects(enc, events + if m.Manage? then [m.e] else [], Next(enc, hash, j, m).system)
  {
    if m.Manage? {
      ManagerIsEnabled(enc, hash, j, m.e);
      ManagerRunsOn(enc, events, m.e);
    } else {
      assert events + [] == events;
    }
  }

  lemma {:induction false} RunProjects(enc: Encoder, hash: string -> nat, moves: seq<Move>)
    requires Legal(enc, hash, moves)
    ensures Projects(enc, EventsOf(moves), Run(enc, hash, moves).system)
  {
    if moves != [] {
      var before := moves[..|moves| - 1];
      RunProjects(enc, hash, before);
      AlwaysAgree(enc, hash, before);
      MoveProjects(enc, hash, Run(enc, hash, before), moves[|moves| - 1], EventsOf(before));
    }
  }

  /** Every joint run is a legal run of the manager, in which each session's job is that of a run of
      its stream. */
  lemma EverySessionIsAStream(enc: Encoder, hash: string -> nat, moves: seq<Move>)
    requires Legal(enc, hash, moves)
    ensures var j := Run(enc, hash, moves);
      && M.Legal(enc, EventsOf(moves)) && M.Run(enc, EventsOf(moves)) == j.system
      && j.worlds.Keys == j.system.started
      && (forall k :: k in j.worlds ==> Agrees(enc, hash, j.system.jobs, j.system.running, j.connected, k, j.worlds[k]))
  {
    AlwaysAgree(enc, hash, moves);
    RunProjects(enc, hash, moves);
  }

  /** So every requester of a provider that serves many jobs under one table has a gap-free prefix of
      what its own job produced. */
  lemma EveryRequesterHasAPrefix(enc: Encoder, hash: string -> nat, moves: seq<Move>, k: string)
    requires Legal(enc, hash, moves) && k in Run(enc, hash, moves).worlds
    ensures var w := Run(enc, hash, moves).worlds[k];
      && w.relayed.bodies <= w.produced
      && (w.relayed.ending == Some(Finished) ==> w.relayed.bodies == w.produced && !w.running)
  {
    AlwaysAgree(enc, hash, moves);
    var w := Run(enc, hash, moves).worlds[k];
    var token, events :| w == D.Run(enc, hash, token, events);
    StreamSafety.DeliveredIsPrefix(enc, hash, token, events);
  }
}
