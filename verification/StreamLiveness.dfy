/** Every connection that holds delivers. From any reachable world whose provider has a connection
    that the advisor has registered or is about to, every sequence of that connection's own steps
    (drain, deliver, receive) that each change something is finite, and when none is left the
    requester has everything produced, and the ending if the completion is buffered. */
module StreamLiveness {
  import opened Wrappers
  import opened ReplayJob
  import opened AdvisorSessions
  import opened StreamDelivery
  import opened StreamSafety
  import opened StreamProgress
  import opened StreamRecovery

  // ---------------------------------------------------------------- a connection that holds

  /** The steps of the provider's present connection while the requester stays connected. */
  predicate Own(w: World, e: Event) {
    w.socket.Some? && (e == Drain || e == Receive || e == Deliver(w.socket.value, false))
  }

  ghost predicate Moves(enc: Encoder, hash: string -> nat, w: World, e: Event) {
    Own(w, e) && Step(enc, hash, w, e) != w
  }

  ghost predicate AllMove(enc: Encoder, hash: string -> nat, w: World, events: seq<Event>)
    decreases |events|
  {
    events == [] || (Moves(enc, hash, w, events[0]) && AllMove(enc, hash, Step(enc, hash, w, events[0]), events[1..]))
  }

  ghost predicate Stuck(enc: Encoder, hash: string -> nat, w: World) {
    forall e :: !Moves(enc, hash, w, e)
  }

  /** The connection is registered, or its registration is on the way; a job that is gone has ended well. */
  ghost predicate Held(w: World, hash: string -> nat) {
    && Inv(w, hash) && w.socket.Some? && !w.session.Gone?
    && (w.registered == w.socket || (w.job.Some? && Register in w.up[w.socket.value]))
    && (w.job.None? ==> w.relayed.ending == Some(Finished))
  }

  // ---------------------------------------------------------------- the measure

  /** What the job may still send on this connection. */
  function Unsent(job: Job): nat {
    var from := if job.attached then job.sendSeq else job.ackedSeq;
    (if from < job.producedSeq then job.producedSeq - from else 0)
    + (if job.controls.Some? then 1 else 0)
    + (if job.completion.Some? && !(job.attached && job.completionSent) then 1 else 0)
  }

  /** An unsent message weighs more than its frame in flight, and a frame more than its reply. */
  function Work(w: World): nat
    requires w.socket.Some? && w.socket.value < |w.up|
  {
    3 * (if w.job.Some? then Unsent(w.job.value) else 0) + 2 * |w.up[w.socket.value]| + |w.down|
  }

  /** The stream goes on: the same things were produced, and a completion stays buffered. */
  ghost predicate SameJob(w: World, w': World) {
    && w'.produced == w.produced && w'.socket == w.socket
    && (w'.job.Some? ==> w.job.Some? && w'.job.value.completion == w.job.value.completion)
  }

  ghost predicate Progressed(w: World, w': World, hash: string -> nat) {
    && Held(w', hash) && SameJob(w, w')
    && w.socket.Some? && w.socket.value < |w.up| && Work(w') < Work(w)
  }

  // ---------------------------------------------------------------- draining

  lemma DrainSendsAll(job: Job, running: bool)
    requires JobOk(job, running) && job.attached
    ensures |DrainFrames(job)| == Unsent(job) && Unsent(Drained(job)) == 0
    ensures DrainFrames(job) == [] ==> Drained(job) == job
  {}

  lemma DrainProgresses(enc: Encoder, hash: string -> nat, w: World)
    requires Held(w, hash) && Moves(enc, hash, w, Drain)
    ensures Progressed(w, Step(enc, hash, w, Drain), hash)
  {
    StepKeepsInv(enc, hash, w, Drain);
    var k := w.socket.value;
    assert w.job.Some?;
    var job := w.job.value;
    if job.attached {
      DrainSendsAll(job, w.running);
      if DrainFrames(job) == [] { IdleDrain(enc, hash, w); }
      assert forall f :: f in w.up[k] ==> f in Step(enc, hash, w, Drain).up[k];
    } else {
      IdleDrain(enc, hash, w);
    }
  }

  lemma IdleDrain(enc: Encoder, hash: string -> nat, w: World)
    requires w.socket.Some? && w.socket.value < |w.up| && w.job.Some? && Contiguous(w.job.value)
    requires DrainFrames(w.job.value) == [] && Drained(w.job.value) == w.job.value
    ensures Step(enc, hash, w, Drain) == w
  {
    var k := w.socket.value;
    assert FramesOf(DrainFrames(w.job.value)) == [];
    assert w.up[k] + [] == w.up[k];
    assert w.up[k := w.up[k]] == w.up;
  }

  // ---------------------------------------------------------------- receiving

  lemma AckShrinksUnsent(job: Job, running: bool, token: string, nextSeq: nat, completed: bool)
    requires JobOk(job, running)
    ensures var job' := Acknowledge(job, token, nextSeq, completed);
      job'.Some? ==> Unsent(job'.value) <= Unsent(job)
  {}

  lemma VerdictShrinksUnsent(job: Job, running: bool, token: string, status: Status, nextSeq: nat)
    requires JobOk(job, running) && !job.attached && job.ackedSeq <= nextSeq
    ensures var job' := HandleResume(job, token, status, nextSeq);
      job'.Some? ==> Unsent(job'.value) <= Unsent(job)
  {}

  lemma ClaimsAreVisible(frames: seq<Up>)
    requires Registering(frames) || Claiming(frames)
    ensures exists p :: Claim(p) in frames
  {
    if Claiming(frames) {
      var p :| frames == [Claim(p)];
      assert frames[0] == Claim(p);
    } else {
      var p :| frames == [Register, Claim(p)];
      assert frames[1] == Claim(p);
    }
  }

  lemma NoClaimBesideReplies(w: World)
    requires ClaimOk(w) && w.socket.Some? && w.socket.value < |w.up| && w.down != []
    ensures !Registering(w.up[w.socket.value]) && !Claiming(w.up[w.socket.value])
  {
    if Registering(w.up[w.socket.value]) || Claiming(w.up[w.socket.value]) { ClaimsAreVisible(w.up[w.socket.value]); }
  }

  /** With a reply under way, the connection is registered and answered or streaming. */
  lemma RepliesMeanRegistered(w: World, hash: string -> nat)
    requires Held(w, hash) && w.job.Some? && w.down != []
    ensures w.registered == w.socket
    ensures var k := w.socket.value;
      Answered(w.job.value, w.up[k], w.down, w.session) || Streaming(w.job.value, w.up[k], w.down, w.session)
  {
    NoClaimBesideReplies(w);
  }

  /** A reply neither adds to what is unsent nor ends the job badly. */
  lemma ReplyKeepsJob(w: World, hash: string -> nat)
    requires Held(w, hash) && w.job.Some? && w.down != []
    ensures var job' := ApplyReply(w.job.value, w.down[0]);
      && (job'.Some? ==> Unsent(job'.value) <= Unsent(w.job.value) && job'.value.completion == w.job.value.completion)
      && (job'.None? ==> w.relayed.ending == Some(Finished))
  {
    var job, reply := w.job.value, w.down[0];
    RepliesMeanRegistered(w, hash);
    ReceiveJob(w, hash);
    assert reply in w.down && ReplyOk(reply, w.session, w.relayed, w.produced);
    match reply {
      case NoReply =>
      case Ack(nextSeq, completed) => AckShrinksUnsent(job, w.running, job.resumeToken, nextSeq, completed);
      case Verdict(status, nextSeq) =>
        VerdictKeepsJob(w, hash, status, nextSeq);
    }
  }

  lemma VerdictKeepsJob(w: World, hash: string -> nat, status: Status, nextSeq: nat)
    requires Held(w, hash) && w.job.Some? && w.down != [] && w.down[0] == Verdict(status, nextSeq)
    requires Answered(w.job.value, w.up[w.socket.value], w.down, w.session)
          || Streaming(w.job.value, w.up[w.socket.value], w.down, w.session)
    ensures var job' := ApplyReply(w.job.value, w.down[0]);
      && (job'.Some? ==> Unsent(job'.value) <= Unsent(w.job.value))
      && (job'.None? ==> w.relayed.ending == Some(Finished))
  {
    var job := w.job.value;
    assert w.down[0] in w.down && !w.down[0].Ack?;
    assert ReplyOk(w.down[0], w.session, w.relayed, w.produced);
    if status.Resume? { VerdictShrinksUnsent(job, w.running, job.resumeToken, status, nextSeq); }
  }

  lemma ReceiveProgresses(enc: Encoder, hash: string -> nat, w: World)
    requires Held(w, hash) && Moves(enc, hash, w, Receive)
    ensures Progressed(w, Step(enc, hash, w, Receive), hash)
  {
    StepKeepsInv(enc, hash, w, Receive);
    if w.job.Some? {
      RepliesMeanRegistered(w, hash);
      ReplyKeepsJob(w, hash);
    }
  }

  // ---------------------------------------------------------------- delivering

  /** What the advisor does with a frame of this connection keeps the session from being dropped. */
  lemma FrameKeepsSession(hash: string -> nat, w: World)
    requires Held(w, hash) && w.up[w.socket.value] != []
    ensures var k := w.socket.value; var w' := DeliverStep(hash, w, k, false);
      && !w'.session.Gone? && |w'.down| <= |w.down| + 1
      && (w.relayed.ending == Some(Finished) ==> w'.relayed.ending == Some(Finished))
  {
    var k := w.socket.value;
    var frame := w.up[k][0];
    assert frame in w.up[k] && FrameOk(frame, w.produced, Closed(w));
    if frame.ChunkFrame? {
      AcceptChunkOk(w.session, w.relayed, frame.seqNo, false, w.produced, Closed(w), hash);
    }
  }

  /** The rest of the world stays, and the connection is registered afterwards. */
  lemma DeliverEffects(hash: string -> nat, w: World)
    requires Held(w, hash) && w.up[w.socket.value] != []
    ensures var k := w.socket.value; var w' := DeliverStep(hash, w, k, false);
      && w'.job == w.job && w'.produced == w.produced && w'.socket == w.socket && w'.registered == w.socket
      && |w'.up| == |w.up| && w'.up[k] == w.up[k][1..]
  {}

  lemma DeliverProgresses(enc: Encoder, hash: string -> nat, w: World)
    requires Held(w, hash) && w.up[w.socket.value] != []
    ensures Progressed(w, Step(enc, hash, w, Deliver(w.socket.value, false)), hash)
  {
    var k := w.socket.value;
    var w' := Step(enc, hash, w, Deliver(k, false));
    StepKeepsInv(enc, hash, w, Deliver(k, false));
    FrameKeepsSession(hash, w);
    DeliverEffects(hash, w);
    assert Work(w') < Work(w);
  }

  // ---------------------------------------------------------------- runs

  lemma MoveProgresses(enc: Encoder, hash: string -> nat, w: World, e: Event)
    requires Held(w, hash) && Moves(enc, hash, w, e)
    ensures Progressed(w, Step(enc, hash, w, e), hash)
  {
    match e {
      case Drain => DrainProgresses(enc, hash, w);
      case Receive => ReceiveProgresses(enc, hash, w);
      case Deliver(k, _) => DeliverProgresses(enc, hash, w);
    }
  }

  lemma {:induction false} MovesAreFinite(enc: Encoder, hash: string -> nat, w: World, events: seq<Event>)
    requires Held(w, hash) && AllMove(enc, hash, w, events)
    ensures |events| <= Work(w)
    ensures Held(Continue(enc, hash, w, events), hash) && SameJob(w, Continue(enc, hash, w, events))
    decreases |events|
  {
    if events != [] {
      MoveProgresses(enc, hash, w, events[0]);
      MovesAreFinite(enc, hash, Step(enc, hash, w, events[0]), events[1..]);
    }
  }

  /** When nothing moves any more, everything has been delivered. */
  lemma StuckMeansDelivered(enc: Encoder, hash: string -> nat, w: World)
    requires Held(w, hash) && Stuck(enc, hash, w)
    ensures w.relayed.bodies == w.produced
    ensures w.relayed.ending == Some(Finished) || (w.job.Some? && w.job.value.completion.None?)
  {
    var k := w.socket.value;
    if w.job.Some? {
      LinksAreEmpty(enc, hash, w);
      var job := w.job.value;
      assert Streaming(job, [], [], w.session);
      DrainSendsAll(job, w.running);
      NothingToDrain(enc, hash, w);
    }
  }

  lemma LinksAreEmpty(enc: Encoder, hash: string -> nat, w: World)
    requires Held(w, hash) && Stuck(enc, hash, w) && w.job.Some?
    ensures w.up[w.socket.value] == [] && w.down == []
  {
    var k := w.socket.value;
    assert !Moves(enc, hash, w, Deliver(k, false));
    assert !Moves(enc, hash, w, Receive);
    if w.up[k] != [] { DeliverProgresses(enc, hash, w); }
  }

  lemma NothingToDrain(enc: Encoder, hash: string -> nat, w: World)
    requires Held(w, hash) && Stuck(enc, hash, w) && w.job.Some?
    ensures DrainFrames(w.job.value) == []
  {
    var k := w.socket.value;
    assert !Moves(enc, hash, w, Drain);
    assert |DrainStep(w).up[k]| == |w.up[k]| + |DrainFrames(w.job.value)|;
  }

  /** Every run of a connection that holds, from every reachable world: it makes at most `Work` steps,
      and once it can make no more, the requester has everything that was produced, and its ending if
      the completion was buffered. */
  lemma EveryHeldConnectionDelivers(
      enc: Encoder, hash: string -> nat, token: string, events: seq<Event>, more: seq<Event>)
    requires var w := Run(enc, hash, token, events);
      && w.socket.Some? && w.socket.value < |w.up| && w.job.Some? && !w.session.Gone?
      && (w.registered == w.socket || Register in w.up[w.socket.value])
      && AllMove(enc, hash, w, more)
    ensures var w, w' := Run(enc, hash, token, events), Run(enc, hash, token, events + more);
      && |more| <= Work(w)
      && (Stuck(enc, hash, w') ==>
            && w'.relayed.bodies == w'.produced == w.produced
            && (w.job.value.completion.Some? ==> w'.relayed.ending == Some(Finished)))
  {
    var w := Run(enc, hash, token, events);
    AlwaysTracked(enc, hash, token, events);
    MovesAreFinite(enc, hash, w, more);
    RunContinues(enc, hash, token, events, more);
    var w' := Continue(enc, hash, w, more);
    if Stuck(enc, hash, w') { StuckMeansDelivered(enc, hash, w'); }
  }

  /** So does every reconnect: whatever happened before, a fresh connection whose own steps go on
      until none is left delivers the stream. */
  lemma EveryReconnectDelivers(
      enc: Encoder, hash: string -> nat, token: string, events: seq<Event>, more: seq<Event>)
    requires var w := Run(enc, hash, token, events); w.socket.None? && w.job.Some? && w.session.Live?
    requires AllMove(enc, hash, Run(enc, hash, token, events + [Connect]), more)
    ensures var w, w' := Run(enc, hash, token, events), Run(enc, hash, token, events + [Connect] + more);
      && |more| <= Work(Run(enc, hash, token, events + [Connect]))
      && (Stuck(enc, hash, w') ==>
            && w'.relayed.bodies == w'.produced == w.produced
            && (w.job.value.completion.Some? ==> w'.relayed.ending == Some(Finished)))
  {
    var w := Run(enc, hash, token, events);
    AlwaysTracked(enc, hash, token, events);
    assert (events + [Connect])[..|events|] == events;
    AfterConnect(enc, hash, w);
    EveryHeldConnectionDelivers(enc, hash, token, events + [Connect], more);
  }
}
