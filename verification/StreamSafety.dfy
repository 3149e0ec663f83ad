/** Every step of the composed protocol keeps the safety invariant, and what follows from it. */
module StreamSafety {
  import opened Wrappers
  import opened ReplayJob
  import opened AdvisorSessions
  import opened StreamDelivery

  // ---------------------------------------------------------------- replies and frames

  lemma {:induction false} MarksRaise(replies: seq<Reply>, lo: nat, hi: nat, hi': nat)
    requires MarksBetween(replies, lo, hi) && hi <= hi'
    ensures MarksBetween(replies, lo, hi')
    decreases |replies|
  {
    if replies != [] {
      match replies[0] {
        case Ack(nextSeq, _) => MarksRaise(replies[1..], nextSeq, hi, hi');
        case Verdict(status, nextSeq) => MarksRaise(replies[1..], if status.Resume? then nextSeq else lo, hi, hi');
        case NoReply =>
      }
    }
  }

  lemma {:induction false} MarksLower(replies: seq<Reply>, lo: nat, lo': nat, hi: nat)
    requires MarksBetween(replies, lo, hi) && lo' <= lo
    ensures MarksBetween(replies, lo', hi)
    decreases |replies|
  {
    if replies != [] && replies[0].Verdict? && !replies[0].status.Resume? {
      MarksLower(replies[1..], lo, lo', hi);
    }
  }

  lemma {:induction false} MarksOrdered(replies: seq<Reply>, lo: nat, hi: nat)
    requires MarksBetween(replies, lo, hi)
    ensures lo <= hi
    decreases |replies|
  {
    if replies != [] {
      match replies[0] {
        case Ack(nextSeq, _) => MarksOrdered(replies[1..], nextSeq, hi);
        case Verdict(status, nextSeq) => MarksOrdered(replies[1..], if status.Resume? then nextSeq else lo, hi);
        case NoReply =>
      }
    }
  }

  /** A reply that reports the current mark may be appended. */
  lemma {:induction false} MarksAppend(replies: seq<Reply>, lo: nat, hi: nat, reply: Reply)
    requires MarksBetween(replies, lo, hi) && reply != NoReply
    requires reply.Ack? || (reply.Verdict? && reply.status.Resume?) ==> reply.nextSeq == hi
    ensures MarksBetween(replies + [reply], lo, hi)
    decreases |replies|
  {
    MarksOrdered(replies, lo, hi);
    if replies != [] {
      assert (replies + [reply])[1..] == replies[1..] + [reply];
      match replies[0] {
        case Ack(nextSeq, _) => MarksAppend(replies[1..], nextSeq, hi, reply);
        case Verdict(status, nextSeq) => MarksAppend(replies[1..], if status.Resume? then nextSeq else lo, hi, reply);
        case NoReply =>
      }
    }
  }

  lemma DrainedFramesOk(job: Job, running: bool, handlerSeq: nat, produced: seq<string>)
    requires JobInv(job, running, handlerSeq, produced)
    ensures FramesOk(FramesOf(DrainFrames(job)), produced, !running && job.completion.Some?)
  {
    var frames := FramesOf(DrainFrames(job));
    forall f | f in frames ensures FrameOk(f, produced, !running && job.completion.Some?) {
      var i :| 0 <= i < |frames| && frames[i] == f;
      DrainedPayload(job, running, i);
    }
  }

  /** Every drained payload is a control frame, a buffered chunk or the completion. */
  lemma DrainedPayload(job: Job, running: bool, i: nat)
    requires JobOk(job, running) && i < |DrainFrames(job)|
    ensures var p := DrainFrames(job)[i];
      || (job.controls.Some? && p == job.controls.value)
      || (exists n :: n in job.chunks && p == job.chunks[n])
      || (job.completion.Some? && p == job.completion.value)
  {
    var control := |ControlFrames(job)|;
    if control <= i < control + (job.producedSeq - job.sendSeq) {
      assert job.sendSeq + (i - control) in job.chunks;
    }
  }

  lemma FramesGrow(frames: seq<Up>, produced: seq<string>, closed: bool, produced': seq<string>, closed': bool)
    requires FramesOk(frames, produced, closed)
    requires produced <= produced' && (closed ==> closed' && produced' == produced)
    ensures FramesOk(frames, produced', closed')
  {}

  // ---------------------------------------------------------------- the provider's steps

  /** The provider's part may move on without touching links or session. */
  lemma ProviderMoves(w: World, w': World, hash: string -> nat)
    requires Safe(w, hash)
    requires w'.up == w.up && w'.down == w.down && w'.session == w.session && w'.relayed == w.relayed
    requires w.produced <= w'.produced && (Closed(w) ==> Closed(w') && w'.produced == w.produced)
    requires w'.job.Some? ==> JobInv(w'.job.value, w'.running, w'.handlerSeq, w'.produced)
    requires w'.socket == w.socket && w'.registered == w.registered
    requires w'.job.Some? ==> w.job.Some? && (w'.job.value.attached ==> w.job.value.attached)
    requires AckedMark(w'.job) <= AckedMark(w.job)
    ensures Safe(w', hash)
  {
    forall k | 0 <= k < |w.up| ensures FramesOk(w'.up[k], w'.produced, Closed(w')) {
      FramesGrow(w.up[k], w.produced, Closed(w), w'.produced, Closed(w'));
    }
    MarksLower(w.down, AckedMark(w.job), AckedMark(w'.job), |w.relayed.bodies|);
    SessionOkGrows(w.session, w.relayed, w.produced, Closed(w), hash, w'.produced, Closed(w'));
    forall r | r in w.down ensures ReplyOk(r, w.session, w.relayed, w'.produced) {}
  }

  lemma OfferKeepsInv(enc: Encoder, job: Job, handlerSeq: nat, produced: seq<string>, output: Output, totalBytes: nat)
    requires JobInv(job, true, handlerSeq, produced)
    ensures var (job', accepted) := Offer(enc, job, totalBytes, MessageOf(output, handlerSeq));
            && JobInv(job', accepted && !output.Finish?, handlerSeq + (if output.Delta? then 1 else 0),
                      produced + if accepted && output.Delta? then [output.body] else [])
            && job'.ackedSeq == job.ackedSeq && job'.attached == job.attached
  {
    var message := MessageOf(output, handlerSeq);
    if message.Some? { BufferKeepsOk(enc, job, totalBytes, message.value); }
    else { FailTerminalOk(enc, job); }
  }

  lemma ProduceKeepsSafe(enc: Encoder, hash: string -> nat, w: World, output: Output, totalBytes: nat)
    requires Safe(w, hash) && w.running
    ensures Safe(ProduceStep(enc, w, output, totalBytes), hash)
  {
    var w' := ProduceStep(enc, w, output, totalBytes);
    if w.job.Some? { OfferKeepsInv(enc, w.job.value, w.handlerSeq, w.produced, output, totalBytes); }
    ProviderMoves(w, w', hash);
  }

  lemma DrainKeepsSafe(hash: string -> nat, w: World)
    requires Safe(w, hash) && w.socket.Some?
    ensures Safe(DrainStep(w), hash)
  {
    if w.job.Some? {
      var job, k := w.job.value, w.socket.value;
      DrainedOk(job, w.running);
      DrainedFramesOk(job, w.running, w.handlerSeq, w.produced);
      ProviderMoves(w, w.(job := Some(Drained(job))), hash);
    }
  }

  lemma DisconnectKeepsSafe(hash: string -> nat, w: World)
    requires Safe(w, hash)
    ensures Safe(DisconnectStep(w), hash)
  {
    var w1 := w.(job := if w.job.Some? then Some(Detached(w.job.value)) else None);
    if w.job.Some? { DetachedOk(w.job.value, w.running); }
    ProviderMoves(w, w1, hash);
    MarksOrdered(w.down, AckedMark(w.job), |w.relayed.bodies|);
  }

  lemma ConnectKeepsSafe(hash: string -> nat, w: World)
    requires Safe(w, hash) && w.socket.None?
    ensures Safe(ConnectStep(w), hash)
  {}

  lemma ReceiveJob(w: World, hash: string -> nat)
    requires Safe(w, hash) && w.down != [] && w.job.Some?
    ensures var job' := ApplyReply(w.job.value, w.down[0]);
      && (job'.Some? ==> JobInv(job'.value, w.running, w.handlerSeq, w.produced))
      && (job'.Some? ==> job'.value.completion == w.job.value.completion)
      && (job'.None? ==> w.relayed.ending.Some?)
      && MarksBetween(w.down[1..], AckedMark(job'), |w.relayed.bodies|)
  {
    var job, reply := w.job.value, w.down[0];
    assert ReplyOk(reply, w.session, w.relayed, w.produced);
    var mark := if reply.Ack? || reply.status.Resume? then reply.nextSeq else job.ackedSeq;
    MarksOrdered(w.down[1..], mark, |w.relayed.bodies|);
    match reply {
      case Ack(nextSeq, completed) =>
        AcknowledgeKeepsOk(job, w.running, job.resumeToken, nextSeq, completed);
        if completed { MarksLower(w.down[1..], nextSeq, 0, |w.relayed.bodies|); }
      case Verdict(status, nextSeq) =>
        if status.Resume? { HandleResumeKeepsOk(job, w.running, nextSeq); }
        else { MarksLower(w.down[1..], job.ackedSeq, 0, |w.relayed.bodies|); }
    }
  }

  lemma ReceiveKeepsSafe(hash: string -> nat, w: World)
    requires Safe(w, hash) && w.socket.Some? && w.down != []
    ensures Safe(ReceiveStep(w), hash)
  {
    var w' := ReceiveStep(w);
    if w.job.Some? { ReceiveJob(w, hash); }
    else {
      var reply := w.down[0];
      MarksLower(w.down[1..], if reply.Ack? || reply.status.Resume? then reply.nextSeq else 0, 0, |w.relayed.bodies|);
    }
    forall k | 0 <= k < |w.up| ensures FramesOk(w.up[k], w.produced, Closed(w')) {
      FramesGrow(w.up[k], w.produced, Closed(w), w.produced, Closed(w'));
    }
    SessionOkGrows(w.session, w.relayed, w.produced, Closed(w), hash, w.produced, Closed(w'));
  }

  // ---------------------------------------------------------------- the advisor's steps

  /** No resume claim is left on this socket if it is the provider's. */
  ghost predicate NoClaim(w: World, socket: nat)
    requires socket < |w.up|
  {
    w.socket == Some(socket) ==> forall p :: Claim(p) !in w.up[socket]
  }

  /** The outstanding resume claim, if any, is at least `mark`. */
  ghost predicate ClaimsAtLeast(w: World, mark: nat) {
    w.socket.Some? && w.socket.value < |w.up| ==>
      forall p :: Claim(p) in w.up[w.socket.value] ==> mark <= p
  }

  lemma AnswerReplies(w: World, socket: nat, session: Session, relayed: Relayed, reply: Reply, hash: string -> nat)
    requires Safe(w, hash)
    requires |w.relayed.bodies| <= |relayed.bodies|
    requires w.relayed.ending.Some? ==> relayed.ending == w.relayed.ending
    requires w.session.Gone? ==> session.Gone?
    requires ReplyOk(reply, session, relayed, w.produced)
    requires reply.Ack? || (reply.Verdict? && reply.status.Resume?) ==> reply.nextSeq == |relayed.bodies|
    ensures LinksOk(Answer(w, socket, session, relayed, reply))
  {
    MarksRaise(w.down, AckedMark(w.job), |w.relayed.bodies|, |relayed.bodies|);
    if reply != NoReply { MarksAppend(w.down, AckedMark(w.job), |relayed.bodies|, reply); }
    var w' := Answer(w, socket, session, relayed, reply);
    forall r | r in w'.down ensures ReplyOk(r, session, relayed, w.produced) {
      if r in w.down { assert ReplyOk(r, w.session, w.relayed, w.produced); }
    }
  }

  /** The advisor handles a frame and answers with its current mark. */
  lemma AdvisorMoves(w: World, socket: nat, session: Session, relayed: Relayed, reply: Reply, hash: string -> nat)
    requires Safe(w, hash) && socket < |w.up|
    requires SessionOk(session, relayed, w.produced, Closed(w), hash)
    requires |w.relayed.bodies| <= |relayed.bodies|
    requires w.relayed.ending.Some? ==> relayed.ending == w.relayed.ending
    requires w.session.Gone? ==> session.Gone?
    requires ReplyOk(reply, session, relayed, w.produced)
    requires reply.Ack? || (reply.Verdict? && reply.status.Resume?) ==> reply.nextSeq == |relayed.bodies|
    requires NoClaim(w, socket) && ClaimsAtLeast(w, |relayed.bodies|)
    ensures Safe(Answer(w, socket, session, relayed, reply), hash)
  {
    AnswerReplies(w, socket, session, relayed, reply, hash);
  }

  /** Taking a frame off a queue. */
  lemma PopKeepsSafe(w: World, socket: nat, hash: string -> nat) returns (w1: World)
    requires Safe(w, hash) && socket < |w.up| && w.up[socket] != []
    ensures w1 == w.(up := w.up[socket := w.up[socket][1..]])
    ensures Safe(w1, hash)
    ensures FrameOk(w.up[socket][0], w.produced, Closed(w1))
    ensures !w.up[socket][0].Register? ==> NoClaim(w1, socket)
    ensures w.up[socket][0].ChunkFrame? ==> ClaimsAtLeast(w1, w.up[socket][0].seqNo + 1)
    ensures w.up[socket][0].Claim? && w.socket == Some(socket) ==> |w.relayed.bodies| <= w.up[socket][0].producedSeq
    ensures ClaimsAtLeast(w1, |w.relayed.bodies|)
  {
    w1 := w.(up := w.up[socket := w.up[socket][1..]]);
    assert w.up[socket][0] in w.up[socket];
    assert forall f :: f in w1.up[socket] ==> f in w.up[socket];
  }

  lemma ClaimKeepsSafe(hash: string -> nat, w: World, socket: nat, producedSeq: nat)
    requires Safe(w, hash) && socket < |w.up| && w.registered == Some(socket)
    requires NoClaim(w, socket) && ClaimsAtLeast(w, |w.relayed.bodies|)
    requires w.socket == Some(socket) ==> |w.relayed.bodies| <= producedSeq
    ensures Safe(HandleFrame(hash, w, socket, Claim(producedSeq), false), hash)
  {
    var (session, reply) := ResumeClaim(w.session, producedSeq);
    if w.socket == Some(socket) { AdvisorMoves(w, socket, session, w.relayed, reply, hash); }
  }

  lemma ChunkKeepsSafe(hash: string -> nat, w: World, socket: nat, seqNo: nat, clientGone: bool)
    requires Safe(w, hash) && socket < |w.up| && w.registered == Some(socket) && seqNo < |w.produced|
    requires NoClaim(w, socket) && ClaimsAtLeast(w, |w.relayed.bodies|) && ClaimsAtLeast(w, seqNo + 1)
    ensures Safe(HandleFrame(hash, w, socket, ChunkFrame(seqNo, w.produced[seqNo]), clientGone), hash)
  {
    var body := w.produced[seqNo];
    AcceptChunkOk(w.session, w.relayed, seqNo, clientGone, w.produced, Closed(w), hash);
    var (session, relayed, reply) := AcceptChunk(w.session, w.relayed, seqNo, body, hash(body), clientGone);
    AdvisorMoves(w, socket, session, relayed, reply, hash);
  }

  lemma CompletionKeepsSafe(hash: string -> nat, w: World, socket: nat, summary: Summary, clientGone: bool)
    requires Safe(w, hash) && socket < |w.up| && w.registered == Some(socket) && Closed(w)
    requires NoClaim(w, socket) && ClaimsAtLeast(w, |w.relayed.bodies|)
    ensures Safe(HandleFrame(hash, w, socket, CompleteFrame(Some(|w.produced|), summary), clientGone), hash)
  {
    AcceptCompletionOk(w.session, w.relayed, summary, clientGone, w.produced, hash);
    var (session, relayed, reply) := AcceptCompletion(w.session, w.relayed, Some(|w.produced|), summary, clientGone);
    AdvisorMoves(w, socket, session, relayed, reply, hash);
  }

  lemma DeliverKeepsSafe(hash: string -> nat, w: World, socket: nat, clientGone: bool)
    requires Safe(w, hash) && socket < |w.up| && w.up[socket] != []
    ensures Safe(DeliverStep(hash, w, socket, clientGone), hash)
  {
    var w1 := PopKeepsSafe(w, socket, hash);
    var frame := w.up[socket][0];
    if frame.Register? || w.registered != Some(socket) { return; }
    match frame {
      case Claim(producedSeq) => ClaimKeepsSafe(hash, w1, socket, producedSeq);
      case ChunkFrame(seqNo, body) => ChunkKeepsSafe(hash, w1, socket, seqNo, clientGone);
      case CompleteFrame(_, summary) => CompletionKeepsSafe(hash, w1, socket, summary, clientGone);
      case _ =>
    }
  }

  lemma LoseTailKeepsSafe(hash: string -> nat, w: World, socket: nat, keep: nat)
    requires Safe(w, hash) && socket < |w.up| && keep <= |w.up[socket]| && w.socket != Some(socket)
    ensures Safe(w.(up := w.up[socket := w.up[socket][..keep]]), hash)
  {
    assert forall f :: f in w.up[socket][..keep] ==> f in w.up[socket];
  }

  lemma AdvisorCloseKeepsSafe(hash: string -> nat, w: World, socket: nat)
    requires Safe(w, hash) && socket < |w.up|
    ensures Safe(AdvisorCloseStep(w, socket), hash)
  {
    var w1 := w.(up := w.up[socket := []]);
    assert Safe(w1, hash);
  }

  lemma SessionExpiredKeepsSafe(hash: string -> nat, w: World)
    requires Safe(w, hash)
    ensures Safe(SessionExpiredStep(w), hash)
  {}

  // ---------------------------------------------------------------- all runs

  lemma StepKeepsSafe(enc: Encoder, hash: string -> nat, w: World, e: Event)
    requires Safe(w, hash)
    ensures Safe(Step(enc, hash, w, e), hash)
  {
    if !Enabled(w, e) { return; }
    match e {
      case Produce(output, totalBytes) => ProduceKeepsSafe(enc, hash, w, output, totalBytes);
      case HandlerDone => ProviderMoves(w, HandlerDoneStep(w), hash);
      case HandlerPanicked => ProviderMoves(w, w.(running := false, job := None), hash);
      case Drain => DrainKeepsSafe(hash, w);
      case Disconnect => DisconnectKeepsSafe(hash, w);
      case Connect => ConnectKeepsSafe(hash, w);
      case TimerExpired => ProviderMoves(w, w.(job := None), hash);
      case Deliver(socket, clientGone) => DeliverKeepsSafe(hash, w, socket, clientGone);
      case LoseTail(socket, keep) => LoseTailKeepsSafe(hash, w, socket, keep);
      case AdvisorClose(socket) => AdvisorCloseKeepsSafe(hash, w, socket);
      case Receive => ReceiveKeepsSafe(hash, w);
      case SessionExpired => SessionExpiredKeepsSafe(hash, w);
    }
  }

  lemma {:induction false} AlwaysSafe(enc: Encoder, hash: string -> nat, token: string, events: seq<Event>)
    ensures Safe(Run(enc, hash, token, events), hash)
  {
    if events != [] {
      var last := |events| - 1;
      AlwaysSafe(enc, hash, token, events[..last]);
      StepKeepsSafe(enc, hash, Run(enc, hash, token, events[..last]), events[last]);
    } else {
      NewJobOk(token);
    }
  }

  /** End-to-end delivery. In every reachable world the requester has received a gap-free,
      duplicate-free, in-order prefix of the chunks produced; a stream reported as finished is
      complete; and what the advisor has accepted lies between what the provider has seen
      acknowledged and what it has produced. */
  lemma DeliveredIsPrefix(enc: Encoder, hash: string -> nat, token: string, events: seq<Event>)
    ensures var w := Run(enc, hash, token, events);
      && w.relayed.bodies <= w.produced
      && (w.relayed.ending == Some(Finished) ==> w.relayed.bodies == w.produced && !w.running)
      && (w.job.Some? ==> w.job.value.ackedSeq <= |w.relayed.bodies| <= w.job.value.producedSeq)
  {
    AlwaysSafe(enc, hash, token, events);
    var w := Run(enc, hash, token, events);
    MarksOrdered(w.down, AckedMark(w.job), |w.relayed.bodies|);
  }

  /** The next reply never makes the provider take its protocol-violation branch, a high-water mark
      never falls behind an acknowledgment, and a reply ends the job only when the stream has ended. */
  lemma RepliesAreConsistent(enc: Encoder, hash: string -> nat, token: string, events: seq<Event>)
    requires Run(enc, hash, token, events).job.Some? && Run(enc, hash, token, events).down != []
    ensures var w := Run(enc, hash, token, events);
      var reply, job := w.down[0], w.job.value;
      && (reply.Ack? || (reply.Verdict? && reply.status.Resume?) ==>
            job.ackedSeq <= reply.nextSeq <= job.producedSeq)
      && (ApplyReply(job, reply).None? ==> w.relayed.ending.Some?)
  {
    AlwaysSafe(enc, hash, token, events);
    var w := Run(enc, hash, token, events);
    ReceiveJob(w, hash);
    var reply := w.down[0];
    MarksOrdered(w.down[1..], if reply.Ack? || reply.status.Resume? then reply.nextSeq else w.job.value.ackedSeq,
                 |w.relayed.bodies|);
  }

  lemma DeliveryOnlyAppends(hash: string -> nat, w: World, socket: nat, clientGone: bool)
    requires Safe(w, hash) && socket < |w.up| && w.up[socket] != []
    ensures var w' := DeliverStep(hash, w, socket, clientGone);
      && w.relayed.bodies <= w'.relayed.bodies
      && (w.relayed.ending.Some? ==> w'.relayed == w.relayed)
  {
    assert w.up[socket][0] in w.up[socket];
  }

  lemma StepOnlyAppends(enc: Encoder, hash: string -> nat, w: World, e: Event)
    requires Safe(w, hash)
    ensures var w' := Step(enc, hash, w, e);
      && w.relayed.bodies <= w'.relayed.bodies
      && (w.relayed.ending.Some? ==> w'.relayed == w.relayed)
  {
    if Enabled(w, e) && e.Deliver? { DeliveryOnlyAppends(hash, w, e.socket, e.clientGone); }
  }

  /** The requester's stream is append-only, and closed once it has ended. */
  lemma RelayedGrows(enc: Encoder, hash: string -> nat, token: string, events: seq<Event>, e: Event)
    ensures var w, w' := Run(enc, hash, token, events), Run(enc, hash, token, events + [e]);
      && w.relayed.bodies <= w'.relayed.bodies
      && (w.relayed.ending.Some? ==> w'.relayed == w.relayed)
  {
    AlwaysSafe(enc, hash, token, events);
    assert (events + [e])[..|events|] == events;
    StepOnlyAppends(enc, hash, Run(enc, hash, token, events), e);
  }
}
