/** Nothing gets stuck. While the provider's socket is the registered one, the frames in flight are
    exactly the chunks that the advisor still misses; so a world with idle links and nothing to
    drain has delivered and acknowledged everything. */
module StreamProgress {
  import opened Wrappers
  import opened ReplayJob
  import opened AdvisorSessions
  import opened StreamDelivery
  import opened StreamSafety

  // ---------------------------------------------------------------- frames and marks in flight

  /** The chunk frames carry lo, ..., hi-1 in order, and a completion comes after all of them. */
  ghost predicate Carries(frames: seq<Up>, lo: nat, hi: nat) {
    if frames == [] then lo == hi
    else
      match frames[0]
      case ChunkFrame(seqNo, _) => seqNo == lo && lo < hi && Carries(frames[1..], lo + 1, hi)
      case CompleteFrame(_, _) => lo == hi && Carries(frames[1..], lo, hi)
      case Other => Carries(frames[1..], lo, hi)
      case _ => false
  }

  ghost predicate HasCompletion(frames: seq<Up>) {
    exists f :: f in frames && f.CompleteFrame?
  }

  lemma {:induction false} CarriesAppend(a: seq<Up>, b: seq<Up>, lo: nat, mid: nat, hi: nat)
    requires Carries(a, lo, mid) && Carries(b, mid, hi)
    requires HasCompletion(a) ==> mid == hi
    ensures Carries(a + b, lo, hi)
    decreases |a|
  {
    if a == [] {
      assert a + b == b;
    } else {
      assert (a + b)[1..] == a[1..] + b;
      CarriesBounds(b, mid, hi);
      CarriesAppend(a[1..], b, if a[0].ChunkFrame? then lo + 1 else lo, mid, hi);
    }
  }

  lemma HasCompletionAppend(a: seq<Up>, b: seq<Up>)
    ensures HasCompletion(a + b) <==> HasCompletion(a) || HasCompletion(b)
  {
    if HasCompletion(a) { var f :| f in a && f.CompleteFrame?; assert f in a + b; }
    if HasCompletion(b) { var f :| f in b && f.CompleteFrame?; assert f in a + b; }
  }

  lemma {:induction false} CarriesBounds(frames: seq<Up>, lo: nat, hi: nat)
    requires Carries(frames, lo, hi)
    ensures lo <= hi
    decreases |frames|
  {
    if frames != [] { CarriesBounds(frames[1..], if frames[0].ChunkFrame? then lo + 1 else lo, hi); }
  }

  lemma {:induction false} CarriesRange(chunks: map<nat, Payload>, lo: nat, hi: nat, tail: seq<Up>)
    requires lo <= hi && (forall i :: lo <= i < hi ==> i in chunks)
    requires forall i :: lo <= i < hi ==> chunks[i].msg.Chunk? && chunks[i].msg.seqNo == i
    requires Carries(tail, hi, hi)
    ensures Carries(FramesOf(Range(chunks, lo, hi)) + tail, lo, hi)
    decreases hi - lo
  {
    var frames := FramesOf(Range(chunks, lo, hi)) + tail;
    if lo == hi {
      assert frames == tail;
    } else {
      CarriesRange(chunks, lo + 1, hi, tail);
      assert frames[1..] == FramesOf(Range(chunks, lo + 1, hi)) + tail;
    }
  }

  lemma RangeHasNoCompletion(chunks: map<nat, Payload>, lo: nat, hi: nat)
    requires forall i :: lo <= i < hi ==> i in chunks && chunks[i].msg.Chunk?
    ensures !HasCompletion(FramesOf(Range(chunks, lo, hi)))
  {
    var frames := FramesOf(Range(chunks, lo, hi));
    forall f | f in frames ensures !f.CompleteFrame? {
      var i :| 0 <= i < |frames| && frames[i] == f;
      assert lo + i in chunks;
    }
  }

  lemma CompletionCarries(job: Job, running: bool)
    requires JobOk(job, running)
    ensures var frames := FramesOf(CompletionFrames(job));
      && Carries(frames, job.producedSeq, job.producedSeq)
      && (HasCompletion(frames) <==> job.completion.Some? && !job.completionSent)
  {
    var frames := FramesOf(CompletionFrames(job));
    if frames != [] { assert frames[0] in frames && frames[1..] == []; }
  }

  /** So do the chunks and the completion behind the control frame. */
  lemma RestCarries(job: Job, running: bool)
    requires JobOk(job, running)
    ensures var rest :=
        FramesOf(Range(job.chunks, job.sendSeq, job.producedSeq)) + FramesOf(CompletionFrames(job));
      && Carries(rest, job.sendSeq, job.producedSeq)
      && (HasCompletion(rest) <==> job.completion.Some? && !job.completionSent)
  {
    var completion := FramesOf(CompletionFrames(job));
    CompletionCarries(job, running);
    CarriesRange(job.chunks, job.sendSeq, job.producedSeq, completion);
    RangeHasNoCompletion(job.chunks, job.sendSeq, job.producedSeq);
    HasCompletionAppend(FramesOf(Range(job.chunks, job.sendSeq, job.producedSeq)), completion);
  }

  lemma DrainSplits(job: Job)
    requires Contiguous(job) && job.attached
    ensures FramesOf(DrainFrames(job)) == FramesOf(ControlFrames(job)) +
      (FramesOf(Range(job.chunks, job.sendSeq, job.producedSeq)) + FramesOf(CompletionFrames(job)))
  {}

  /** A control frame in front carries nothing. */
  lemma ControlCarries(job: Job, running: bool, rest: seq<Up>, lo: nat, hi: nat)
    requires JobOk(job, running) && Carries(rest, lo, hi)
    ensures Carries(FramesOf(ControlFrames(job)) + rest, lo, hi)
    ensures !HasCompletion(FramesOf(ControlFrames(job)))
  {
    var control := FramesOf(ControlFrames(job));
    if control == [] { assert control + rest == rest; } else { assert (control + rest)[1..] == rest; }
  }

  /** A drain carries exactly the chunks not sent yet. */
  lemma DrainCarries(job: Job, running: bool)
    requires JobOk(job, running) && job.attached
    ensures Carries(FramesOf(DrainFrames(job)), job.sendSeq, job.producedSeq)
    ensures HasCompletion(FramesOf(DrainFrames(job))) <==> job.completion.Some? && !job.completionSent
  {
    var control := FramesOf(ControlFrames(job));
    var rest := FramesOf(Range(job.chunks, job.sendSeq, job.producedSeq)) + FramesOf(CompletionFrames(job));
    RestCarries(job, running);
    DrainSplits(job);
    ControlCarries(job, running, rest, job.sendSeq, job.producedSeq);
    HasCompletionAppend(control, rest);
  }

  /** The last high-water mark among the replies, or `base` when there is none. */
  function LastMark(replies: seq<Reply>, base: nat): nat {
    if replies == [] then base
    else
      match replies[0]
      case Ack(nextSeq, _) => LastMark(replies[1..], nextSeq)
      case _ => LastMark(replies[1..], base)
  }

  lemma {:induction false} LastMarkAppend(replies: seq<Reply>, base: nat, nextSeq: nat, completed: bool)
    ensures LastMark(replies + [Ack(nextSeq, completed)], base) == nextSeq
    decreases |replies|
  {
    var all := replies + [Ack(nextSeq, completed)];
    if replies != [] {
      assert all[1..] == replies[1..] + [Ack(nextSeq, completed)];
      LastMarkAppend(replies[1..], if replies[0].Ack? then replies[0].nextSeq else base, nextSeq, completed);
    }
  }

  // ---------------------------------------------------------------- the progress invariant

  /** An attached job on the registered socket: what is in flight is what the advisor misses. */
  ghost predicate Streaming(job: Job, frames: seq<Up>, replies: seq<Reply>, session: Session) {
    && job.attached
    && (forall r :: r in replies ==> r.Ack?)
    && (forall f :: f in frames ==> !f.Register? && !f.Claim?)
    && (session.Live? ==>
          && !session.detached
          && Carries(frames, session.nextSeq, job.sendSeq)
          && LastMark(replies, job.ackedSeq) == session.nextSeq
          && (HasCompletion(frames) <==> job.completionSent))
    && (session.Tombstone? ==> exists r :: r in replies && r.Ack? && r.completed)
  }

  /** The claim has been answered and the verdict is on its way. */
  ghost predicate Answered(job: Job, frames: seq<Up>, replies: seq<Reply>, session: Session) {
    && !job.attached && frames == [] && |replies| == 1 && replies[0].Verdict?
    && (replies[0].status.Resume? && !session.Gone? ==>
          session.Live? && replies[0].nextSeq == session.nextSeq && !session.detached)
  }

  ghost predicate Claiming(frames: seq<Up>) {
    exists p :: frames == [Claim(p)]
  }

  ghost predicate Registering(frames: seq<Up>) {
    exists p :: frames == [Register, Claim(p)]
  }

  /** What the provider's socket looks like as long as the advisor has it registered, or may still. */
  ghost predicate Tracked(w: World) {
    w.socket.Some? && w.socket.value < |w.up| && w.job.Some? ==>
      var frames := w.up[w.socket.value];
      && (Register in frames ==> Registering(frames))
      && (w.registered == w.socket && Register !in frames ==>
            || Claiming(frames)
            || Answered(w.job.value, frames, w.down, w.session)
            || Streaming(w.job.value, frames, w.down, w.session))
  }

  ghost predicate Inv(w: World, hash: string -> nat) {
    Safe(w, hash) && Tracked(w)
  }

  // ---------------------------------------------------------------- the provider's steps

  /** The job may change as long as its place in the stream does not. */
  lemma JobMoves(w: World, w': World)
    requires Tracked(w)
    requires w'.socket == w.socket && w'.up == w.up && w'.down == w.down
    requires w'.registered == w.registered && w'.session == w.session
    requires w'.job.Some? ==> w.job.Some? && w'.job.value.attached == w.job.value.attached
    requires w'.job.Some? ==> w'.job.value.sendSeq == w.job.value.sendSeq
    requires w'.job.Some? ==> w'.job.value.ackedSeq == w.job.value.ackedSeq
    requires w'.job.Some? ==> w'.job.value.completionSent == w.job.value.completionSent
    ensures Tracked(w')
  {}

  lemma ProduceKeepsTracked(enc: Encoder, hash: string -> nat, w: World, output: Output, totalBytes: nat)
    requires Inv(w, hash) && w.running
    ensures Tracked(ProduceStep(enc, w, output, totalBytes))
  {
    JobMoves(w, ProduceStep(enc, w, output, totalBytes));
  }

  lemma StreamingDrain(job: Job, running: bool, frames: seq<Up>, replies: seq<Reply>, session: Session)
    requires JobOk(job, running) && Streaming(job, frames, replies, session)
    ensures Streaming(Drained(job), frames + FramesOf(DrainFrames(job)), replies, session)
  {
    var out := FramesOf(DrainFrames(job));
    DrainCarries(job, running);
    HasCompletionAppend(frames, out);
    CarriesNothingElse(out, job.sendSeq, job.producedSeq);
    if session.Live? { CarriesAppend(frames, out, session.nextSeq, job.sendSeq, job.producedSeq); }
  }

  lemma {:induction false} CarriesNothingElse(frames: seq<Up>, lo: nat, hi: nat)
    requires Carries(frames, lo, hi)
    ensures forall f :: f in frames ==> !f.Register? && !f.Claim?
    decreases |frames|
  {
    if frames != [] { CarriesNothingElse(frames[1..], if frames[0].ChunkFrame? then lo + 1 else lo, hi); }
  }

  lemma DrainKeepsTracked(hash: string -> nat, w: World)
    requires Inv(w, hash) && w.socket.Some?
    ensures Tracked(DrainStep(w))
  {
    if w.job.Some? {
      var job, k := w.job.value, w.socket.value;
      var frames := w.up[k];
      if job.attached {
        DrainCarries(job, w.running);
        CarriesNothingElse(FramesOf(DrainFrames(job)), job.sendSeq, job.producedSeq);
        if Streaming(job, frames, w.down, w.session) { StreamingDrain(job, w.running, frames, w.down, w.session); }
      } else {
        assert frames + FramesOf(DrainFrames(job)) == frames;
      }
    }
  }

  lemma StreamingAck(w: World, hash: string -> nat)
    requires Safe(w, hash) && w.socket.Some? && w.job.Some? && w.down != []
    requires Streaming(w.job.value, w.up[w.socket.value], w.down, w.session)
    ensures var job' := ApplyReply(w.job.value, w.down[0]);
      job'.Some? ==> Streaming(job'.value, w.up[w.socket.value], w.down[1..], w.session)
  {
    var job, reply, frames := w.job.value, w.down[0], w.up[w.socket.value];
    assert reply in w.down && ReplyOk(reply, w.session, w.relayed, w.produced);
    MarksOrdered(w.down[1..], reply.nextSeq, |w.relayed.bodies|);
    if w.session.Live? { CarriesBounds(frames, w.session.nextSeq, job.sendSeq); }
    if w.session.Tombstone? {
      var r :| r in w.down && r.Ack? && r.completed;
      assert !reply.completed ==> r in w.down[1..];
    }
  }

  lemma ReceiveKeepsTracked(hash: string -> nat, w: World)
    requires Inv(w, hash) && w.socket.Some? && w.down != []
    ensures Tracked(ReceiveStep(w))
  {
    if w.job.Some? {
      var frames := w.up[w.socket.value];
      if Streaming(w.job.value, frames, w.down, w.session) { StreamingAck(w, hash); }
    }
  }

  // ---------------------------------------------------------------- the advisor's steps

  lemma StreamingChunk(w: World, k: nat, clientGone: bool, hash: string -> nat)
    requires Safe(w, hash) && w.socket == Some(k) == w.registered && w.job.Some?
    requires w.up[k] != [] && w.up[k][0].ChunkFrame?
    requires Streaming(w.job.value, w.up[k], w.down, w.session)
    ensures var w' := DeliverStep(hash, w, k, clientGone);
      Streaming(w.job.value, w'.up[k], w'.down, w'.session)
  {
    var frames := w.up[k];
    var (seqNo, body) := (frames[0].seqNo, frames[0].body);
    var (session, relayed, reply) := AcceptChunk(w.session, w.relayed, seqNo, body, hash(body), clientGone);
    if w.session.Live? {
      assert HasCompletion(frames[1..]) <==> HasCompletion(frames) by {
        assert frames == [frames[0]] + frames[1..];
        HasCompletionAppend([frames[0]], frames[1..]);
      }
      if reply != NoReply { LastMarkAppend(w.down, w.job.value.ackedSeq, reply.nextSeq, reply.completed); }
    }
  }

  lemma StreamingCompletion(w: World, k: nat, clientGone: bool, hash: string -> nat)
    requires Safe(w, hash) && w.socket == Some(k) == w.registered && w.job.Some?
    requires w.up[k] != [] && w.up[k][0].CompleteFrame?
    requires Streaming(w.job.value, w.up[k], w.down, w.session)
    ensures var w' := DeliverStep(hash, w, k, clientGone);
      && Streaming(w.job.value, w'.up[k], w'.down, w'.session)
      && !w'.session.Live?
  {
    var frames := w.up[k];
    assert frames[0] in frames && FrameOk(frames[0], w.produced, Closed(w));
    if w.session.Live? && !clientGone {
      assert HasCompletion(frames);
      var ack := Ack(w.session.nextSeq, true);
      assert ack in w.down + [ack];
    }
  }

  lemma StreamingOther(w: World, k: nat, clientGone: bool, hash: string -> nat)
    requires Safe(w, hash) && w.socket == Some(k) == w.registered && w.job.Some? && w.up[k] != [] && w.up[k][0].Other?
    requires Streaming(w.job.value, w.up[k], w.down, w.session)
    ensures var w' := DeliverStep(hash, w, k, clientGone);
      Streaming(w.job.value, w'.up[k], w'.down, w'.session)
  {
    assert w.up[k] == [w.up[k][0]] + w.up[k][1..];
    HasCompletionAppend([w.up[k][0]], w.up[k][1..]);
  }

  lemma ClaimAnswered(w: World, k: nat, hash: string -> nat, clientGone: bool)
    requires Safe(w, hash) && w.socket == Some(k) == w.registered && w.job.Some? && Claiming(w.up[k])
    ensures var w' := DeliverStep(hash, w, k, clientGone);
      Answered(w.job.value, w'.up[k], w'.down, w'.session)
  {
    assert w.up[k][0] in w.up[k];
  }

  lemma DeliverKeepsTracked(hash: string -> nat, w: World, socket: nat, clientGone: bool)
    requires Inv(w, hash) && socket < |w.up| && w.up[socket] != []
    ensures Tracked(DeliverStep(hash, w, socket, clientGone))
  {
    if w.socket != Some(socket) || w.job.None? { return; }
    var frames, w' := w.up[socket], DeliverStep(hash, w, socket, clientGone);
    assert forall f :: f in frames[1..] ==> f in frames;
    if frames[0].Register? {
      assert w'.up[socket] == [frames[1]];
    } else if w.registered == Some(socket) {
      assert Register !in frames;
      if Claiming(frames) { ClaimAnswered(w, socket, hash, clientGone); }
      else if frames[0].ChunkFrame? { StreamingChunk(w, socket, clientGone, hash); }
      else if frames[0].CompleteFrame? { StreamingCompletion(w, socket, clientGone, hash); }
      else { StreamingOther(w, socket, clientGone, hash); }
    }
  }

  lemma ConnectionKeepsTracked(enc: Encoder, hash: string -> nat, w: World, e: Event)
    requires Inv(w, hash) && Enabled(w, e)
    requires e.Disconnect? || e.Connect? || e.LoseTail? || e.AdvisorClose? || e.SessionExpired?
    ensures Tracked(Step(enc, hash, w, e))
  {
    if e.Connect? && w.job.Some? {
      var p := w.job.value.producedSeq;
      assert [Register] + [Claim(p)] == [Register, Claim(p)];
    }
  }

  lemma StepKeepsTracked(enc: Encoder, hash: string -> nat, w: World, e: Event)
    requires Inv(w, hash)
    ensures Tracked(Step(enc, hash, w, e))
  {
    if !Enabled(w, e) { return; }
    match e {
      case Produce(output, totalBytes) => ProduceKeepsTracked(enc, hash, w, output, totalBytes);
      case HandlerDone => JobMoves(w, HandlerDoneStep(w));
      case HandlerPanicked => JobMoves(w, w.(running := false, job := None));
      case TimerExpired => JobMoves(w, w.(job := None));
      case Drain => DrainKeepsTracked(hash, w);
      case Deliver(socket, clientGone) => DeliverKeepsTracked(hash, w, socket, clientGone);
      case Receive => ReceiveKeepsTracked(hash, w);
      case _ => ConnectionKeepsTracked(enc, hash, w, e);
    }
  }

  lemma {:induction false} AlwaysTracked(enc: Encoder, hash: string -> nat, token: string, events: seq<Event>)
    ensures Inv(Run(enc, hash, token, events), hash)
  {
    AlwaysSafe(enc, hash, token, events);
    if events != [] {
      var last := |events| - 1;
      AlwaysTracked(enc, hash, token, events[..last]);
      StepKeepsTracked(enc, hash, Run(enc, hash, token, events[..last]), events[last]);
    }
  }

  /** Quiescence means delivery. When the provider's socket is the registered one, no frame is in
      flight either way and a drain would send nothing, then either the session is gone, or the
      requester has everything produced, all of it is acknowledged, and no completion is pending. */
  lemma QuiescentMeansDelivered(enc: Encoder, hash: string -> nat, token: string, events: seq<Event>)
    requires var w := Run(enc, hash, token, events);
      && w.socket.Some? && w.registered == w.socket && w.socket.value < |w.up| && w.up[w.socket.value] == []
      && w.down == [] && w.job.Some? && Contiguous(w.job.value) && DrainFrames(w.job.value) == []
    ensures var w := Run(enc, hash, token, events);
      || w.session.Gone?
      || (&& w.job.value.attached && w.relayed.bodies == w.produced && w.relayed.ending.None?
          && w.job.value.ackedSeq == |w.produced| && w.job.value.chunks == map[] && w.job.value.completion.None?)
  {
    AlwaysTracked(enc, hash, token, events);
    var w := Run(enc, hash, token, events);
    var job := w.job.value;
    assert Streaming(job, [], [], w.session);
    if w.session.Live? {
      DrainCarries(job, w.running);
      assert FramesOf(DrainFrames(job)) == [];
      assert job.chunks == map[];
    }
  }
}
