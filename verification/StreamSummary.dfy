/** The summary of a finished job - its token counts and its receipt - end to end: what the final event
    tells the requester is what the handler's completion said, whatever happened to the sockets in
    between; a job that was cut short is reported with no tokens and no receipt. */
module StreamSummary {
  import opened Wrappers
  import opened ReplayJob
  import opened AdvisorSessions
  import opened StreamDelivery
  import opened StreamSafety

  /** What the requester should be told. */
  function Reported(c: Closing): Summary {
    match c
    case Emitted(summary) => summary
    case Refused => Summary(0, 0, "")
  }

  ghost predicate SummaryFrames(frames: seq<Up>, closing: Option<Closing>) {
    forall f :: f in frames && f.CompleteFrame? ==> closing.Some? && f.summary == Reported(closing.value)
  }

  ghost predicate SummaryJob(job: Job, closing: Option<Closing>) {
    job.completion.Some? ==>
      closing.Some? && job.completion.value.msg.Complete? && job.completion.value.msg.summary == Reported(closing.value)
  }

  /** The buffer, the links and the requester know no other summary than the one to be reported. */
  ghost predicate SummaryOk(w: World) {
    && (w.running ==> w.closing.None?)
    && (w.job.Some? ==> SummaryJob(w.job.value, w.closing))
    && (forall k :: 0 <= k < |w.up| ==> SummaryFrames(w.up[k], w.closing))
    && (w.relayed.ending == Some(Finished) ==> w.closing.Some? && w.relayed.summary == Some(Reported(w.closing.value)))
  }

  lemma OfferKeepsSummary(enc: Encoder, job: Job, handlerSeq: nat, output: Output, totalBytes: nat)
    requires JobOk(job, true)
    ensures var (job', accepted) := Offer(enc, job, totalBytes, MessageOf(output, handlerSeq));
            var closing := if !accepted then Some(Refused)
                           else if output.Finish? then Some(Emitted(output.summary)) else None;
            SummaryJob(job', closing)
  {}

  lemma ProduceKeepsSummary(enc: Encoder, hash: string -> nat, w: World, output: Output, totalBytes: nat)
    requires Safe(w, hash) && SummaryOk(w) && w.running
    ensures SummaryOk(ProduceStep(enc, w, output, totalBytes))
  {
    var w' := ProduceStep(enc, w, output, totalBytes);
    if w.job.Some? { OfferKeepsSummary(enc, w.job.value, w.handlerSeq, output, totalBytes); }
    forall k | 0 <= k < |w.up| ensures SummaryFrames(w.up[k], w'.closing) {
      assert SummaryFrames(w.up[k], w.closing);
    }
  }

  lemma DrainedSummaries(job: Job, running: bool, closing: Option<Closing>)
    requires JobOk(job, running) && SummaryJob(job, closing)
    ensures SummaryFrames(FramesOf(DrainFrames(job)), closing)
  {
    var frames := FramesOf(DrainFrames(job));
    forall f | f in frames && f.CompleteFrame? ensures closing.Some? && f.summary == Reported(closing.value) {
      var i :| 0 <= i < |frames| && frames[i] == f;
      DrainedPayload(job, running, i);
    }
  }

  lemma DrainKeepsSummary(hash: string -> nat, w: World)
    requires Safe(w, hash) && SummaryOk(w) && w.socket.Some?
    ensures SummaryOk(DrainStep(w))
  {
    if w.job.Some? { DrainedSummaries(w.job.value, w.running, w.closing); }
  }

  lemma ReplyKeepsSummary(job: Job, reply: Reply, closing: Option<Closing>)
    requires SummaryJob(job, closing)
    ensures var job' := ApplyReply(job, reply); job'.Some? ==> SummaryJob(job'.value, closing)
  {}

  lemma HandleKeepsSummary(hash: string -> nat, w: World, socket: nat, frame: Up, clientGone: bool)
    requires SummaryOk(w) && SummaryFrames([frame], w.closing)
    ensures SummaryOk(HandleFrame(hash, w, socket, frame, clientGone))
  {
    assert frame in [frame];
  }

  lemma TakeFirst(w: World, socket: nat)
    requires SummaryOk(w) && socket < |w.up| && w.up[socket] != []
    ensures SummaryOk(w.(up := w.up[socket := w.up[socket][1..]])) && SummaryFrames([w.up[socket][0]], w.closing)
  {
    assert forall f :: f in w.up[socket][1..] ==> f in w.up[socket];
    assert SummaryFrames(w.up[socket], w.closing);
  }

  lemma DeliverKeepsSummary(hash: string -> nat, w: World, socket: nat, clientGone: bool)
    requires SummaryOk(w) && socket < |w.up| && w.up[socket] != []
    ensures SummaryOk(DeliverStep(hash, w, socket, clientGone))
  {
    TakeFirst(w, socket);
    HandleKeepsSummary(hash, w.(up := w.up[socket := w.up[socket][1..]]), socket, w.up[socket][0], clientGone);
  }

  lemma LoseTailKeepsSummary(w: World, socket: nat, keep: nat)
    requires SummaryOk(w) && socket < |w.up| && keep <= |w.up[socket]|
    ensures SummaryOk(w.(up := w.up[socket := w.up[socket][..keep]]))
  {
    assert forall f :: f in w.up[socket][..keep] ==> f in w.up[socket];
    assert SummaryFrames(w.up[socket], w.closing);
  }

  lemma StepKeepsSummary(enc: Encoder, hash: string -> nat, w: World, e: Event)
    requires Safe(w, hash) && SummaryOk(w)
    ensures SummaryOk(Step(enc, hash, w, e))
  {
    if !Enabled(w, e) { return; }
    match e {
      case Produce(output, totalBytes) => ProduceKeepsSummary(enc, hash, w, output, totalBytes);
      case Drain => DrainKeepsSummary(hash, w);
      case Receive => if w.job.Some? { ReplyKeepsSummary(w.job.value, w.down[0], w.closing); }
      case Deliver(socket, clientGone) => DeliverKeepsSummary(hash, w, socket, clientGone);
      case LoseTail(socket, keep) => LoseTailKeepsSummary(w, socket, keep);
      case _ =>
    }
  }

  lemma {:induction false} AlwaysSummary(enc: Encoder, hash: string -> nat, token: string, events: seq<Event>)
    ensures SummaryOk(Run(enc, hash, token, events))
  {
    if events != [] {
      var last := |events| - 1;
      AlwaysSafe(enc, hash, token, events[..last]);
      AlwaysSummary(enc, hash, token, events[..last]);
      StepKeepsSummary(enc, hash, Run(enc, hash, token, events[..last]), events[last]);
    }
  }

  /** Whether this world takes the output that the handler offers. */
  predicate Takes(enc: Encoder, w: World, output: Output, totalBytes: nat) {
    w.job.Some? && Offer(enc, w.job.value, totalBytes, MessageOf(output, w.handlerSeq)).1
  }

  /** The message that the handler's output becomes. */
  predicate BecomesMessage(output: Output, seqNo: nat, message: Message) {
    match output
    case Delta(body) => message == Chunk(seqNo, body)
    case Finish(summary) => message == Complete(summary, Some(seqNo))
    case Alive => message == Keepalive
    case Ignored => message == Unbuffered
    case Garbled => false
  }

  /** A running job takes an output exactly when it becomes a message that can be encoded and that fits;
      the numbering is the handler's own. A chunk taken is produced, and the pump goes on after everything
      taken but the completion. */
  lemma WhatIsTaken(enc: Encoder, hash: string -> nat, w: World, output: Output, totalBytes: nat)
    requires Safe(w, hash) && w.running && w.job.Some?
    ensures var job, w' := w.job.value, ProduceStep(enc, w, output, totalBytes);
      && (Takes(enc, w, output, totalBytes) <==>
            && job.producedSeq - job.ackedSeq < 512
            && exists message :: BecomesMessage(output, job.producedSeq, message) && enc(message).Some?
                 && job.bytes + enc(message).value <= 0x80_0000 && totalBytes + enc(message).value <= 0x200_0000)
      && w'.produced == w.produced +
           (if output.Delta? && Takes(enc, w, output, totalBytes) then [output.body] else [])
      && w'.running == (Takes(enc, w, output, totalBytes) && !output.Finish?)
  {
    var message := MessageOf(output, w.handlerSeq);
    if message.Some? {
      AcceptedIff(enc, w.job.value, totalBytes, message.value);
      assert BecomesMessage(output, w.job.value.producedSeq, Stamp(message.value, w.job.value.producedSeq));
    }
  }

  /** How the production ended is told by the event that ended it. */
  lemma {:induction false} ClosedByAnOffer(enc: Encoder, hash: string -> nat, token: string, events: seq<Event>)
    returns (n: nat)
    requires Run(enc, hash, token, events).closing.Some?
    ensures n < |events| && events[n].Produce? && Run(enc, hash, token, events[..n]).running
    ensures var output := events[n].output;
      Run(enc, hash, token, events).closing ==
        if Takes(enc, Run(enc, hash, token, events[..n]), output, events[n].totalBytes) && output.Finish?
        then Some(Emitted(output.summary)) else Some(Refused)
    ensures Takes(enc, Run(enc, hash, token, events[..n]), events[n].output, events[n].totalBytes) ==>
      events[n].output.Finish?
  {
    var last := |events| - 1;
    var before := Run(enc, hash, token, events[..last]);
    AlwaysSummary(enc, hash, token, events[..last]);
    if before.closing.Some? {
      n := ClosedByAnOffer(enc, hash, token, events[..last]);
      assert events[..last][..n] == events[..n];
    } else {
      n := last;
    }
  }

  /** Whenever the requester's stream is reported finished, some event of the run is either the offer of
      the handler's own completion, and its summary is what the requester was sent; or an offer that was
      refused, and the requester was sent no tokens and no receipt. */
  lemma FinishedWithTheHandlersSummary(enc: Encoder, hash: string -> nat, token: string, events: seq<Event>)
    returns (n: nat)
    requires Run(enc, hash, token, events).relayed.ending == Some(Finished)
    ensures n < |events| && events[n].Produce? && Run(enc, hash, token, events[..n]).running
    ensures var summary := Run(enc, hash, token, events).relayed.summary;
      if Takes(enc, Run(enc, hash, token, events[..n]), events[n].output, events[n].totalBytes)
      then events[n].output.Finish? && summary == Some(events[n].output.summary)
      else summary == Some(Summary(0, 0, ""))
  {
    AlwaysSummary(enc, hash, token, events);
    n := ClosedByAnOffer(enc, hash, token, events);
  }
}
