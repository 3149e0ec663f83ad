/** What the drains of one attachment send. Between a (re)attach and the next detach or resume
    verdict a job sees only offers, acknowledgments and drains; the frames that those drains emit,
    put end to end, carry strictly increasing sequence numbers and at most one completion, and the
    completion comes after every chunk. */
module DrainOrder {
  import opened Wrappers
  import opened ReplayJob

  datatype Step =
    | Offered(message: Message, totalBytes: nat)
    | Undecodable
    | Acked(token: string, nextSeq: nat, completed: bool)
    | DrainStep

  /** One drain emits exactly the chunks from the send cursor to the last one produced, in order,
      and then the completion if it is still due; draining again emits nothing, nor does a job that
      is detached. */
  lemma DrainIsExact(job: Job, running: bool)
    requires JobOk(job, running)
    ensures var chunks := Range(job.chunks, job.sendSeq, job.producedSeq);
            && (job.attached ==> DrainFrames(job) == ControlFrames(job) + chunks + CompletionFrames(job))
            && |chunks| == job.producedSeq - job.sendSeq
            && (forall i :: 0 <= i < |chunks| ==> chunks[i].msg.Chunk? && chunks[i].msg.seqNo == job.sendSeq + i)
    ensures DrainFrames(Drained(job)) == [] && DrainFrames(Detached(job)) == []
  {
    DrainedOk(job, running);
  }

  /** One step of an attachment: the job that remains, whether its pump still runs, and the
      frames emitted. */
  ghost function Next(enc: Encoder, job: Job, running: bool, step: Step): (Option<Job>, bool, seq<Payload>)
    requires JobOk(job, running)
  {
    match step
    case Offered(message, totalBytes) =>
      if !running then (Some(job), false, [])
      else
        var (job', accepted) := Buffer(enc, job, totalBytes, message);
        (Some(job'), PumpContinues(accepted, message), [])
    case Undecodable =>
      if !running then (Some(job), false, []) else (Some(FailTerminal(enc, job)), false, [])
    case Acked(token, nextSeq, completed) =>
      (Acknowledge(job, token, nextSeq, completed), running, [])
    case DrainStep => (Some(Drained(job)), running, DrainFrames(job))
  }

  lemma NextOk(enc: Encoder, job: Job, running: bool, step: Step)
    requires JobOk(job, running)
    ensures var (job', running', _) := Next(enc, job, running, step);
            job'.Some? ==> JobOk(job'.value, running')
  {
    match step {
      case Offered(message, totalBytes) => if running { BufferKeepsOk(enc, job, totalBytes, message); }
      case Undecodable => if running { FailTerminalOk(enc, job); }
      case Acked(token, nextSeq, completed) => AcknowledgeKeepsOk(job, running, token, nextSeq, completed);
      case DrainStep => DrainedOk(job, running);
    }
  }

  /** The frames emitted over a whole attachment, the pump stopping as it does. */
  ghost function Emitted(enc: Encoder, job: Job, running: bool, steps: seq<Step>): seq<Payload>
    requires JobOk(job, running)
    decreases |steps|
  {
    if steps == [] then []
    else
      NextOk(enc, job, running, steps[0]);
      var (job', running', out) := Next(enc, job, running, steps[0]);
      out + if job'.None? then [] else Emitted(enc, job'.value, running', steps[1..])
  }

  /** Chunks numbered upwards from `from`, then at most one completion; `done` says that the
      completion has already gone out. Keepalives may come anywhere. */
  ghost predicate Ordered(frames: seq<Payload>, from: nat, done: bool)
    decreases |frames|
  {
    if frames == [] then true
    else
      match frames[0].msg
      case Chunk(seqNo, _) => !done && from <= seqNo && Ordered(frames[1..], seqNo + 1, false)
      case Complete(_, _) => !done && Ordered(frames[1..], from, true)
      case Keepalive => Ordered(frames[1..], from, done)
      case Unbuffered => false
  }

  /** Consecutive chunks in front of an ordered tail. */
  lemma {:induction false} OrderedRange(chunks: map<nat, Payload>, lo: nat, hi: nat, tail: seq<Payload>)
    requires lo <= hi && (forall i :: lo <= i < hi ==> i in chunks)
    requires forall i :: lo <= i < hi ==> chunks[i].msg.Chunk? && chunks[i].msg.seqNo == i
    requires Ordered(tail, hi, false)
    ensures Ordered(Range(chunks, lo, hi) + tail, lo, false)
    decreases hi - lo
  {
    var frames := Range(chunks, lo, hi) + tail;
    if lo == hi {
      assert frames == tail;
    } else {
      OrderedRange(chunks, lo + 1, hi, tail);
      assert frames[1..] == Range(chunks, lo + 1, hi) + tail;
    }
  }

  lemma OrderedCompletion(job: Job, running: bool, tail: seq<Payload>)
    requires JobOk(job, running)
    requires Ordered(tail, job.producedSeq, job.completionSent || job.completion.Some?)
    ensures Ordered(CompletionFrames(job) + tail, job.producedSeq, job.completionSent)
  {
    if CompletionFrames(job) == [] { assert CompletionFrames(job) + tail == tail; }
    else { assert (CompletionFrames(job) + tail)[1..] == tail; }
  }

  lemma OrderedControl(job: Job, running: bool, tail: seq<Payload>, from: nat, done: bool)
    requires JobOk(job, running) && Ordered(tail, from, done)
    ensures Ordered(ControlFrames(job) + tail, from, done)
  {
    if ControlFrames(job) == [] { assert ControlFrames(job) + tail == tail; }
    else { assert (ControlFrames(job) + tail)[1..] == tail; }
  }

  lemma OrderedDrain(job: Job, running: bool, tail: seq<Payload>)
    requires JobOk(job, running) && job.attached
    requires Ordered(tail, job.producedSeq, job.completionSent || job.completion.Some?)
    ensures Ordered(DrainFrames(job) + tail, job.sendSeq, job.completionSent)
  {
    var chunks := Range(job.chunks, job.sendSeq, job.producedSeq);
    var tail1 := CompletionFrames(job) + tail;
    OrderedCompletion(job, running, tail);
    if job.completionSent {
      assert chunks + tail1 == tail1;
    } else {
      OrderedRange(job.chunks, job.sendSeq, job.producedSeq, tail1);
    }
    OrderedControl(job, running, chunks + tail1, job.sendSeq, job.completionSent);
    assert DrainFrames(job) + tail == ControlFrames(job) + (chunks + tail1);
  }

  /** What one step does to the cursors that the order of later frames depends on. */
  lemma NextCursors(enc: Encoder, job: Job, running: bool, step: Step)
    requires JobOk(job, running) && job.attached
    ensures var (job', _, out) := Next(enc, job, running, step);
            && (job'.Some? ==> job'.value.attached)
            && (!step.DrainStep? && job'.Some? ==>
                  && out == [] && job.sendSeq <= job'.value.sendSeq
                  && job'.value.completionSent == job.completionSent)
            && (!step.DrainStep? ==> out == [])
  {}

  lemma {:induction false} OrderedBelow(frames: seq<Payload>, from: nat, lower: nat, done: bool)
    requires Ordered(frames, from, done) && lower <= from
    ensures Ordered(frames, lower, done)
    decreases |frames|
  {
    if frames != [] && !frames[0].msg.Chunk? {
      OrderedBelow(frames[1..], from, lower, done || frames[0].msg.Complete?);
    }
  }

  /** Over a whole attachment nothing is emitted twice and nothing out of order. */
  lemma {:induction false} EmittedInOrder(enc: Encoder, job: Job, running: bool, steps: seq<Step>)
    requires JobOk(job, running) && job.attached
    ensures Ordered(Emitted(enc, job, running, steps), job.sendSeq, job.completionSent)
    decreases |steps|
  {
    if steps != [] {
      NextOk(enc, job, running, steps[0]);
      NextCursors(enc, job, running, steps[0]);
      var (job', running', out) := Next(enc, job, running, steps[0]);
      if job'.Some? {
        var frames := Emitted(enc, job'.value, running', steps[1..]);
        EmittedInOrder(enc, job'.value, running', steps[1..]);
        if steps[0].DrainStep? { OrderedDrain(job, running, frames); }
        else {
          OrderedBelow(frames, job'.value.sendSeq, job.sendSeq, job.completionSent);
          assert out + frames == frames;
        }
      }
    }
  }
}
