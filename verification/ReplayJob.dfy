/** One resumable invocation: the sequence-numbered replay buffer that the provider
    keeps for a job, and the transitions that the invocation manager applies to it.

    The bounded BTreeMap of serialized chunks is a `map` from sequence number to payload;
    a payload is the message together with the byte length of its serialized text, which
    is what the buffer accounts for. The JSON serializer is the parameter `Encoder`: it
    returns that length, or None when serialization fails. */
module ReplayJob {
  import opened Wrappers

  const MAX_FRAMES: nat := 512
  const MAX_BYTES: nat := 8 * 1024 * 1024
  const TOTAL_MAX_BYTES: nat := 32 * 1024 * 1024

  datatype Summary = Summary(tokensIn: nat, tokensOut: nat, receiptUri: string)

  /** The frames a job's handler emits. `Unbuffered` stands for every message
      type that the buffer passes over. */
  datatype Message =
    | Chunk(seqNo: nat, body: string)
    | Complete(summary: Summary, finalSeq: Option<nat>)
    | Keepalive
    | Unbuffered

  type Encoder = Message -> Option<nat>

  datatype Payload = Payload(msg: Message, length: nat)

  datatype Job = Job(
    resumeToken: string,
    producedSeq: nat,
    ackedSeq: nat,
    sendSeq: nat,
    chunks: map<nat, Payload>,
    controls: Option<Payload>,
    completion: Option<Payload>,
    completionSent: bool,
    attached: bool,
    bytes: nat,
    detachGen: nat)

  datatype Status = Resume | Completed | Rejected

  function NewJob(token: string): Job {
    Job(token, 0, 0, 0, map[], None, None, false, true, 0, 0)
  }

  // ---------------------------------------------------------------- buffering

  /** The completion that ends a failed job: no tokens, no receipt. */
  function Synthetic(producedSeq: nat): Message {
    Complete(Summary(0, 0, ""), Some(producedSeq))
  }

  function FailTerminal(enc: Encoder, job: Job): Job {
    match enc(Synthetic(job.producedSeq))
    case None => job
    case Some(length) =>
      job.(bytes := job.bytes + length,
           completion := Some(Payload(Synthetic(job.producedSeq), length)),
           completionSent := false)
  }

  function Stamp(message: Message, producedSeq: nat): Message {
    if message.Complete? then message.(finalSeq := Some(producedSeq)) else message
  }

  function FrameCount(job: Job): nat {
    |job.chunks| + if job.completion.Some? then 1 else 0
  }

  predicate Full(job: Job, totalBytes: nat, length: nat) {
    || FrameCount(job) >= MAX_FRAMES
    || job.bytes + length > MAX_BYTES
    || totalBytes + length > TOTAL_MAX_BYTES
  }

  /** The job after its next chunk has been recorded. */
  function Appended(job: Job, payload: Payload): Job {
    job.(producedSeq := job.producedSeq + 1,
         bytes := job.bytes + payload.length,
         chunks := job.chunks[job.producedSeq := payload])
  }

  /** Offer `message` to the buffer, `totalBytes` being the bytes buffered by all jobs.
      The flag tells the job's pump whether to go on. */
  function Buffer(enc: Encoder, job: Job, totalBytes: nat, message: Message): (Job, bool) {
    var stamped := Stamp(message, job.producedSeq);
    match enc(stamped)
    case None => (FailTerminal(enc, job), false)
    case Some(length) =>
      if Full(job, totalBytes, length) then (FailTerminal(enc, job), false)
      else
        match stamped
        case Chunk(seqNo, _) =>
          if seqNo != job.producedSeq then (FailTerminal(enc, job), false)
          else (Appended(job, Payload(stamped, length)), true)
        case Complete(_, _) =>
          (job.(bytes := job.bytes + length, completion := Some(Payload(stamped, length))), true)
        case Keepalive =>
          (if job.attached then job.(controls := Some(Payload(stamped, length))) else job, true)
        case Unbuffered => (job, true)
  }

  /** Whether the pump offers another message after this one: it stops at the first
      refusal, and the handler emits nothing after its completion. */
  predicate PumpContinues(accepted: bool, message: Message) {
    accepted && !message.Complete?
  }

  // ---------------------------------------------------------------- acknowledging

  /** Total length of the payloads buffered under lo, ..., hi-1. */
  function SumRange(chunks: map<nat, Payload>, lo: nat, hi: nat): nat
    decreases hi
  {
    if hi <= lo then 0
    else SumRange(chunks, lo, hi - 1) + if hi - 1 in chunks then chunks[hi - 1].length else 0
  }

  function Minus(a: nat, b: nat): nat {
    if a < b then 0 else a - b
  }

  /** Drop every chunk below `nextSeq`. */
  function AckChunks(job: Job, nextSeq: nat): Job {
    job.(chunks := map i | i in job.chunks && nextSeq <= i :: job.chunks[i],
         bytes := Minus(job.bytes, SumRange(job.chunks, 0, nextSeq)),
         ackedSeq := nextSeq,
         sendSeq := if job.sendSeq < nextSeq then nextSeq else job.sendSeq)
  }

  /** An acknowledgment: the job that remains, or None when it is finished with. */
  function Acknowledge(job: Job, token: string, nextSeq: nat, completed: bool): Option<Job> {
    if job.resumeToken != token || nextSeq < job.ackedSeq || job.producedSeq < nextSeq then Some(job)
    else if completed then
      if job.completion.None? || nextSeq != job.producedSeq then Some(job) else None
    else Some(AckChunks(job, nextSeq))
  }

  /** A resume verdict from the advisor: the job that remains, or None when it is cancelled. */
  function HandleResume(job: Job, token: string, status: Status, nextSeq: nat): Option<Job> {
    if job.resumeToken != token then Some(job)
    else if status.Resume? && nextSeq <= job.producedSeq then
      Some(AckChunks(job, nextSeq).(sendSeq := nextSeq, completionSent := false, attached := true))
    else None
  }

  // ---------------------------------------------------------------- sending and detaching

  /** The buffered payloads lo, ..., hi-1 in order. */
  function Range(chunks: map<nat, Payload>, lo: nat, hi: nat): seq<Payload>
    requires forall i :: lo <= i < hi ==> i in chunks
  {
    seq(if lo <= hi then hi - lo else 0, i requires 0 <= i < hi - lo => chunks[lo + i])
  }

  function ControlFrames(job: Job): seq<Payload> {
    if job.controls.Some? then [job.controls.value] else []
  }

  function CompletionFrames(job: Job): seq<Payload> {
    if job.completion.Some? && !job.completionSent then [job.completion.value] else []
  }

  /** The buffered sequence numbers are exactly lo, ..., hi-1. */
  ghost predicate Buffered(chunks: map<nat, Payload>, lo: nat, hi: nat) {
    forall i: nat :: i in chunks <==> lo <= i < hi
  }

  ghost predicate Contiguous(job: Job) {
    && job.ackedSeq <= job.sendSeq <= job.producedSeq
    && Buffered(job.chunks, job.ackedSeq, job.producedSeq)
  }

  /** What one drain emits for this job. */
  ghost function DrainFrames(job: Job): seq<Payload>
    requires Contiguous(job)
  {
    if !job.attached then []
    else ControlFrames(job) + Range(job.chunks, job.sendSeq, job.producedSeq) + CompletionFrames(job)
  }

  function Drained(job: Job): Job {
    if !job.attached then job
    else job.(controls := None,
              sendSeq := if job.sendSeq < job.producedSeq then job.producedSeq else job.sendSeq,
              completionSent := job.completionSent || job.completion.Some?)
  }

  function Detached(job: Job): Job {
    job.(attached := false, sendSeq := job.ackedSeq, completionSent := false,
         detachGen := job.detachGen + 1)
  }

  // ---------------------------------------------------------------- the replay-buffer invariant

  function CompletionBytes(job: Job): nat {
    if job.completion.Some? then job.completion.value.length else 0
  }

  /** What every reachable job satisfies. `running` says that the job's pump may still offer
      messages. */
  ghost predicate JobOk(job: Job, running: bool) {
    && Contiguous(job)
    && (forall i :: i in job.chunks ==> job.chunks[i].msg.Chunk? && job.chunks[i].msg.seqNo == i)
    && (job.controls.Some? ==> job.controls.value.msg.Keepalive?)
    && job.bytes == SumRange(job.chunks, job.ackedSeq, job.producedSeq) + CompletionBytes(job)
    && (job.completion.Some? ==>
          && job.completion.value.msg.Complete?
          && job.completion.value.msg.finalSeq == Some(job.producedSeq))
    && (job.completionSent ==> job.completion.Some? && job.sendSeq == job.producedSeq)
    && (running ==> job.completion.None?)
  }

  lemma SumRangeSplit(chunks: map<nat, Payload>, lo: nat, mid: nat, hi: nat)
    requires lo <= mid <= hi
    ensures SumRange(chunks, lo, hi) == SumRange(chunks, lo, mid) + SumRange(chunks, mid, hi)
  {
    if mid < hi { SumRangeSplit(chunks, lo, mid, hi - 1); }
  }

  lemma SumRangeAgree(a: map<nat, Payload>, b: map<nat, Payload>, lo: nat, hi: nat)
    requires forall i :: lo <= i < hi ==> (i in a <==> i in b) && (i in a ==> a[i] == b[i])
    ensures SumRange(a, lo, hi) == SumRange(b, lo, hi)
  {
    if lo < hi { SumRangeAgree(a, b, lo, hi - 1); }
  }

  lemma SumRangeEmpty(chunks: map<nat, Payload>, lo: nat, hi: nat)
    requires forall i :: lo <= i < hi ==> i !in chunks
    ensures SumRange(chunks, lo, hi) == 0
  {
    if lo < hi { SumRangeEmpty(chunks, lo, hi - 1); }
  }

  lemma NewJobOk(token: string)
    ensures JobOk(NewJob(token), true)
  {}

  lemma FailTerminalOk(enc: Encoder, job: Job)
    requires JobOk(job, true)
    ensures JobOk(FailTerminal(enc, job), false)
  {}

  /** The completion of a failed job is sent by the next drain, last of all, even after another one. */
  lemma FailureIsSent(enc: Encoder, job: Job)
    requires Contiguous(job) && job.attached
    requires enc(Complete(Summary(0, 0, ""), Some(job.producedSeq))).Some?
    ensures var frames := DrainFrames(FailTerminal(enc, job));
      frames != [] && frames[|frames| - 1].msg == Complete(Summary(0, 0, ""), Some(job.producedSeq))
  {}

  lemma AppendedOk(job: Job, payload: Payload)
    requires JobOk(job, true)
    requires payload.msg.Chunk? && payload.msg.seqNo == job.producedSeq
    ensures JobOk(Appended(job, payload), true)
  {
    SumRangeAgree(job.chunks, Appended(job, payload).chunks, job.ackedSeq, job.producedSeq);
  }

  /** Buffering keeps the invariant as long as the pump is the one feeding the job. */
  lemma BufferKeepsOk(enc: Encoder, job: Job, totalBytes: nat, message: Message)
    requires JobOk(job, true)
    ensures var (job', accepted) := Buffer(enc, job, totalBytes, message);
            JobOk(job', PumpContinues(accepted, message))
  {
    FailTerminalOk(enc, job);
    var stamped := Stamp(message, job.producedSeq);
    var length := enc(stamped);
    if length.Some? && stamped.Chunk? && stamped.seqNo == job.producedSeq {
      AppendedOk(job, Payload(stamped, length.value));
    }
  }

  /** A running job refuses exactly what it cannot encode, what does not fit, and a chunk out of
      sequence; then it keeps every chunk and ends with a completion that accounts for all of them. What
      it accepts it keeps as offered: a chunk under its number, the handler's own completion stamped with
      the number of chunks, and the latest keepalive while attached. */
  lemma AcceptedIff(enc: Encoder, job: Job, totalBytes: nat, message: Message)
    requires JobOk(job, true)
    ensures var (job', accepted) := Buffer(enc, job, totalBytes, message);
            var length := enc(Stamp(message, job.producedSeq));
            && (accepted <==>
                  && length.Some? && job.producedSeq - job.ackedSeq < 512
                  && job.bytes + length.value <= 0x80_0000 && totalBytes + length.value <= 0x200_0000
                  && (message.Chunk? ==> message.seqNo == job.producedSeq))
            && (accepted && message.Chunk? ==>
                  job'.chunks == job.chunks[job.producedSeq := Payload(message, length.value)])
            && (!message.Chunk? || !accepted ==> job'.chunks == job.chunks && job'.producedSeq == job.producedSeq)
            && (accepted && message.Complete? ==>
                  job'.completion == Some(Payload(Complete(message.summary, Some(job.producedSeq)), length.value)))
            && (accepted && !message.Complete? ==> job'.completion.None?)
            && (accepted ==>
                  && job'.resumeToken == job.resumeToken && job'.attached == job.attached
                  && job'.ackedSeq == job.ackedSeq && job'.sendSeq == job.sendSeq
                  && job'.controls == if message.Keepalive? && job.attached
                                      then Some(Payload(message, length.value)) else job.controls)
            && (!accepted ==>
                  var message' := Complete(Summary(0, 0, ""), Some(job.producedSeq));
                  if enc(message').None? then job' == job
                  else job' == job.(completion := Some(Payload(message', enc(message').value)),
                                    bytes := job.bytes + enc(message').value))
  {
    BufferedCount(job.chunks, job.ackedSeq, job.producedSeq);
  }

  lemma {:induction false} BufferedCount(chunks: map<nat, Payload>, lo: nat, hi: nat)
    requires lo <= hi && Buffered(chunks, lo, hi)
    ensures |chunks| == hi - lo
    decreases hi
  {
    if lo == hi {
      assert chunks.Keys == {};
    } else {
      var fewer := chunks - {hi - 1};
      BufferedCount(fewer, lo, hi - 1);
      assert chunks.Keys == fewer.Keys + {hi - 1};
    }
  }

  lemma FullWhenComplete(job: Job, totalBytes: nat, length: nat)
    requires Contiguous(job) && job.completion.Some?
    ensures Full(job, totalBytes, length) <==>
      job.producedSeq - job.ackedSeq >= 511 || job.bytes + length > 0x80_0000 || totalBytes + length > 0x200_0000
  {
    BufferedCount(job.chunks, job.ackedSeq, job.producedSeq);
  }

  lemma RecordedAfterCompletion(enc: Encoder, job: Job, totalBytes: nat, message: Message)
    requires JobOk(job, false) && job.completion.Some? && 0 < job.completion.value.length
    requires enc(Synthetic(job.producedSeq)).Some?
    ensures var length := enc(Stamp(message, job.producedSeq));
            JobOk(Buffer(enc, job, totalBytes, message).0, false) <==>
              length.Some? && !Full(job, totalBytes, length.value) && (message.Keepalive? || message.Unbuffered?)
  {
    var job' := Buffer(enc, job, totalBytes, message).0;
    if job'.producedSeq == job.producedSeq {
      SumRangeAgree(job.chunks, job'.chunks, job.ackedSeq, job.producedSeq);
    }
  }

  /** Without that discipline the invariant does not survive: once a completion is buffered,
      a further message leaves it standing exactly when the message is one that is not recorded. */
  lemma BufferAfterCompletion(enc: Encoder, job: Job, totalBytes: nat, message: Message)
    requires JobOk(job, false) && job.completion.Some? && 0 < job.completion.value.length
    requires enc(Synthetic(job.producedSeq)).Some?
    ensures var length := enc(Stamp(message, job.producedSeq));
            JobOk(Buffer(enc, job, totalBytes, message).0, false) <==>
              && length.Some? && job.producedSeq - job.ackedSeq < 511
              && job.bytes + length.value <= 0x80_0000 && totalBytes + length.value <= 0x200_0000
              && (message.Keepalive? || message.Unbuffered?)
  {
    RecordedAfterCompletion(enc, job, totalBytes, message);
    var length := enc(Stamp(message, job.producedSeq));
    if length.Some? { FullWhenComplete(job, totalBytes, length.value); }
  }

  /** A finished job that is offered a chunk records it behind its completion, which no longer
      counts all chunks. */
  lemma ChunkAfterCompletionBreaksTheBuffer(token: string)
    ensures var job := NewJob(token).(completion := Some(Payload(Synthetic(0), 1)), bytes := 1);
            var (job', accepted) := Buffer((m: Message) => Some(1), job, 1, Chunk(0, "late"));
            JobOk(job, false) && accepted && !JobOk(job', false)
  {
    var job := NewJob(token).(completion := Some(Payload(Synthetic(0), 1)), bytes := 1);
    BufferAfterCompletion((m: Message) => Some(1), job, 1, Chunk(0, "late"));
  }

  lemma AckChunksShape(job: Job, running: bool, nextSeq: nat)
    requires JobOk(job, running) && job.ackedSeq <= nextSeq <= job.producedSeq
    ensures var job' := AckChunks(job, nextSeq);
            && job'.bytes == job.bytes - SumRange(job.chunks, job.ackedSeq, nextSeq)
            && job'.bytes == SumRange(job'.chunks, nextSeq, job.producedSeq) + CompletionBytes(job)
            && Buffered(job'.chunks, nextSeq, job.producedSeq)
  {
    var job' := AckChunks(job, nextSeq);
    SumRangeSplit(job.chunks, 0, job.ackedSeq, nextSeq);
    SumRangeEmpty(job.chunks, 0, job.ackedSeq);
    SumRangeSplit(job.chunks, job.ackedSeq, nextSeq, job.producedSeq);
    SumRangeAgree(job.chunks, job'.chunks, nextSeq, job.producedSeq);
  }

  /** What an acknowledgment that counts leaves: nothing below the mark, the rest as it was, and nothing
      that has been acknowledged is sent. */
  ghost predicate AckedTo(job: Job, job': Job, nextSeq: nat) {
    && (forall i :: i in job'.chunks <==> i in job.chunks && nextSeq <= i)
    && (forall i :: i in job'.chunks ==> job'.chunks[i] == job.chunks[i])
    && job'.ackedSeq == nextSeq && job'.producedSeq == job.producedSeq
    && job'.sendSeq >= job.sendSeq && job'.sendSeq >= nextSeq
    && (job'.sendSeq == job.sendSeq || job'.sendSeq == nextSeq)
    && job'.resumeToken == job.resumeToken && job'.controls == job.controls
    && job'.completion == job.completion && job'.completionSent == job.completionSent
    && job'.attached == job.attached && job'.detachGen == job.detachGen
  }

  /** Acknowledging keeps the invariant, and its byte subtraction never saturates. */
  lemma AcknowledgeKeepsOk(job: Job, running: bool, token: string, nextSeq: nat, completed: bool)
    requires JobOk(job, running)
    ensures var job' := Acknowledge(job, token, nextSeq, completed);
            && (job'.Some? ==> JobOk(job'.value, running))
            && (job'.None? <==>
                  token == job.resumeToken && completed && nextSeq == job.producedSeq && job.completion.Some?)
            && (job'.Some? ==>
                  if token == job.resumeToken && !completed && job.ackedSeq <= nextSeq <= job.producedSeq
                  then AckedTo(job, job'.value, nextSeq)
                  else job'.value == job)
  {
    if job.ackedSeq <= nextSeq <= job.producedSeq { AckChunksShape(job, running, nextSeq); }
  }

  /** A resume verdict keeps the invariant exactly when the advisor's high-water mark is not
      behind what it has already acknowledged, a comparison that this handler does not make. */
  lemma HandleResumeKeepsOk(job: Job, running: bool, nextSeq: nat)
    requires JobOk(job, running) && nextSeq <= job.producedSeq
    ensures JobOk(HandleResume(job, job.resumeToken, Resume, nextSeq).value, running)
            <==> job.ackedSeq <= nextSeq
  {
    if job.ackedSeq <= nextSeq { AckChunksShape(job, running, nextSeq); }
    else {
      assert nextSeq !in AckChunks(job, nextSeq).chunks;
    }
  }

  /** The job whose only chunk is acknowledged: a verdict that restarts at 0 has nothing to resend. */
  lemma ResumeCanBreakTheBuffer(token: string)
    ensures var job := Job(token, 1, 1, 1, map[], None, None, false, true, 0, 0);
            JobOk(job, true) && !JobOk(HandleResume(job, token, Resume, 0).value, true)
  {
    HandleResumeKeepsOk(Job(token, 1, 1, 1, map[], None, None, false, true, 0, 0), true, 0);
  }

  /** A verdict for another token changes nothing; for this job it reattaches it at the advisor's
      mark with everything from there on to be sent again, or ends it. */
  lemma VerdictResends(job: Job, running: bool, token: string, status: Status, nextSeq: nat)
    requires JobOk(job, running) && job.ackedSeq <= nextSeq
    ensures var job' := HandleResume(job, token, status, nextSeq);
            && (token != job.resumeToken ==> job' == Some(job))
            && (token == job.resumeToken ==> (job'.Some? <==> status.Resume? && nextSeq <= job.producedSeq))
            && (token == job.resumeToken && job'.Some? ==>
                  && job'.value.attached && job'.value.ackedSeq == nextSeq && Contiguous(job'.value)
                  && DrainFrames(job'.value) == ControlFrames(job) + Range(job.chunks, nextSeq, job.producedSeq) +
                       (if job.completion.Some? then [job.completion.value] else []))
  {
    if token == job.resumeToken && status.Resume? && nextSeq <= job.producedSeq {
      HandleResumeKeepsOk(job, running, nextSeq);
      assert Range(HandleResume(job, token, status, nextSeq).value.chunks, nextSeq, job.producedSeq) ==
        Range(job.chunks, nextSeq, job.producedSeq);
    }
  }

  lemma DrainedOk(job: Job, running: bool)
    requires JobOk(job, running)
    ensures JobOk(Drained(job), running)
  {}

  lemma DetachedOk(job: Job, running: bool)
    requires JobOk(job, running)
    ensures JobOk(Detached(job), running)
  {}
}
