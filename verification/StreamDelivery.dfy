/** One job end to end: the provider's replay buffer, the advisor's session, and the sockets
    between them. Sockets break at any time and lose any tail of what was in flight; frames of a
    dead socket may still reach the advisor until a newer registration fences it, and
    registrations may overtake each other. Whatever the interleaving, the requester receives a
    gap-free, duplicate-free, in-order prefix of the chunks produced. */
module StreamDelivery {
  import opened Wrappers
  import opened ReplayJob
  import opened AdvisorSessions

  /** Provider to advisor. `Other` is a frame that leaves the session alone. */
  datatype Up =
    | Register
    | Claim(producedSeq: nat)
    | ChunkFrame(seqNo: nat, body: string)
    | CompleteFrame(finalSeq: Option<nat>, summary: Summary)
    | Other

  /** What the job's handler emits next. Chunks are numbered by the handler itself. */
  datatype Output =
    | Delta(body: string)
    | Finish(summary: Summary)
    | Alive
    | Ignored
    | Garbled

  /** How the production of a stream ended: with the handler's own summary, or because a message was
      refused. */
  datatype Closing = Emitted(summary: Summary) | Refused

  /** `handlerSeq` is the handler's own counter. `produced` and `closing` are history: every body
      recorded in the replay buffer, and how its recording ended. `up` has one queue
      per socket ever opened; `down` belongs to `socket`. */
  datatype World = World(
    job: Option<Job>,
    running: bool,
    handlerSeq: nat,
    produced: seq<string>,
    closing: Option<Closing>,
    socket: Option<nat>,
    up: seq<seq<Up>>,
    down: seq<Reply>,
    registered: Option<nat>,
    session: Session,
    relayed: Relayed)

  datatype Event =
    | Produce(output: Output, totalBytes: nat)
    | HandlerDone
    | HandlerPanicked
    | Drain
    | Disconnect
    | Connect
    | TimerExpired
    | Deliver(socket: nat, clientGone: bool)
    | LoseTail(socket: nat, keep: nat)
    | AdvisorClose(socket: nat)
    | Receive
    | SessionExpired

  function Initial(token: string): World {
    World(
      Some(NewJob(token)), true, 0, [], None, Some(0), [[]], [], Some(0), Live(0, false, []), Relayed([], None, None))
  }

  // ---------------------------------------------------------------- the provider's steps

  function MessageOf(output: Output, handlerSeq: nat): Option<Message> {
    match output
    case Delta(body) => Some(Chunk(handlerSeq, body))
    case Finish(summary) => Some(Complete(summary, None))
    case Alive => Some(Keepalive)
    case Ignored => Some(Unbuffered)
    case Garbled => None
  }

  function Offer(enc: Encoder, job: Job, totalBytes: nat, message: Option<Message>): (Job, bool) {
    if message.None? then (FailTerminal(enc, job), false) else Buffer(enc, job, totalBytes, message.value)
  }

  function ProduceStep(enc: Encoder, w: World, output: Output, totalBytes: nat): World {
    var handlerSeq := w.handlerSeq + if output.Delta? then 1 else 0;
    if w.job.None? then w.(running := false, handlerSeq := handlerSeq)
    else
      var (job, accepted) := Offer(enc, w.job.value, totalBytes, MessageOf(output, w.handlerSeq));
      w.(job := Some(job),
         running := accepted && !output.Finish?,
         handlerSeq := handlerSeq,
         produced := w.produced + (if accepted && output.Delta? then [output.body] else []),
         closing := if !accepted then Some(Refused)
                    else if output.Finish? then Some(Emitted(output.summary))
                    else w.closing)
  }

  function HandlerDoneStep(w: World): World {
    w.(running := false,
       job := if w.job.Some? && w.job.value.completion.None? then None else w.job)
  }

  function FrameOf(payload: Payload): Up {
    match payload.msg
    case Chunk(seqNo, body) => ChunkFrame(seqNo, body)
    case Complete(summary, finalSeq) => CompleteFrame(finalSeq, summary)
    case _ => Other
  }

  function FramesOf(payloads: seq<Payload>): seq<Up> {
    seq(|payloads|, i requires 0 <= i < |payloads| => FrameOf(payloads[i]))
  }

  ghost function DrainStep(w: World): World {
    if w.job.Some? && w.socket.Some? && w.socket.value < |w.up| && Contiguous(w.job.value) then
      w.(job := Some(Drained(w.job.value)),
         up := w.up[w.socket.value := w.up[w.socket.value] + FramesOf(DrainFrames(w.job.value))])
    else w
  }

  function DisconnectStep(w: World): World {
    w.(socket := None, down := [],
       job := if w.job.Some? then Some(Detached(w.job.value)) else None)
  }

  function ConnectStep(w: World): World {
    var claim := if w.job.Some? then [Claim(w.job.value.producedSeq)] else [];
    w.(socket := Some(|w.up|), up := w.up + [[Register] + claim], down := [])
  }

  function ApplyReply(job: Job, reply: Reply): Option<Job> {
    match reply
    case NoReply => Some(job)
    case Ack(nextSeq, completed) => Acknowledge(job, job.resumeToken, nextSeq, completed)
    case Verdict(status, nextSeq) => HandleResume(job, job.resumeToken, status, nextSeq)
  }

  function ReceiveStep(w: World): World
    requires w.down != []
  {
    w.(down := w.down[1..],
       job := if w.job.Some? then ApplyReply(w.job.value, w.down[0]) else None)
  }

  // ---------------------------------------------------------------- the advisor's steps

  function Answer(w: World, socket: nat, session: Session, relayed: Relayed, reply: Reply): World {
    w.(session := session, relayed := relayed,
       down := if reply.NoReply? || w.socket != Some(socket) then w.down else w.down + [reply])
  }

  function HandleFrame(hash: string -> nat, w: World, socket: nat, frame: Up, clientGone: bool): World {
    if frame.Register? then
      w.(session := if w.registered.Some? && w.registered != Some(socket) then DetachSession(w.session) else w.session,
         registered := Some(socket))
    else if w.registered != Some(socket) then w
    else
      match frame
      case Claim(producedSeq) =>
        var (session, reply) := ResumeClaim(w.session, producedSeq);
        Answer(w, socket, session, w.relayed, reply)
      case ChunkFrame(seqNo, body) =>
        var (session, relayed, reply) := AcceptChunk(w.session, w.relayed, seqNo, body, hash(body), clientGone);
        Answer(w, socket, session, relayed, reply)
      case CompleteFrame(finalSeq, summary) =>
        var (session, relayed, reply) := AcceptCompletion(w.session, w.relayed, finalSeq, summary, clientGone);
        Answer(w, socket, session, relayed, reply)
      case _ => w
  }

  function DeliverStep(hash: string -> nat, w: World, socket: nat, clientGone: bool): World
    requires socket < |w.up| && w.up[socket] != []
  {
    var w1 := w.(up := w.up[socket := w.up[socket][1..]]);
    HandleFrame(hash, w1, socket, w.up[socket][0], clientGone)
  }

  function AdvisorCloseStep(w: World, socket: nat): World
    requires socket < |w.up|
  {
    var w1 := w.(up := w.up[socket := []]);
    if w.registered == Some(socket) then w1.(registered := None, session := DetachSession(w.session)) else w1
  }

  /** A live session is closed by its idle, grace or client-disconnect path; a tombstone ages out. */
  function SessionExpiredStep(w: World): World {
    w.(session := Gone, relayed := if w.session.Live? then Close(w.relayed) else w.relayed)
  }

  predicate Enabled(w: World, e: Event) {
    match e
    case Produce(_, _) => w.running
    case HandlerDone => w.running
    case HandlerPanicked => w.running
    case Drain => w.socket.Some?
    case Disconnect => w.socket.Some?
    case Connect => w.socket.None?
    case TimerExpired => w.job.Some? && !w.job.value.attached
    case Deliver(socket, _) => socket < |w.up| && w.up[socket] != []
    case LoseTail(socket, keep) => socket < |w.up| && w.socket != Some(socket) && keep <= |w.up[socket]|
    case AdvisorClose(socket) => socket < |w.up|
    case Receive => w.socket.Some? && w.down != []
    case SessionExpired => true
  }

  /** One step; an event that is not enabled changes nothing. */
  ghost function Step(enc: Encoder, hash: string -> nat, w: World, e: Event): World {
    if !Enabled(w, e) then w
    else
      match e
      case Produce(output, totalBytes) => ProduceStep(enc, w, output, totalBytes)
      case HandlerDone => HandlerDoneStep(w)
      case HandlerPanicked => w.(running := false, job := None)
      case Drain => DrainStep(w)
      case Disconnect => DisconnectStep(w)
      case Connect => ConnectStep(w)
      case TimerExpired => w.(job := None)
      case Deliver(socket, clientGone) => DeliverStep(hash, w, socket, clientGone)
      case LoseTail(socket, keep) => w.(up := w.up[socket := w.up[socket][..keep]])
      case AdvisorClose(socket) => AdvisorCloseStep(w, socket)
      case Receive => ReceiveStep(w)
      case SessionExpired => SessionExpiredStep(w)
  }

  /** Any sequence of events, starting when the job has just been admitted on its first socket. */
  ghost function Run(enc: Encoder, hash: string -> nat, token: string, events: seq<Event>): World {
    if events == [] then Initial(token)
    else
      var last := |events| - 1;
      Step(enc, hash, Run(enc, hash, token, events[..last]), events[last])
  }

  // ---------------------------------------------------------------- the safety invariant

  /** The buffer holds what was produced, and a running handler's numbering agrees with it. */
  ghost predicate JobInv(job: Job, running: bool, handlerSeq: nat, produced: seq<string>) {
    && JobOk(job, running)
    && |produced| == job.producedSeq
    && (running ==> handlerSeq == job.producedSeq)
    && forall i :: i in job.chunks ==> job.chunks[i].msg.body == produced[i]
  }

  /** A frame tells the truth about what was produced. */
  predicate FrameOk(frame: Up, produced: seq<string>, closed: bool) {
    match frame
    case Claim(producedSeq) => producedSeq <= |produced|
    case ChunkFrame(seqNo, body) => seqNo < |produced| && body == produced[seqNo]
    case CompleteFrame(finalSeq, _) => closed && finalSeq == Some(|produced|)
    case _ => true
  }

  ghost predicate FramesOk(frames: seq<Up>, produced: seq<string>, closed: bool) {
    forall f :: f in frames ==> FrameOk(f, produced, closed)
  }

  /** The high-water marks of the replies never go back, and lie between the two given marks. */
  ghost predicate MarksBetween(replies: seq<Reply>, lo: nat, hi: nat) {
    if replies == [] then lo <= hi
    else
      match replies[0]
      case NoReply => false
      case Ack(nextSeq, _) => lo <= nextSeq <= hi && MarksBetween(replies[1..], nextSeq, hi)
      case Verdict(status, nextSeq) =>
        if status.Resume? then lo <= nextSeq <= hi && MarksBetween(replies[1..], nextSeq, hi)
        else MarksBetween(replies[1..], lo, hi)
  }

  /** A reply that ends the job is sent only once the stream has ended. */
  predicate ReplyOk(reply: Reply, session: Session, relayed: Relayed, produced: seq<string>) {
    match reply
    case NoReply => true
    case Ack(nextSeq, completed) => completed ==> relayed.ending == Some(Finished) && nextSeq == |produced|
    case Verdict(status, _) =>
      && (status.Completed? ==> relayed.ending == Some(Finished))
      && (status.Rejected? ==> session.Gone?)
  }

  function AckedMark(job: Option<Job>): nat {
    if job.Some? then job.value.ackedSeq else 0
  }

  /** Nothing more will be produced, and if the job is still there its completion is buffered. */
  predicate Closed(w: World) {
    !w.running && (w.job.Some? ==> w.job.value.completion.Some?)
  }

  ghost predicate SocketsOk(w: World) {
    && (w.socket.Some? ==> w.socket.value + 1 == |w.up|)
    && (w.registered.Some? ==> w.registered.value < |w.up|)
    && (w.socket.None? ==> w.down == [] && (w.job.Some? ==> !w.job.value.attached))
  }

  ghost predicate LinksOk(w: World) {
    && (forall k :: 0 <= k < |w.up| ==> FramesOk(w.up[k], w.produced, Closed(w)))
    && MarksBetween(w.down, AckedMark(w.job), |w.relayed.bodies|)
    && (forall r :: r in w.down ==> ReplyOk(r, w.session, w.relayed, w.produced))
  }

  /** While the newest socket still carries a resume claim, that claim is ahead of everything the
      advisor has accepted or may yet accept, and nothing else is under way on that socket. */
  ghost predicate ClaimOk(w: World) {
    w.socket.Some? && w.socket.value < |w.up| ==>
      forall p :: Claim(p) in w.up[w.socket.value] ==>
        && (w.up[w.socket.value] == [Register, Claim(p)] || w.up[w.socket.value] == [Claim(p)])
        && w.down == [] && (w.job.Some? ==> !w.job.value.attached)
        && |w.relayed.bodies| <= p
        && (forall k, f :: 0 <= k < |w.up| && f in w.up[k] && f.ChunkFrame? ==> f.seqNo < p)
  }

  /** What holds in every reachable world. */
  ghost predicate Safe(w: World, hash: string -> nat) {
    && SocketsOk(w)
    && (w.job.Some? ==> JobInv(w.job.value, w.running, w.handlerSeq, w.produced))
    && LinksOk(w)
    && ClaimOk(w)
    && SessionOk(w.session, w.relayed, w.produced, Closed(w), hash)
  }
}
