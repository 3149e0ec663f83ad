/** A reconnect always recovers the stream. From any reachable world in which the provider has lost
    its socket while the job and the advisor's session are both still there, one fresh connection
    that stays up delivers everything produced, and finishes the stream if its completion is
    buffered. The proof builds that continuation. */
module StreamRecovery {
  import opened Wrappers
  import opened ReplayJob
  import opened AdvisorSessions
  import opened StreamDelivery
  import opened StreamSafety
  import opened StreamProgress

  ghost function Continue(enc: Encoder, hash: string -> nat, w: World, events: seq<Event>): World
    decreases |events|
  {
    if events == [] then w else Continue(enc, hash, Step(enc, hash, w, events[0]), events[1..])
  }

  /** Steps of a connection that stays up and a requester that stays connected. */
  predicate Healthy(e: Event) {
    e.Connect? || e.Drain? || e.Receive? || (e.Deliver? && !e.clientGone)
  }

  lemma {:induction false} RunContinues(
      enc: Encoder, hash: string -> nat, token: string, events: seq<Event>, more: seq<Event>)
    ensures Run(enc, hash, token, events + more) == Continue(enc, hash, Run(enc, hash, token, events), more)
    decreases |more|
  {
    if more == [] {
      assert events + more == events;
    } else {
      var first := events + [more[0]];
      assert first[..|events|] == events;
      RunContinues(enc, hash, token, first, more[1..]);
      assert first + more[1..] == events + more;
    }
  }

  /** The uplink still to be delivered by a streaming connection whose job has nothing left to send. */
  ghost predicate Flowing(w: World, hash: string -> nat) {
    && Inv(w, hash) && w.socket.Some? && w.registered == w.socket && w.job.Some?
    && Streaming(w.job.value, w.up[w.socket.value], w.down, w.session)
    && w.job.value.sendSeq == w.job.value.producedSeq
    && (w.job.value.completion.Some? ==> w.job.value.completionSent)
    && !w.session.Gone?
  }

  ghost predicate Delivered(w: World) {
    && w.relayed.bodies == w.produced
    && (w.job.Some? && w.job.value.completion.Some? ==> w.relayed.ending == Some(Finished))
  }

  /** A delivery leaves the connection streaming, with one frame less. */
  ghost predicate StillStreaming(w: World, w': World)
    requires w.socket.Some? && w.socket.value < |w.up| && w.job.Some?
  {
    var k := w.socket.value;
    && w'.produced == w.produced && w'.job == w.job && w'.socket == w.socket && w'.registered == w.registered
    && k < |w'.up| && |w'.up[k]| == |w.up[k]| - 1
    && Streaming(w.job.value, w'.up[k], w'.down, w'.session) && !w'.session.Gone?
  }

  lemma ChunkKeepsSession(hash: string -> nat, w: World)
    requires Flowing(w, hash) && w.up[w.socket.value] != [] && w.up[w.socket.value][0].ChunkFrame?
    ensures !DeliverStep(hash, w, w.socket.value, false).session.Gone?
  {
    var frame := w.up[w.socket.value][0];
    assert frame in w.up[w.socket.value] && FrameOk(frame, w.produced, Closed(w));
    AcceptChunkOk(w.session, w.relayed, frame.seqNo, false, w.produced, Closed(w), hash);
  }

  lemma ChunkDeliver(enc: Encoder, hash: string -> nat, w: World)
    requires Flowing(w, hash) && w.up[w.socket.value] != [] && w.up[w.socket.value][0].ChunkFrame?
    ensures StillStreaming(w, Step(enc, hash, w, Deliver(w.socket.value, false)))
  {
    StreamingChunk(w, w.socket.value, false, hash);
    ChunkKeepsSession(hash, w);
  }

  lemma StreamingDeliver(enc: Encoder, hash: string -> nat, w: World)
    requires Flowing(w, hash) && w.up[w.socket.value] != []
    ensures StillStreaming(w, Step(enc, hash, w, Deliver(w.socket.value, false)))
  {
    var k := w.socket.value;
    if w.up[k][0].ChunkFrame? { ChunkDeliver(enc, hash, w); }
    else if w.up[k][0].CompleteFrame? { StreamingCompletion(w, k, false, hash); }
    else { StreamingOther(w, k, false, hash); }
  }

  lemma FlowingDeliver(enc: Encoder, hash: string -> nat, w: World)
    requires Flowing(w, hash) && w.up[w.socket.value] != []
    ensures var w' := Step(enc, hash, w, Deliver(w.socket.value, false));
      && Flowing(w', hash) && w'.produced == w.produced && w'.job == w.job && w'.socket == w.socket
      && |w'.up[w.socket.value]| == |w.up[w.socket.value]| - 1
  {
    StepKeepsInv(enc, hash, w, Deliver(w.socket.value, false));
    StreamingDeliver(enc, hash, w);
  }

  lemma {:induction false} FlowingDelivers(enc: Encoder, hash: string -> nat, w: World) returns (more: seq<Event>)
    requires Flowing(w, hash)
    ensures forall e :: e in more ==> Healthy(e)
    ensures Delivered(Continue(enc, hash, w, more)) && Continue(enc, hash, w, more).produced == w.produced
    ensures Continue(enc, hash, w, more).job == w.job
    decreases |w.up[w.socket.value]|
  {
    if w.up[w.socket.value] == [] {
      more := [];
    } else {
      FlowingDeliver(enc, hash, w);
      var e := Deliver(w.socket.value, false);
      var rest := FlowingDelivers(enc, hash, Step(enc, hash, w, e));
      more := [e] + rest;
    }
  }

  lemma StepKeepsInv(enc: Encoder, hash: string -> nat, w: World, e: Event)
    requires Inv(w, hash)
    ensures Inv(Step(enc, hash, w, e), hash)
  {
    StepKeepsSafe(enc, hash, w, e);
    StepKeepsTracked(enc, hash, w, e);
  }

  /** The job and the session are there, and the provider's socket k carries these frames. */
  ghost predicate Opening(w: World, k: nat, frames: seq<Up>, replies: seq<Reply>) {
    && w.socket == Some(k) && |w.up| == k + 1 && w.up[k] == frames && w.down == replies
    && w.job.Some? && !w.job.value.attached && w.session.Live?
  }

  ghost predicate SameStream(w: World, w': World) {
    && w'.produced == w.produced && w'.relayed == w.relayed
    && w.job.Some? && w'.job.Some? && w'.job.value.completion == w.job.value.completion
  }

  lemma AfterConnect(enc: Encoder, hash: string -> nat, w: World)
    requires Inv(w, hash) && w.socket.None? && w.job.Some? && w.session.Live?
    ensures var w' := Step(enc, hash, w, Connect);
      Opening(w', |w.up|, [Register, Claim(|w.produced|)], []) && SameStream(w, w')
  {
    assert [Register] + [Claim(|w.produced|)] == [Register, Claim(|w.produced|)];
  }

  lemma AfterRegister(enc: Encoder, hash: string -> nat, w: World, k: nat, p: nat)
    requires Opening(w, k, [Register, Claim(p)], [])
    ensures var w' := Step(enc, hash, w, Deliver(k, false));
      Opening(w', k, [Claim(p)], []) && SameStream(w, w') && w'.registered == Some(k)
  {
    assert w.up[k][1..] == [Claim(p)];
  }

  lemma AfterClaim(enc: Encoder, hash: string -> nat, w: World, k: nat, p: nat)
    requires Opening(w, k, [Claim(p)], []) && w.registered == Some(k) && Inv(w, hash)
    ensures var w' := Step(enc, hash, w, Deliver(k, false));
      && Opening(w', k, [], [Verdict(Resume, |w.relayed.bodies|)]) && SameStream(w, w') && w'.registered == Some(k)
  {
    assert Claim(p) in w.up[k];
    assert w.up[k][1..] == [];
  }

  lemma AfterVerdict(enc: Encoder, hash: string -> nat, w: World, k: nat)
    requires Opening(w, k, [], [Verdict(Resume, |w.relayed.bodies|)]) && w.registered == Some(k) && Inv(w, hash)
    ensures var w' := Step(enc, hash, w, Receive);
      && SameStream(w, w') && w'.registered == w'.socket == Some(k) && w'.job.value.attached && w'.up == w.up
      && w'.session == w.session
  {}

  lemma AfterDrain(enc: Encoder, hash: string -> nat, w: World, k: nat)
    requires Inv(w, hash) && w.registered == w.socket == Some(k) && w.job.Some? && w.job.value.attached
    requires k < |w.up| && w.up[k] == [] && w.session.Live?
    ensures var w' := Step(enc, hash, w, Drain);
      Flowing(w', hash) && SameStream(w, w')
  {
    StepKeepsInv(enc, hash, w, Drain);
    assert Streaming(w.job.value, [], w.down, w.session);
    StreamingDrain(w.job.value, w.running, [], w.down, w.session);
  }

  /** The five steps that bring a fresh connection to streaming. */
  lemma Handshake(enc: Encoder, hash: string -> nat, w: World) returns (w': World)
    requires Inv(w, hash) && w.socket.None? && w.job.Some? && w.session.Live?
    ensures w' == Continue(enc, hash, w, [Connect, Deliver(|w.up|, false), Deliver(|w.up|, false), Receive, Drain])
    ensures Flowing(w', hash) && SameStream(w, w')
  {
    var k, p := |w.up|, |w.produced|;
    var w1 := Step(enc, hash, w, Connect);
    StepKeepsInv(enc, hash, w, Connect);
    AfterConnect(enc, hash, w);
    var w2 := Step(enc, hash, w1, Deliver(k, false));
    StepKeepsInv(enc, hash, w1, Deliver(k, false));
    AfterRegister(enc, hash, w1, k, p);
    var w3 := Step(enc, hash, w2, Deliver(k, false));
    StepKeepsInv(enc, hash, w2, Deliver(k, false));
    AfterClaim(enc, hash, w2, k, p);
    var w4 := Step(enc, hash, w3, Receive);
    StepKeepsInv(enc, hash, w3, Receive);
    AfterVerdict(enc, hash, w3, k);
    w' := Step(enc, hash, w4, Drain);
    AfterDrain(enc, hash, w4, k);
    HandshakeUnfolds(enc, hash, w, k);
  }

  lemma HandshakeUnfolds(enc: Encoder, hash: string -> nat, w: World, k: nat)
    ensures Continue(enc, hash, w, [Connect, Deliver(k, false), Deliver(k, false), Receive, Drain]) ==
            Step(enc, hash, Step(enc, hash, Step(enc, hash, Step(enc, hash,
              Step(enc, hash, w, Connect), Deliver(k, false)), Deliver(k, false)), Receive), Drain)
  {
    var d := Deliver(k, false);
    var w1 := Step(enc, hash, w, Connect);
    var w2 := Step(enc, hash, w1, d);
    var w3 := Step(enc, hash, w2, d);
    assert [Connect, d, d, Receive, Drain][1..] == [d, d, Receive, Drain];
    assert [d, d, Receive, Drain][1..] == [d, Receive, Drain];
    assert [d, Receive, Drain][1..] == [Receive, Drain];
    assert Continue(enc, hash, w1, [d, d, Receive, Drain]) == Continue(enc, hash, w2, [d, Receive, Drain]);
    ContinueTwo(enc, hash, w3, Receive, Drain);
  }

  lemma ContinueTwo(enc: Encoder, hash: string -> nat, w: World, e: Event, f: Event)
    ensures Continue(enc, hash, w, [e, f]) == Step(enc, hash, Step(enc, hash, w, e), f)
  {
    assert [e, f][1..] == [f] && [f][1..] == [];
    var w1 := Step(enc, hash, w, e);
    assert Continue(enc, hash, w, [e, f]) == Continue(enc, hash, w1, [f]);
    assert Continue(enc, hash, w1, [f]) == Continue(enc, hash, Step(enc, hash, w1, f), []);
  }

  lemma {:induction false} ContinueAppend(enc: Encoder, hash: string -> nat, w: World, a: seq<Event>, b: seq<Event>)
    ensures Continue(enc, hash, w, a + b) == Continue(enc, hash, Continue(enc, hash, w, a), b)
    decreases |a|
  {
    if a == [] {
      assert a + b == b;
    } else {
      assert (a + b)[1..] == a[1..] + b;
      ContinueAppend(enc, hash, Step(enc, hash, w, a[0]), a[1..], b);
    }
  }

  /** A reconnect that holds always recovers the stream. */
  lemma ReconnectDelivers(enc: Encoder, hash: string -> nat, token: string, events: seq<Event>)
    returns (more: seq<Event>)
    requires Run(enc, hash, token, events).socket.None?
    requires Run(enc, hash, token, events).job.Some? && Run(enc, hash, token, events).session.Live?
    ensures forall e :: e in more ==> Healthy(e)
    ensures var w, w' := Run(enc, hash, token, events), Run(enc, hash, token, events + more);
      && w'.relayed.bodies == w'.produced == w.produced
      && (w.job.value.completion.Some? ==> w'.relayed.ending == Some(Finished))
  {
    var w := Run(enc, hash, token, events);
    AlwaysTracked(enc, hash, token, events);
    var k := |w.up|;
    var start := [Connect, Deliver(k, false), Deliver(k, false), Receive, Drain];
    var w1 := Handshake(enc, hash, w);
    var rest := FlowingDelivers(enc, hash, w1);
    more := start + rest;
    ContinueAppend(enc, hash, w, start, rest);
    RunContinues(enc, hash, token, events, more);
  }
}
