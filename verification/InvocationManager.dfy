/** The provider's invocation manager: a locked table of resumable jobs, updated in place.
    Every method runs under the lock, so it is atomic here. Each one is proved against a
    function on the job table; ManagerRuns proves what holds over all runs of them. */
module InvocationManagers {
  import opened Wrappers
  import opened ReplayJob

  const MAX_JOBS: nat := 64

  type Jobs = map<string, Job>

  /** An armed retention timer: what its task captured when the job was detached. */
  datatype Timer = Timer(session: string, token: string, gen: nat)

  // ---------------------------------------------------------------- totals

  ghost function Total(m: map<string, nat>): nat {
    if m == map[] then 0
    else
      var k :| k in m;
      m[k] + Total(m - {k})
  }

  lemma TotalWithout(m: map<string, nat>, k: string)
    requires k in m
    ensures Total(m) == m[k] + Total(m - {k})
    decreases m
  {
    var k0 :| k0 in m && Total(m) == m[k0] + Total(m - {k0});
    if k0 != k {
      TotalWithout(m - {k0}, k);
      TotalWithout(m - {k}, k0);
      assert m - {k0} - {k} == m - {k} - {k0};
    }
  }

  lemma TotalUpdate(m: map<string, nat>, k: string, v: nat)
    ensures Total(m[k := v]) == Total(m - {k}) + v
  {
    TotalWithout(m[k := v], k);
    assert m[k := v] - {k} == m - {k};
  }

  ghost function SizesOver(jobs: Jobs, keys: set<string>): map<string, nat>
    requires keys <= jobs.Keys
  {
    map s | s in keys :: jobs[s].bytes
  }

  /** The bytes buffered by all jobs together. */
  ghost function TotalBytes(jobs: Jobs): nat {
    Total(SizesOver(jobs, jobs.Keys))
  }

  // ---------------------------------------------------------------- the table's transitions

  function Put(jobs: Jobs, session: string, job: Option<Job>): Jobs {
    if job.Some? then jobs[session := job.value] else jobs - {session}
  }

  function Started(jobs: Jobs, session: string, token: string): Jobs {
    if session in jobs || |jobs| >= MAX_JOBS then jobs else jobs[session := NewJob(token)]
  }

  ghost function BufferedIn(enc: Encoder, jobs: Jobs, session: string, message: Message): (Jobs, bool) {
    if session !in jobs then (jobs, false)
    else
      var (job, accepted) := Buffer(enc, jobs[session], TotalBytes(jobs), message);
      (jobs[session := job], accepted)
  }

  function FailedIn(enc: Encoder, jobs: Jobs, session: string): Jobs {
    if session in jobs then jobs[session := FailTerminal(enc, jobs[session])] else jobs
  }

  function WithoutIncomplete(jobs: Jobs, session: string): Jobs {
    if session in jobs && jobs[session].completion.None? then jobs - {session} else jobs
  }

  function ResumedIn(jobs: Jobs, session: string, token: string, status: Status, nextSeq: nat): Jobs {
    if session in jobs then Put(jobs, session, HandleResume(jobs[session], token, status, nextSeq))
    else jobs
  }

  function AcknowledgedIn(jobs: Jobs, session: string, token: string, nextSeq: nat, completed: bool): Jobs {
    if session in jobs then Put(jobs, session, Acknowledge(jobs[session], token, nextSeq, completed))
    else jobs
  }

  function DrainedAll(jobs: Jobs): Jobs {
    map s | s in jobs :: Drained(jobs[s])
  }

  function DetachedAll(jobs: Jobs): Jobs {
    map s | s in jobs :: Detached(jobs[s])
  }

  predicate Expires(jobs: Jobs, timer: Timer) {
    && timer.session in jobs
    && !jobs[timer.session].attached
    && jobs[timer.session].resumeToken == timer.token
    && jobs[timer.session].detachGen == timer.gen
  }

  function Expired(jobs: Jobs, timer: Timer): Jobs {
    if Expires(jobs, timer) then jobs - {timer.session} else jobs
  }

  ghost predicate TableOk(jobs: Jobs, running: set<string>) {
    forall s :: s in jobs ==> JobOk(jobs[s], s in running)
  }

  /** What an offer leaves of the set of running pumps. */
  function RunningAfter(running: set<string>, session: string, continues: bool): set<string> {
    if continues then running else running - {session}
  }

  lemma ReplaceKeepsTable(jobs: Jobs, running: set<string>, session: string, job: Job, continues: bool)
    requires TableOk(jobs, running) && JobOk(job, continues && session in running)
    ensures TableOk(jobs[session := job], RunningAfter(running, session, continues))
  {}

  lemma BufferedKeepsTable(enc: Encoder, jobs: Jobs, running: set<string>, session: string, message: Message)
    requires TableOk(jobs, running) && (session in jobs ==> session in running)
    ensures var (jobs', accepted) := BufferedIn(enc, jobs, session, message);
            TableOk(jobs', RunningAfter(running, session, PumpContinues(accepted, message)))
  {
    if session in jobs {
      var total := TotalBytes(jobs);
      var (job, accepted) := Buffer(enc, jobs[session], total, message);
      BufferKeepsOk(enc, jobs[session], total, message);
      ReplaceKeepsTable(jobs, running, session, job, PumpContinues(accepted, message));
    }
  }

  lemma DrainedKeepsTable(jobs: Jobs, running: set<string>)
    requires TableOk(jobs, running)
    ensures TableOk(DrainedAll(jobs), running)
  {
    forall s | s in jobs ensures JobOk(Drained(jobs[s]), s in running) {
      DrainedOk(jobs[s], s in running);
    }
  }

  lemma DetachedKeepsTable(jobs: Jobs, running: set<string>)
    requires TableOk(jobs, running)
    ensures TableOk(DetachedAll(jobs), running)
  {
    forall s | s in jobs ensures JobOk(Detached(jobs[s]), s in running) {
      DetachedOk(jobs[s], s in running);
    }
  }

  // ---------------------------------------------------------------- enumerating the table

  ghost predicate Enumerates(order: seq<string>, keys: set<string>) {
    && (forall s :: s in order <==> s in keys)
    && (forall i, j :: 0 <= i < j < |order| ==> order[i] != order[j])
  }

  /** The frames of the jobs in `order`, one job after the other. */
  ghost function FramesInOrder(jobs: Jobs, order: seq<string>): seq<Payload>
    requires forall s :: s in order ==> s in jobs && Contiguous(jobs[s])
  {
    if order == [] then []
    else
      var last := |order| - 1;
      FramesInOrder(jobs, order[..last]) + DrainFrames(jobs[order[last]])
  }

  ghost function Attached(jobs: Jobs): set<string> {
    set s | s in jobs && jobs[s].attached
  }

  ghost predicate Drainable(jobs: Jobs) {
    forall s :: s in jobs ==>
      Contiguous(jobs[s]) && (jobs[s].completionSent ==> jobs[s].completion.Some?)
  }

  /** The table halfway through a drain. */
  ghost function DrainedExcept(jobs: Jobs, remaining: set<string>): Jobs {
    map s | s in jobs :: if s in remaining then jobs[s] else Drained(jobs[s])
  }

  function TimerFor(session: string, job: Job): Timer {
    Timer(session, job.resumeToken, job.detachGen)
  }

  /** The table while the jobs in `remaining` are still to be detached, and the timers armed so far. */
  function DetachedExcept(jobs: Jobs, remaining: set<string>): Jobs {
    map s | s in jobs :: if s in remaining then jobs[s] else Detached(jobs[s])
  }

  function TimersOver(jobs: Jobs, keys: set<string>): set<Timer> {
    set s | s in keys && s in jobs :: TimerFor(s, Detached(jobs[s]))
  }

  lemma DetachOne(jobs: Jobs, remaining: set<string>, s: string)
    requires s in remaining && remaining <= jobs.Keys
    ensures DetachedExcept(jobs, remaining)[s := Detached(jobs[s])] == DetachedExcept(jobs, remaining - {s})
    ensures TimersOver(jobs, jobs.Keys - remaining) + {TimerFor(s, Detached(jobs[s]))} ==
            TimersOver(jobs, jobs.Keys - (remaining - {s}))
  {
    assert jobs.Keys - (remaining - {s}) == (jobs.Keys - remaining) + {s};
  }

  class InvocationManager {
    const enc: Encoder
    var jobs: Jobs
    /** The sessions whose pump may still offer messages. */
    ghost var running: set<string>

    ghost predicate Valid()
      reads this
    {
      TableOk(jobs, running)
    }

    constructor (enc: Encoder)
      ensures Valid() && jobs == map[] && this.enc == enc
    {
      this.enc := enc;
      jobs := map[];
      running := {};
    }

    /** The admission half of `start`; `refused` hands the request back to the caller. */
    method Start(session: string, resumeToken: Option<string>) returns (refused: bool)
      modifies this
      ensures refused <==> resumeToken.Some? && session !in old(jobs) && |old(jobs)| >= 64
      ensures jobs == if resumeToken.None? then old(jobs)
                      else Started(old(jobs), session, resumeToken.value)
      ensures resumeToken.Some? && session !in old(jobs) && |old(jobs)| < 64 ==>
        jobs == old(jobs)[session := Job(resumeToken.value, 0, 0, 0, map[], None, None, false, true, 0, 0)]
      ensures refused || resumeToken.None? || session in old(jobs) ==> jobs == old(jobs)
      ensures old(Valid()) ==> Valid()
    {
      if resumeToken.None? { return false; }
      if session in jobs { return false; }
      if |jobs| >= MAX_JOBS { return true; }
      NewJobOk(resumeToken.value);
      jobs := jobs[session := NewJob(resumeToken.value)];
      running := running + {session};
      return false;
    }

    method TotalBuffered() returns (total: nat)
      ensures total == TotalBytes(jobs)
    {
      total := 0;
      var remaining := jobs.Keys;
      while remaining != {}
        invariant remaining <= jobs.Keys
        invariant total + Total(SizesOver(jobs, remaining)) == TotalBytes(jobs)
        decreases remaining
      {
        var s :| s in remaining;
        TotalWithout(SizesOver(jobs, remaining), s);
        assert SizesOver(jobs, remaining) - {s} == SizesOver(jobs, remaining - {s});
        total := total + jobs[s].bytes;
        remaining := remaining - {s};
      }
    }

    /** Offer a handler's message to its job; false stops the job's pump. */
    method BufferMessage(session: string, message: Message) returns (accepted: bool)
      modifies this
      ensures (jobs, accepted) == BufferedIn(enc, old(jobs), session, message)
      ensures running == RunningAfter(old(running), session, PumpContinues(accepted, message))
      ensures old(Valid()) && (session in old(jobs) ==> session in old(running)) ==> Valid()
    {
      var total := TotalBuffered();
      if old(Valid()) && (session in jobs ==> session in running) {
        BufferedKeepsTable(enc, jobs, running, session, message);
      }
      accepted := false;
      if session in jobs {
        var job := jobs[session];
        job, accepted := Record(enc, job, total, message);
        jobs := jobs[session := job];
      }
      running := RunningAfter(running, session, PumpContinues(accepted, message));
    }

    /** The part of `buffer_message` that works on the one job. */
    static method Record(enc: Encoder, before: Job, total: nat, message: Message) returns (job: Job, accepted: bool)
      ensures (job, accepted) == Buffer(enc, before, total, message)
    {
      job := before;
      var stamped := Stamp(message, job.producedSeq);
      var encoded := enc(stamped);
      if encoded.None? || Full(job, total, encoded.value) {
        return FailTerminal(enc, job), false;
      }
      var payload := Payload(stamped, encoded.value);
      match stamped {
        case Chunk(seqNo, _) =>
          if seqNo != job.producedSeq { return FailTerminal(enc, job), false; }
          job := job.(producedSeq := job.producedSeq + 1);
          job := job.(bytes := job.bytes + payload.length);
          job := job.(chunks := job.chunks[seqNo := payload]);
        case Complete(_, _) =>
          job := job.(bytes := job.bytes + payload.length);
          job := job.(completion := Some(payload));
        case Keepalive =>
          if job.attached { job := job.(controls := Some(payload)); }
        case Unbuffered =>
      }
      accepted := true;
    }

    /** A frame from the live channel: one that does not decode fails the invocation. */
    method BufferPayload(session: string, decoded: Option<Message>) returns (accepted: bool)
      modifies this
      ensures decoded.Some? ==> (jobs, accepted) == BufferedIn(enc, old(jobs), session, decoded.value)
      ensures decoded.None? ==> jobs == FailedIn(enc, old(jobs), session) && !accepted
      ensures old(Valid()) && (session in old(jobs) ==> session in old(running)) ==> Valid()
    {
      if decoded.Some? {
        accepted := BufferMessage(session, decoded.value);
      } else {
        if session in jobs {
          if old(Valid()) && session in running {
            FailTerminalOk(enc, jobs[session]);
            ReplaceKeepsTable(jobs, running, session, FailTerminal(enc, jobs[session]), false);
          }
          jobs := jobs[session := FailTerminal(enc, jobs[session])];
        }
        running := running - {session};
        accepted := false;
      }
    }

    /** After the last reply: a job that never completed is dropped. */
    method DiscardIfIncomplete(session: string)
      modifies this
      ensures jobs == WithoutIncomplete(old(jobs), session)
      ensures session in old(jobs) && session !in jobs <==> session in old(jobs) && old(jobs)[session].completion.None?
      ensures forall s :: s in old(jobs) && (s != session || old(jobs)[s].completion.Some?) ==>
        s in jobs && jobs[s] == old(jobs)[s]
      ensures old(Valid()) ==> Valid()
    {
      if session in jobs && jobs[session].completion.None? { jobs := jobs - {session}; }
      running := running - {session};
    }

    /** A handler that panicked takes its job with it. */
    method DiscardPanicked(session: string)
      modifies this
      ensures jobs == old(jobs) - {session}
      ensures old(Valid()) ==> Valid()
    {
      jobs := jobs - {session};
      running := running - {session};
    }

    static method DropAcked(job: Job, nextSeq: nat) returns (r: Job)
      ensures r == AckChunks(job, nextSeq)
    {
      r := job;
      for i := 0 to nextSeq
        invariant r == job.(chunks := r.chunks, bytes := Minus(job.bytes, SumRange(job.chunks, 0, i)))
        invariant r.chunks == map k | k in job.chunks && i <= k :: job.chunks[k]
      {
        if i in r.chunks {
          r := r.(chunks := r.chunks - {i}, bytes := Minus(r.bytes, r.chunks[i].length));
        }
      }
      r := r.(ackedSeq := nextSeq, sendSeq := if r.sendSeq < nextSeq then nextSeq else r.sendSeq);
    }

    method HandleResumeResult(session: string, token: string, status: Status, nextSeq: nat)
      modifies this`jobs
      ensures jobs == ResumedIn(old(jobs), session, token, status, nextSeq)
      ensures old(Valid()) && (session in old(jobs) ==> old(jobs)[session].ackedSeq <= nextSeq) ==> Valid()
    {
      if session !in jobs { return; }
      var job := jobs[session];
      if job.resumeToken != token { return; }
      if status.Resume? && nextSeq <= job.producedSeq {
        if old(Valid()) { HandleResumeKeepsOk(job, session in running, nextSeq); }
        job := DropAcked(job, nextSeq);
        job := job.(sendSeq := nextSeq, completionSent := false, attached := true);
        jobs := jobs[session := job];
      } else {
        jobs := jobs - {session};
      }
    }

    method AcknowledgeFrame(session: string, token: string, nextSeq: nat, completed: bool)
      modifies this`jobs
      ensures jobs == AcknowledgedIn(old(jobs), session, token, nextSeq, completed)
      ensures old(Valid()) ==> Valid()
    {
      if session !in jobs { return; }
      var job := jobs[session];
      if job.resumeToken != token || nextSeq < job.ackedSeq || job.producedSeq < nextSeq { return; }
      if old(Valid()) { AcknowledgeKeepsOk(job, session in running, token, nextSeq, completed); }
      if completed {
        if job.completion.None? || nextSeq != job.producedSeq { return; }
        jobs := jobs - {session};
        return;
      }
      job := DropAcked(job, nextSeq);
      jobs := jobs[session := job];
    }

    static method DrainJob(job: Job) returns (out: seq<Payload>, r: Job)
      requires Contiguous(job) && job.attached
      requires job.completionSent ==> job.completion.Some?
      ensures out == DrainFrames(job) && r == Drained(job)
    {
      out, r := [], job;
      if r.controls.Some? {
        out := [r.controls.value];
        r := r.(controls := None);
      }
      for i := job.sendSeq to job.producedSeq
        invariant out == ControlFrames(job) + Range(job.chunks, job.sendSeq, i)
        invariant r == job.(controls := None, sendSeq := i)
      {
        out := out + [r.chunks[i]];
        r := r.(sendSeq := i + 1);
      }
      if !r.completionSent && r.sendSeq >= r.producedSeq && r.completion.Some? {
        out := out + [r.completion.value];
        r := r.(completionSent := true);
      }
    }

    /** The loop of `drain` over the attached jobs, in whatever order the table yields them. */
    static method DrainTable(before: Jobs) returns (jobs: Jobs, out: seq<Payload>, ghost order: seq<string>)
      requires Drainable(before)
      ensures jobs == DrainedAll(before)
      ensures Enumerates(order, Attached(before)) && out == FramesInOrder(before, order)
    {
      jobs, out, order := before, [], [];
      var remaining := set s | s in jobs && jobs[s].attached;
      while remaining != {}
        invariant remaining <= Attached(before)
        invariant jobs == DrainedExcept(before, remaining)
        invariant Enumerates(order, Attached(before) - remaining)
        invariant out == FramesInOrder(before, order)
        decreases remaining
      {
        var s :| s in remaining;
        var frames, job := DrainJob(jobs[s]);
        jobs := jobs[s := job];
        out := out + frames;
        order := order + [s];
        assert order[..|order| - 1] + [s] == order;
        remaining := remaining - {s};
      }
    }

    /** Collect every frame that is due. `order` is the order in which the hash table
        happened to yield the attached jobs. */
    method Drain() returns (out: seq<Payload>, ghost order: seq<string>)
      requires Valid()
      modifies this`jobs
      ensures Valid()
      ensures jobs == DrainedAll(old(jobs))
      ensures Enumerates(order, Attached(old(jobs)))
      ensures out == FramesInOrder(old(jobs), order)
    {
      DrainedKeepsTable(jobs, running);
      jobs, out, order := DrainTable(jobs);
    }

    static method DetachJob(job: Job) returns (r: Job)
      ensures r == Detached(job)
    {
      r := job;
      r := r.(attached := false);
      r := r.(sendSeq := r.ackedSeq, completionSent := false);
      r := r.(detachGen := r.detachGen + 1);
    }

    static method DetachTable(before: Jobs) returns (jobs: Jobs, armed: set<Timer>)
      ensures jobs == DetachedAll(before) && armed == TimersOver(before, before.Keys)
    {
      jobs, armed := before, {};
      var remaining := jobs.Keys;
      while remaining != {}
        invariant remaining <= before.Keys
        invariant jobs == DetachedExcept(before, remaining)
        invariant armed == TimersOver(before, before.Keys - remaining)
        decreases remaining
      {
        var s :| s in remaining;
        var job := DetachJob(jobs[s]);
        DetachOne(before, remaining, s);
        jobs := jobs[s := job];
        armed := armed + {TimerFor(s, job)};
        remaining := remaining - {s};
      }
    }

    /** The connection is gone: detach every job and arm a retention timer for each. */
    method DetachAll() returns (armed: set<Timer>)
      modifies this`jobs
      ensures jobs == DetachedAll(old(jobs))
      ensures armed == set s | s in jobs :: TimerFor(s, jobs[s])
      ensures forall s :: s in jobs ==>
        jobs[s] == old(jobs)[s].(attached := false, sendSeq := old(jobs)[s].ackedSeq, completionSent := false,
                                 detachGen := old(jobs)[s].detachGen + 1)
      ensures forall s :: s in jobs ==> Timer(s, old(jobs)[s].resumeToken, old(jobs)[s].detachGen + 1) in armed
      ensures old(Valid()) ==> Valid()
    {
      if Valid() { DetachedKeepsTable(jobs, running); }
      jobs, armed := DetachTable(jobs);
      assert forall s :: s in jobs ==> jobs[s] == Detached(old(jobs)[s]);
    }

    /** A retention timer wakes up and takes the lock. */
    method FireTimer(timer: Timer)
      modifies this`jobs
      ensures jobs == Expired(old(jobs), timer)
      ensures jobs != old(jobs) <==>
        && timer.session in old(jobs) && !old(jobs)[timer.session].attached
        && old(jobs)[timer.session].resumeToken == timer.token && old(jobs)[timer.session].detachGen == timer.gen
      ensures forall s :: s in old(jobs) && s != timer.session ==> s in jobs && jobs[s] == old(jobs)[s]
      ensures old(Valid()) ==> Valid()
    {
      var expire := timer.session in jobs
        && !jobs[timer.session].attached
        && jobs[timer.session].resumeToken == timer.token
        && jobs[timer.session].detachGen == timer.gen;
      if expire { jobs := jobs - {timer.session}; }
    }
  }
}
