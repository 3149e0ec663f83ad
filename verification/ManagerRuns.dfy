/** All runs of the invocation manager: any interleaving of admissions, handler output,
    drains, acknowledgments, disconnects, resume verdicts, timer wake-ups and passing time.
    Each event applies the transition that the corresponding manager method is proved to make. */
module ManagerRuns {
  import opened Wrappers
  import opened ReplayJob
  import opened InvocationManagers

  /** Seconds a detached job is retained. */
  const RETENTION: nat := 45

  datatype Armed = Armed(timer: Timer, armedAt: nat)

  /** The manager together with its pending timers and the clock. `started`, `failed` and `log`
      are history: the sessions ever admitted, those ended by a synthetic completion, and every
      chunk ever recorded for a session. */
  datatype System = System(
    jobs: Jobs,
    running: set<string>,
    timers: set<Armed>,
    now: nat,
    started: set<string>,
    failed: set<string>,
    log: map<string, seq<Payload>>)

  datatype Event =
    | Admit(session: string, token: string)
    | Offer(session: string, decoded: Option<Message>)
    | HandlerDone(session: string)
    | HandlerPanicked(session: string)
    | Resumed(session: string, token: string, status: Status, nextSeq: nat)
    | Acked(session: string, token: string, nextSeq: nat, completed: bool)
    | Drain
    | Disconnect
    | Fire(armed: Armed)
    | Tick

  const INITIAL: System := System(map[], {}, {}, 0, {}, {}, map[])

  /** What the environment may do next. Session ids are not reused, a pump offers messages only
      while it runs, a timer fires no earlier than it was set for, and a resume verdict does not
      fall behind an acknowledgment (ManagerStreams discharges the last one). */
  predicate Enabled(s: System, e: Event) {
    match e
    case Admit(session, _) => session in s.jobs || session !in s.started
    case Offer(session, _) => session in s.running
    case HandlerDone(session) => session in s.running
    case HandlerPanicked(session) => session in s.running
    case Resumed(session, _, status, nextSeq) =>
      session in s.jobs && status.Resume? ==> s.jobs[session].ackedSeq <= nextSeq
    case Fire(armed) => armed in s.timers && armed.armedAt + RETENTION <= s.now
    case _ => true
  }

  ghost function OfferResult(enc: Encoder, jobs: Jobs, session: string, decoded: Option<Message>): (Jobs, bool) {
    if decoded.None? then (FailedIn(enc, jobs, session), false)
    else BufferedIn(enc, jobs, session, decoded.value)
  }

  /** The chunk that an offer added to a job, if any. */
  function Recorded(before: Job, after: Job): seq<Payload> {
    if before.producedSeq < after.producedSeq && before.producedSeq in after.chunks
    then [after.chunks[before.producedSeq]] else []
  }

  function Logged(log: map<string, seq<Payload>>, before: Jobs, after: Jobs, session: string)
    : map<string, seq<Payload>>
  {
    if session in before && session in after && session in log
    then log[session := log[session] + Recorded(before[session], after[session])]
    else log
  }

  ghost function Apply(enc: Encoder, s: System, e: Event): System {
    match e
    case Admit(session, token) =>
      if session in s.jobs || |s.jobs| >= MAX_JOBS then s
      else s.(jobs := Started(s.jobs, session, token),
              running := s.running + {session}, started := s.started + {session},
              log := s.log[session := []])
    case Offer(session, decoded) =>
      var (jobs, accepted) := OfferResult(enc, s.jobs, session, decoded);
      s.(jobs := jobs,
         running := if accepted && !decoded.value.Complete? then s.running else s.running - {session},
         failed := if accepted then s.failed else s.failed + {session},
         log := Logged(s.log, s.jobs, jobs, session))
    case HandlerDone(session) =>
      s.(jobs := WithoutIncomplete(s.jobs, session), running := s.running - {session})
    case HandlerPanicked(session) =>
      s.(jobs := s.jobs - {session}, running := s.running - {session})
    case Resumed(session, token, status, nextSeq) =>
      s.(jobs := ResumedIn(s.jobs, session, token, status, nextSeq))
    case Acked(session, token, nextSeq, completed) =>
      s.(jobs := AcknowledgedIn(s.jobs, session, token, nextSeq, completed))
    case Drain => s.(jobs := DrainedAll(s.jobs))
    case Disconnect =>
      var jobs := DetachedAll(s.jobs);
      s.(jobs := jobs,
         timers := s.timers + set session | session in jobs :: Armed(TimerFor(session, jobs[session]), s.now))
    case Fire(armed) =>
      s.(jobs := Expired(s.jobs, armed.timer), timers := s.timers - {armed})
    case Tick => s.(now := s.now + 1)
  }

  ghost function Run(enc: Encoder, events: seq<Event>): System {
    if events == [] then INITIAL
    else Apply(enc, Run(enc, events[..|events| - 1]), events[|events| - 1])
  }

  ghost predicate Legal(enc: Encoder, events: seq<Event>) {
    events != [] ==>
      && Legal(enc, events[..|events| - 1])
      && Enabled(Run(enc, events[..|events| - 1]), events[|events| - 1])
  }

  // ---------------------------------------------------------------- what every reachable state satisfies

  /** The buffered chunks are the recorded ones, and none that is unacknowledged is missing. */
  ghost predicate Retains(job: Job, log: seq<Payload>) {
    && |log| == job.producedSeq
    && forall i :: job.ackedSeq <= i < job.producedSeq ==> i in job.chunks && job.chunks[i] == log[i]
  }

  ghost predicate Coherent(s: System) {
    && TableOk(s.jobs, s.running)
    && s.jobs.Keys <= s.started && s.running <= s.started && s.log.Keys == s.started
    && s.failed <= s.started && s.failed !! s.running
    && (forall k :: k in s.jobs ==> Retains(s.jobs[k], s.log[k]))
    && (forall a :: a in s.timers ==> a.timer.session in s.started && a.armedAt <= s.now)
    && (forall a :: a in s.timers && a.timer.session in s.jobs ==>
          a.timer.gen <= s.jobs[a.timer.session].detachGen)
  }

  /** One job may be replaced by a valid one that retains its log. */
  lemma ReplaceKeepsCoherent(s: System, session: string, job: Job, running: set<string>,
                             failed: set<string>, log: seq<Payload>)
    requires Coherent(s) && session in s.jobs
    requires s.running - {session} <= running <= s.running
    requires s.failed <= failed <= s.failed + {session} && failed !! running
    requires JobOk(job, session in running) && Retains(job, log)
    requires s.jobs[session].detachGen <= job.detachGen
    ensures Coherent(s.(jobs := s.jobs[session := job], running := running, failed := failed,
                        log := s.log[session := log]))
  {}

  /** Jobs may disappear, and pumps stop, at any time. */
  lemma RemoveKeepsCoherent(s: System, session: string, running: set<string>)
    requires Coherent(s) && running <= s.running
    ensures Coherent(s.(jobs := s.jobs - {session}, running := running))
    ensures session !in running ==>
      Coherent(s.(running := running, failed := s.failed + if session in s.started then {session} else {}))
  {}

  lemma AppendRetains(job: Job, payload: Payload, log: seq<Payload>)
    requires JobOk(job, true) && Retains(job, log)
    ensures Retains(Appended(job, payload), log + [payload])
  {}

  lemma BufferRetains(enc: Encoder, job: Job, totalBytes: nat, message: Message, log: seq<Payload>)
    requires JobOk(job, true) && Retains(job, log)
    ensures var (job', accepted) := Buffer(enc, job, totalBytes, message);
            Retains(job', log + Recorded(job, job')) && job'.detachGen == job.detachGen
  {
    var job' := Buffer(enc, job, totalBytes, message).0;
    if job'.producedSeq == job.producedSeq {
      assert Recorded(job, job') == [] && job'.chunks == job.chunks;
    } else {
      AppendRetains(job, job'.chunks[job.producedSeq], log);
    }
  }

  lemma ApplyOffer(enc: Encoder, s: System, session: string, decoded: Option<Message>)
    requires Coherent(s) && session in s.running
    ensures Coherent(Apply(enc, s, Offer(session, decoded)))
  {
    var s' := Apply(enc, s, Offer(session, decoded));
    if session !in s.jobs {
      RemoveKeepsCoherent(s, session, s.running - {session});
      return;
    }
    var job, total := s.jobs[session], TotalBytes(s.jobs);
    if decoded.Some? {
      BufferKeepsOk(enc, job, total, decoded.value);
      BufferRetains(enc, job, total, decoded.value, s.log[session]);
    } else {
      FailTerminalOk(enc, job);
    }
    var job' := s'.jobs[session];
    ReplaceKeepsCoherent(s, session, job', s'.running, s'.failed, s.log[session] + Recorded(job, job'));
  }

  lemma ApplyResumed(enc: Encoder, s: System, session: string, token: string, status: Status, nextSeq: nat)
    requires Coherent(s) && Enabled(s, Resumed(session, token, status, nextSeq)) && session in s.jobs
    ensures Coherent(Apply(enc, s, Resumed(session, token, status, nextSeq)))
  {
    var job := s.jobs[session];
    var result := HandleResume(job, token, status, nextSeq);
    if status.Resume? && nextSeq <= job.producedSeq { HandleResumeKeepsOk(job, session in s.running, nextSeq); }
    PutKeepsCoherent(s, session, result);
  }

  lemma ApplyAcked(enc: Encoder, s: System, session: string, token: string, nextSeq: nat, completed: bool)
    requires Coherent(s) && session in s.jobs
    ensures Coherent(Apply(enc, s, Acked(session, token, nextSeq, completed)))
  {
    AcknowledgeKeepsOk(s.jobs[session], session in s.running, token, nextSeq, completed);
    PutKeepsCoherent(s, session, Acknowledge(s.jobs[session], token, nextSeq, completed));
  }

  lemma PutKeepsCoherent(s: System, session: string, result: Option<Job>)
    requires Coherent(s) && session in s.jobs
    requires result.Some? ==> JobOk(result.value, session in s.running)
    requires result.Some? ==> Retains(result.value, s.log[session])
    requires result.Some? ==> s.jobs[session].detachGen <= result.value.detachGen
    ensures Coherent(s.(jobs := Put(s.jobs, session, result)))
  {
    if result.Some? {
      ReplaceKeepsCoherent(s, session, result.value, s.running, s.failed, s.log[session]);
      assert s.log[session := s.log[session]] == s.log;
    } else {
      RemoveKeepsCoherent(s, session, s.running);
    }
  }

  lemma ApplyDrain(enc: Encoder, s: System)
    requires Coherent(s)
    ensures Coherent(Apply(enc, s, Drain))
  {
    DrainedKeepsTable(s.jobs, s.running);
  }

  lemma ApplyDisconnect(enc: Encoder, s: System)
    requires Coherent(s)
    ensures Coherent(Apply(enc, s, Disconnect))
  {
    DetachedKeepsTable(s.jobs, s.running);
  }

  lemma ApplyAdmit(enc: Encoder, s: System, session: string, token: string)
    requires Coherent(s) && Enabled(s, Admit(session, token))
    ensures Coherent(Apply(enc, s, Admit(session, token)))
  {
    NewJobOk(token);
    var s' := Apply(enc, s, Admit(session, token));
    if s' != s {
      forall k | k in s'.jobs ensures JobOk(s'.jobs[k], k in s'.running) && Retains(s'.jobs[k], s'.log[k]) {
        if k == session {
          assert s'.jobs[k] == NewJob(token) && s'.log[k] == [];
        } else {
          assert s'.jobs[k] == s.jobs[k] && s'.log[k] == s.log[k] && (k in s'.running <==> k in s.running);
        }
      }
      assert TableOk(s'.jobs, s'.running);
    }
  }

  lemma ApplyKeepsCoherent(enc: Encoder, s: System, e: Event)
    requires Coherent(s) && Enabled(s, e)
    ensures Coherent(Apply(enc, s, e))
  {
    match e {
      case Admit(session, token) => ApplyAdmit(enc, s, session, token);
      case Offer(session, decoded) => ApplyOffer(enc, s, session, decoded);
      case HandlerDone(session) => RemoveKeepsCoherent(s, session, s.running - {session});
      case HandlerPanicked(session) => RemoveKeepsCoherent(s, session, s.running - {session});
      case Resumed(session, token, status, nextSeq) =>
        if session in s.jobs { ApplyResumed(enc, s, session, token, status, nextSeq); }
      case Acked(session, token, nextSeq, completed) =>
        if session in s.jobs { ApplyAcked(enc, s, session, token, nextSeq, completed); }
      case Drain => ApplyDrain(enc, s);
      case Disconnect => ApplyDisconnect(enc, s);
      case Fire(armed) =>
        RemoveKeepsCoherent(s, armed.timer.session, s.running);
      case Tick =>
    }
  }

  /** Every reachable state keeps the replay-buffer invariant, and a live job has lost no chunk
      that is not acknowledged: what is buffered is what was recorded. */
  lemma {:induction false} ReplayInvariant(enc: Encoder, events: seq<Event>)
    requires Legal(enc, events)
    ensures Coherent(Run(enc, events))
  {
    if events != [] {
      ReplayInvariant(enc, events[..|events| - 1]);
      ApplyKeepsCoherent(enc, Run(enc, events[..|events| - 1]), events[|events| - 1]);
    }
  }

  lemma JobsAreStarted(enc: Encoder, events: seq<Event>)
    requires Legal(enc, events)
    ensures Run(enc, events).jobs.Keys <= Run(enc, events).started
  {
    ReplayInvariant(enc, events);
  }

  lemma AdmitFresh(enc: Encoder, s: System, session: string, token: string)
    requires session !in s.jobs && |s.jobs| < 64
    ensures var t := Apply(enc, s, Admit(session, token));
      && session in t.running && t.jobs.Keys == s.jobs.Keys + {session}
      && t.jobs[session] == Job(token, 0, 0, 0, map[], None, None, false, true, 0, 0)
  {}

  /** Whatever has happened, a session that has not been seen may be admitted, and below 64 jobs it then
      has an empty, attached job whose pump is running. */
  lemma FreshSessionIsAdmitted(enc: Encoder, events: seq<Event>, session: string, token: string)
    requires Legal(enc, events) && session !in Run(enc, events).started && |Run(enc, events).jobs| < 64
    ensures var s := Run(enc, events + [Admit(session, token)]);
      && Legal(enc, events + [Admit(session, token)])
      && session in s.running && s.jobs.Keys == Run(enc, events).jobs.Keys + {session}
      && s.jobs[session] == Job(token, 0, 0, 0, map[], None, None, false, true, 0, 0)
  {
    JobsAreStarted(enc, events);
    AdmitFresh(enc, Run(enc, events), session, token);
    assert (events + [Admit(session, token)])[..|events|] == events;
  }
}
