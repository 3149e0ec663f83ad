/** Retention timers are fenced by the detach generation: a timer that wakes up removes its job
    exactly when that job has stayed detached, without another disconnect, ever since the
    disconnect that armed the timer. So no job expires earlier than the retention period after
    its latest detach, whatever the order of disconnects, resumptions and stale wake-ups. */
module TimerFencing {
  import opened Wrappers
  import opened ReplayJob
  import opened InvocationManagers
  import opened ManagerRuns

  /** From just after event k to the end of the run, the session's job is present and detached,
      and no other disconnect has occurred. */
  ghost predicate DetachedSince(enc: Encoder, events: seq<Event>, k: nat, session: string) {
    && (forall n {:trigger Run(enc, events[..n])} :: k < n <= |events| ==>
          && session in Run(enc, events[..n]).jobs
          && !Run(enc, events[..n]).jobs[session].attached)
    && (forall n :: k < n < |events| ==> !events[n].Disconnect?)
  }

  /** Event k is the disconnect that armed the timer. */
  ghost predicate ArmedBy(enc: Encoder, events: seq<Event>, k: nat, armed: Armed)
    requires k < |events|
  {
    var after := Run(enc, events[..k + 1]);
    && events[k].Disconnect?
    && after.now == armed.armedAt
    && armed.timer.session in after.jobs
    && armed.timer == TimerFor(armed.timer.session, after.jobs[armed.timer.session])
  }

  lemma LegalPrefix(enc: Encoder, events: seq<Event>, n: nat)
    requires Legal(enc, events) && n <= |events|
    ensures Legal(enc, events[..n])
  {
    if n < |events| {
      LegalPrefix(enc, events[..|events| - 1], n);
      assert events[..|events| - 1][..n] == events[..n];
    } else {
      assert events[..n] == events;
    }
  }

  lemma RunStep(enc: Encoder, events: seq<Event>, n: nat)
    requires Legal(enc, events) && n < |events|
    ensures Run(enc, events[..n + 1]) == Apply(enc, Run(enc, events[..n]), events[n])
    ensures Enabled(Run(enc, events[..n]), events[n])
  {
    LegalPrefix(enc, events, n + 1);
    assert events[..n + 1][..n] == events[..n];
  }

  /** Only a disconnect arms timers, with the generation it sets. */
  lemma NewTimer(enc: Encoder, s: System, e: Event, armed: Armed)
    requires armed in Apply(enc, s, e).timers && armed !in s.timers
    ensures e.Disconnect?
    ensures var after := Apply(enc, s, e);
      && after.now == armed.armedAt && armed.timer.session in after.jobs
      && armed.timer == TimerFor(armed.timer.session, after.jobs[armed.timer.session])
  {}

  lemma ArmedEarlier(enc: Encoder, events: seq<Event>, n: nat, k: nat, armed: Armed)
    requires k < n <= |events| && ArmedBy(enc, events[..n], k, armed)
    ensures ArmedBy(enc, events, k, armed)
  {
    assert events[..n][..k + 1] == events[..k + 1];
  }

  lemma ArmedLast(enc: Encoder, events: seq<Event>, armed: Armed)
    requires events != [] && armed in Run(enc, events).timers
    requires armed !in Run(enc, events[..|events| - 1]).timers
    ensures ArmedBy(enc, events, |events| - 1, armed)
  {
    assert events[..|events|] == events;
    NewTimer(enc, Run(enc, events[..|events| - 1]), events[|events| - 1], armed);
  }

  /** Every pending timer was armed by some disconnect of the run. */
  lemma {:induction false} FindArming(enc: Encoder, events: seq<Event>, armed: Armed) returns (k: nat)
    requires Legal(enc, events) && armed in Run(enc, events).timers
    ensures k < |events| && ArmedBy(enc, events, k, armed)
  {
    var last := |events| - 1;
    if armed in Run(enc, events[..last]).timers {
      k := FindArming(enc, events[..last], armed);
      ArmedEarlier(enc, events, last, k, armed);
    } else {
      k := last;
      ArmedLast(enc, events, armed);
    }
  }

  /** Token and generation are kept, and a job does not become detached. */
  predicate SameLease(job: Job, job': Job) {
    && job'.resumeToken == job.resumeToken
    && job'.detachGen == job.detachGen
    && (job.attached ==> job'.attached)
  }

  lemma OfferFrame(enc: Encoder, jobs: Jobs, session: string, decoded: Option<Message>, k: string)
    requires k in OfferResult(enc, jobs, session, decoded).0
    ensures k in jobs && SameLease(jobs[k], OfferResult(enc, jobs, session, decoded).0[k])
  {}

  lemma AdvisorFrame(enc: Encoder, s: System, e: Event, k: string)
    requires (e.Resumed? || e.Acked?) && k in Apply(enc, s, e).jobs
    ensures k in s.jobs && SameLease(s.jobs[k], Apply(enc, s, e).jobs[k])
  {}

  /** One step keeps a job's token, raises its generation exactly at a disconnect, and detaches
      only at a disconnect. */
  lemma StepFrame(enc: Encoder, s: System, e: Event, session: string)
    requires Enabled(s, e) && session in s.started && session in Apply(enc, s, e).jobs
    ensures session in s.jobs
    ensures if e.Disconnect? then Apply(enc, s, e).jobs[session] == Detached(s.jobs[session])
            else SameLease(s.jobs[session], Apply(enc, s, e).jobs[session])
  {
    if e.Offer? { OfferFrame(enc, s.jobs, e.session, e.decoded, session); }
    else if e.Resumed? || e.Acked? { AdvisorFrame(enc, s, e, session); }
  }

  lemma StartedOnce(enc: Encoder, events: seq<Event>, n: nat, session: string)
    requires Legal(enc, events) && n < |events| && session in Run(enc, events[..n]).started
    ensures session in Run(enc, events[..n + 1]).started
  {
    RunStep(enc, events, n);
  }

  lemma JobIsStarted(enc: Encoder, events: seq<Event>, n: nat, session: string)
    requires Legal(enc, events) && n <= |events| && session in Run(enc, events[..n]).jobs
    ensures session in Run(enc, events[..n]).started
  {
    LegalPrefix(enc, events, n);
    ReplayInvariant(enc, events[..n]);
  }

  /** Admitted sessions stay in the history. */
  lemma {:induction false} StartedGrows(enc: Encoder, events: seq<Event>, m: nat, n: nat, session: string)
    requires Legal(enc, events) && m <= n <= |events| && session in Run(enc, events[..m]).started
    ensures session in Run(enc, events[..n]).started
    decreases n
  {
    if m < n {
      StartedGrows(enc, events, m, n - 1, session);
      StartedOnce(enc, events, n - 1, session);
    }
  }

  lemma GenerationStep(enc: Encoder, events: seq<Event>, m: nat, n: nat, session: string)
    requires Legal(enc, events) && m <= n < |events|
    requires session in Run(enc, events[..m]).jobs && session in Run(enc, events[..n + 1]).jobs
    ensures session in Run(enc, events[..n]).jobs
    ensures Run(enc, events[..n]).jobs[session].detachGen <= Run(enc, events[..n + 1]).jobs[session].detachGen
  {
    RunStep(enc, events, n);
    JobIsStarted(enc, events, m, session);
    StartedGrows(enc, events, m, n, session);
    StepFrame(enc, Run(enc, events[..n]), events[n], session);
  }

  /** While a job lives, its generation never goes back. */
  lemma {:induction false} GenerationGrows(enc: Encoder, events: seq<Event>, m: nat, n: nat, session: string)
    requires Legal(enc, events) && m <= n <= |events|
    requires session in Run(enc, events[..m]).jobs && session in Run(enc, events[..n]).jobs
    ensures Run(enc, events[..m]).jobs[session].detachGen <= Run(enc, events[..n]).jobs[session].detachGen
    decreases n
  {
    if m < n {
      GenerationStep(enc, events, m, n - 1, session);
      GenerationGrows(enc, events, m, n - 1, session);
    }
  }

  /** Backwards over one step: a job at the timer's generation was so before. */
  lemma ExpiresBefore(enc: Encoder, s: System, e: Event, timer: Timer)
    requires Enabled(s, e) && timer.session in s.started
    requires Expires(Apply(enc, s, e).jobs, timer)
    requires timer.session in s.jobs ==> timer.gen <= s.jobs[timer.session].detachGen
    ensures Expires(s.jobs, timer) && !e.Disconnect?
  {
    StepFrame(enc, s, e, timer.session);
  }

  /** Forwards over one step: a job that stays detached without a disconnect keeps the generation. */
  lemma ExpiresAfter(enc: Encoder, s: System, e: Event, timer: Timer)
    requires Enabled(s, e) && timer.session in s.started && !e.Disconnect?
    requires Expires(s.jobs, timer)
    requires timer.session in Apply(enc, s, e).jobs && !Apply(enc, s, e).jobs[timer.session].attached
    ensures Expires(Apply(enc, s, e).jobs, timer)
  {
    StepFrame(enc, s, e, timer.session);
  }

  lemma GenerationStepBack(enc: Encoder, events: seq<Event>, k: nat, armed: Armed, n: nat)
    requires Legal(enc, events) && k < n < |events| && ArmedBy(enc, events, k, armed)
    requires Expires(Run(enc, events[..n + 1]).jobs, armed.timer)
    ensures Expires(Run(enc, events[..n]).jobs, armed.timer) && !events[n].Disconnect?
  {
    var s := Run(enc, events[..n]);
    RunStep(enc, events, n);
    JobIsStarted(enc, events, k + 1, armed.timer.session);
    StartedGrows(enc, events, k + 1, n, armed.timer.session);
    if armed.timer.session in s.jobs { GenerationGrows(enc, events, k + 1, n, armed.timer.session); }
    ExpiresBefore(enc, s, events[n], armed.timer);
  }

  /** A detached job that is at the generation of event k has been so ever since event k. */
  lemma {:induction false} GenerationMeansDetached(
      enc: Encoder, events: seq<Event>, k: nat, armed: Armed, m: nat, n: nat)
    requires Legal(enc, events) && k < m <= n <= |events| && ArmedBy(enc, events, k, armed)
    requires Expires(Run(enc, events[..n]).jobs, armed.timer)
    ensures Expires(Run(enc, events[..m]).jobs, armed.timer)
    ensures m < n ==> !events[m].Disconnect?
    decreases n
  {
    if m < n {
      GenerationStepBack(enc, events, k, armed, n - 1);
      GenerationMeansDetached(enc, events, k, armed, m, n - 1);
    }
  }

  lemma ArmedExpires(enc: Encoder, events: seq<Event>, k: nat, armed: Armed)
    requires Legal(enc, events) && k < |events| && ArmedBy(enc, events, k, armed)
    ensures Expires(Run(enc, events[..k + 1]).jobs, armed.timer)
  {
    RunStep(enc, events, k);
  }

  lemma DetachedStep(enc: Encoder, events: seq<Event>, k: nat, armed: Armed, n: nat)
    requires Legal(enc, events) && k < n < |events| && DetachedSince(enc, events, k, armed.timer.session)
    requires Expires(Run(enc, events[..n]).jobs, armed.timer)
    ensures Expires(Run(enc, events[..n + 1]).jobs, armed.timer)
  {
    RunStep(enc, events, n);
    JobIsStarted(enc, events, n, armed.timer.session);
    ExpiresAfter(enc, Run(enc, events[..n]), events[n], armed.timer);
  }

  /** Staying detached without another disconnect keeps the token and the generation. */
  lemma {:induction false} DetachedKeepsGeneration(enc: Encoder, events: seq<Event>, k: nat, armed: Armed, n: nat)
    requires Legal(enc, events) && k < n <= |events| && ArmedBy(enc, events, k, armed)
    requires DetachedSince(enc, events, k, armed.timer.session)
    ensures Expires(Run(enc, events[..n]).jobs, armed.timer)
    decreases n
  {
    if k + 1 < n {
      DetachedKeepsGeneration(enc, events, k, armed, n - 1);
      DetachedStep(enc, events, k, armed, n - 1);
    } else {
      ArmedExpires(enc, events, k, armed);
    }
  }

  // ---------------------------------------------------------------- no job is forgotten

  /** A timer that would remove this job is pending. */
  ghost predicate Timed(s: System, session: string)
    requires session in s.jobs
  {
    exists a :: a in s.timers && a.timer == TimerFor(session, s.jobs[session])
  }

  ghost predicate AllTimed(s: System) {
    forall k :: k in s.jobs && !s.jobs[k].attached ==> Timed(s, k)
  }

  lemma StillTimed(enc: Encoder, s: System, e: Event, k: string)
    requires AllTimed(s) && Enabled(s, e) && !e.Disconnect?
    requires k in s.jobs && k in Apply(enc, s, e).jobs && SameLease(s.jobs[k], Apply(enc, s, e).jobs[k])
    requires !Apply(enc, s, e).jobs[k].attached
    ensures Timed(Apply(enc, s, e), k)
  {
    var a :| a in s.timers && a.timer == TimerFor(k, s.jobs[k]);
    var t := Apply(enc, s, e);
    if e.Fire? && e.armed == a { assert Expires(s.jobs, a.timer); }
    assert a in t.timers && a.timer == TimerFor(k, t.jobs[k]);
  }

  lemma DisconnectTimes(enc: Encoder, s: System)
    ensures AllTimed(Apply(enc, s, Disconnect))
  {
    var t := Apply(enc, s, Disconnect);
    forall k | k in t.jobs ensures Timed(t, k) {
      assert Armed(TimerFor(k, t.jobs[k]), s.now) in t.timers;
    }
  }

  lemma AdmittedIsAttached(enc: Encoder, s: System, e: Event, k: string)
    requires e.Admit? && k in Apply(enc, s, e).jobs && k !in s.jobs
    ensures Apply(enc, s, e).jobs[k].attached
  {}

  lemma StepKeepsTimed(enc: Encoder, s: System, e: Event)
    requires AllTimed(s) && Enabled(s, e) && s.jobs.Keys <= s.started
    ensures AllTimed(Apply(enc, s, e))
  {
    var t := Apply(enc, s, e);
    if e.Disconnect? {
      DisconnectTimes(enc, s);
    } else {
      forall k | k in t.jobs && !t.jobs[k].attached ensures Timed(t, k) {
        if k !in s.jobs && e.Admit? { AdmittedIsAttached(enc, s, e, k); }
        StepFrame(enc, s, e, k);
        StillTimed(enc, s, e, k);
      }
    }
  }

  /** In every reachable state each detached job has a pending timer that would remove it: no job
      outlives its connection for ever. */
  lemma {:induction false} DetachedIsTimed(enc: Encoder, events: seq<Event>)
    requires Legal(enc, events)
    ensures AllTimed(Run(enc, events))
  {
    if events != [] {
      var before := events[..|events| - 1];
      DetachedIsTimed(enc, before);
      ReplayInvariant(enc, before);
      StepKeepsTimed(enc, Run(enc, before), events[|events| - 1]);
    }
  }

  function Ticks(n: nat): seq<Event> {
    seq(n, i => Tick)
  }

  lemma OneTick(enc: Encoder, events: seq<Event>)
    requires Legal(enc, events)
    ensures Legal(enc, events + [Tick])
    ensures var s := Run(enc, events); Run(enc, events + [Tick]) == s.(now := s.now + 1)
  {
    assert (events + [Tick])[..|events|] == events;
  }

  lemma {:induction false} TimePasses(enc: Encoder, events: seq<Event>, n: nat)
    requires Legal(enc, events)
    ensures Legal(enc, events + Ticks(n))
    ensures var s := Run(enc, events); Run(enc, events + Ticks(n)) == s.(now := s.now + n)
  {
    if n == 0 {
      assert events + Ticks(0) == events;
    } else {
      TimePasses(enc, events, n - 1);
      OneTick(enc, events + Ticks(n - 1));
      assert events + Ticks(n) == events + Ticks(n - 1) + [Tick];
    }
  }

  /** And that timer is not late: after 45 ticks of the clock it may fire, and then exactly this job is
      gone. */
  lemma ExpiresAfterRetention(enc: Encoder, events: seq<Event>, session: string) returns (armed: Armed)
    requires Legal(enc, events) && session in Run(enc, events).jobs && !Run(enc, events).jobs[session].attached
    ensures var all := events + Ticks(45) + [Fire(armed)];
      && Legal(enc, all) && Run(enc, all).jobs == Run(enc, events).jobs - {session}
      && armed in Run(enc, events).timers && Run(enc, all).timers == Run(enc, events).timers - {armed}
  {
    DetachedIsTimed(enc, events);
    ReplayInvariant(enc, events);
    TimePasses(enc, events, 45);
    var s := Run(enc, events);
    armed :| armed in s.timers && armed.timer == TimerFor(session, s.jobs[session]);
    var all := events + Ticks(45) + [Fire(armed)];
    assert all[..|all| - 1] == events + Ticks(45);
  }

  // ---------------------------------------------------------------- expiry

  /** A pending timer was armed by a disconnect, and firing it would remove its job exactly when
      that job has stayed detached ever since. */
  lemma TimerRemovesIffDetachedSince(enc: Encoder, events: seq<Event>, armed: Armed) returns (k: nat)
    requires Legal(enc, events) && armed in Run(enc, events).timers
    ensures k < |events| && ArmedBy(enc, events, k, armed)
    ensures Expires(Run(enc, events).jobs, armed.timer) <==>
            DetachedSince(enc, events, k, armed.timer.session)
  {
    k := FindArming(enc, events, armed);
    assert events[..|events|] == events;
    if Expires(Run(enc, events).jobs, armed.timer) {
      forall n | k < n <= |events|
        ensures Expires(Run(enc, events[..n]).jobs, armed.timer)
        ensures n < |events| ==> !events[n].Disconnect?
      {
        GenerationMeansDetached(enc, events, k, armed, n, |events|);
      }
    }
    if DetachedSince(enc, events, k, armed.timer.session) {
      DetachedKeepsGeneration(enc, events, k, armed, |events|);
    }
  }

  /** A job removed by a timer had been detached for the whole retention period. */
  lemma NoEarlyExpiry(enc: Encoder, events: seq<Event>, armed: Armed) returns (k: nat)
    requires Legal(enc, events + [Fire(armed)])
    requires Run(enc, events + [Fire(armed)]).jobs != Run(enc, events).jobs
    ensures k < |events| && events[k].Disconnect?
    ensures DetachedSince(enc, events, k, armed.timer.session)
    ensures Run(enc, events[..k + 1]).now + 45 <= Run(enc, events).now
  {
    var all := events + [Fire(armed)];
    assert all[..|all| - 1] == events;
    k := TimerRemovesIffDetachedSince(enc, events, armed);
  }
}
