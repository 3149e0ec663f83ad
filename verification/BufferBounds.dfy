/** The replay buffers grow to fixed bounds and never evict: over all runs of the manager the
    job count, the chunks and bytes of each job and the bytes of all jobs stay within the
    configured limits, up to the one synthetic completion that ends each failed job. */
module BufferBounds {
  import opened Wrappers
  import opened ReplayJob
  import opened InvocationManagers
  import opened ManagerRuns

  /** A job's bytes without the one completion that the limits do not stop. */
  function Charge(job: Job, failed: bool): nat {
    if failed then Minus(job.bytes, CompletionBytes(job)) else job.bytes
  }

  ghost function Charges(jobs: Jobs, failed: set<string>): map<string, nat> {
    map s | s in jobs :: Charge(jobs[s], s in failed)
  }

  predicate JobBounded(job: Job, failed: bool) {
    |job.chunks| <= MAX_FRAMES && Charge(job, failed) <= MAX_BYTES
  }

  ghost predicate Bounded(jobs: Jobs, failed: set<string>) {
    && |jobs| <= MAX_JOBS
    && (forall k :: k in jobs ==> JobBounded(jobs[k], k in failed))
    && Total(Charges(jobs, failed)) <= TOTAL_MAX_BYTES
  }

  lemma SubsetSize<T>(a: set<T>, b: set<T>)
    requires a <= b
    ensures |a| <= |b|
  {
    assert b == a + (b - a);
  }

  lemma {:induction false} TotalMonotone(a: map<string, nat>, b: map<string, nat>)
    requires a.Keys <= b.Keys
    requires forall k :: k in a ==> a[k] <= b[k]
    ensures Total(a) <= Total(b)
    decreases a
  {
    if a != map[] {
      var k :| k in a;
      TotalWithout(a, k);
      TotalWithout(b, k);
      TotalMonotone(a - {k}, b - {k});
    }
  }

  // ---------------------------------------------------------------- one job

  predicate Shrinks(job: Job, job': Job, failed: bool) {
    |job'.chunks| <= |job.chunks| && Charge(job', failed) <= Charge(job, failed)
  }

  lemma AckShrinks(job: Job, running: bool, nextSeq: nat, failed: bool)
    requires JobOk(job, running) && job.ackedSeq <= nextSeq <= job.producedSeq
    ensures Shrinks(job, AckChunks(job, nextSeq), failed)
  {
    SubsetSize(AckChunks(job, nextSeq).chunks.Keys, job.chunks.Keys);
  }

  lemma ResumedShrinks(job: Job, running: bool, token: string, status: Status, nextSeq: nat, failed: bool)
    requires JobOk(job, running) && (status.Resume? ==> job.ackedSeq <= nextSeq)
    ensures var result := HandleResume(job, token, status, nextSeq);
            result.Some? ==> Shrinks(job, result.value, failed)
  {
    if status.Resume? && nextSeq <= job.producedSeq { AckShrinks(job, running, nextSeq, failed); }
  }

  lemma AckedShrinks(job: Job, running: bool, token: string, nextSeq: nat, completed: bool, failed: bool)
    requires JobOk(job, running)
    ensures var result := Acknowledge(job, token, nextSeq, completed);
            result.Some? ==> Shrinks(job, result.value, failed)
  {
    if job.ackedSeq <= nextSeq <= job.producedSeq { AckShrinks(job, running, nextSeq, failed); }
  }

  /** What one offer does to a running job: an accepted message stays within every limit, and
      a refused one leaves the chunks and the charge as they were. */
  lemma BufferWithinLimits(enc: Encoder, job: Job, totalBytes: nat, message: Message)
    requires JobOk(job, true) && JobBounded(job, false)
    ensures var (job', accepted) := Buffer(enc, job, totalBytes, message);
            if accepted then
              && JobBounded(job', false)
              && (job'.bytes == job.bytes || totalBytes + job'.bytes - job.bytes <= TOTAL_MAX_BYTES)
            else
              |job'.chunks| == |job.chunks| && Charge(job', true) == job.bytes
  {}

  // ---------------------------------------------------------------- the table

  /** A step that adds no job, no chunk and no charge keeps the bounds. */
  lemma ShrinkKeepsBounds(jobs: Jobs, failed: set<string>, jobs': Jobs)
    requires Bounded(jobs, failed) && jobs'.Keys <= jobs.Keys
    requires forall k :: k in jobs' ==> Shrinks(jobs[k], jobs'[k], k in failed)
    ensures Bounded(jobs', failed)
  {
    SubsetSize(jobs'.Keys, jobs.Keys);
    TotalMonotone(Charges(jobs', failed), Charges(jobs, failed));
  }

  lemma ReplaceKeepsTotal(jobs: Jobs, session: string, job: Job, failed: set<string>, failed': set<string>)
    requires session in jobs && Total(Charges(jobs, failed)) <= TOTAL_MAX_BYTES
    requires failed <= failed' <= failed + {session}
    requires Charge(job, session in failed') <= Charge(jobs[session], session in failed)
          || TotalBytes(jobs) + job.bytes - jobs[session].bytes <= TOTAL_MAX_BYTES
    ensures Total(Charges(jobs[session := job], failed')) <= TOTAL_MAX_BYTES
  {
    var charges := Charges(jobs[session := job], failed');
    if Charge(job, session in failed') <= Charge(jobs[session], session in failed) {
      TotalMonotone(charges, Charges(jobs, failed));
    } else {
      var sizes := SizesOver(jobs, jobs.Keys);
      TotalWithout(sizes, session);
      TotalUpdate(sizes, session, job.bytes);
      TotalMonotone(charges, sizes[session := job.bytes]);
    }
  }

  lemma ReplaceKeepsBounds(jobs: Jobs, session: string, job: Job, failed: set<string>, failed': set<string>)
    requires Bounded(jobs, failed) && session in jobs
    requires failed <= failed' <= failed + {session}
    requires JobBounded(job, session in failed')
    requires Total(Charges(jobs[session := job], failed')) <= TOTAL_MAX_BYTES
    ensures Bounded(jobs[session := job], failed')
  {
    assert jobs[session := job].Keys == jobs.Keys;
  }

  lemma OfferWithinLimits(enc: Encoder, jobs: Jobs, failed: set<string>, session: string, decoded: Option<Message>)
    requires Bounded(jobs, failed) && session in jobs && session !in failed && JobOk(jobs[session], true)
    ensures var (jobs', accepted) := OfferResult(enc, jobs, session, decoded);
      && jobs' == jobs[session := jobs'[session]] && JobBounded(jobs'[session], !accepted)
      && (|| Charge(jobs'[session], !accepted) <= Charge(jobs[session], false)
          || TotalBytes(jobs) + jobs'[session].bytes - jobs[session].bytes <= TOTAL_MAX_BYTES)
  {
    assert JobBounded(jobs[session], false);
    if decoded.Some? { BufferWithinLimits(enc, jobs[session], TotalBytes(jobs), decoded.value); }
  }

  lemma OfferKeepsBounds(enc: Encoder, jobs: Jobs, failed: set<string>, session: string, decoded: Option<Message>)
    requires Bounded(jobs, failed) && session !in failed
    requires session in jobs ==> JobOk(jobs[session], true)
    ensures var (jobs', accepted) := OfferResult(enc, jobs, session, decoded);
            Bounded(jobs', if accepted then failed else failed + {session})
  {
    var (jobs', accepted) := OfferResult(enc, jobs, session, decoded);
    var failed' := if accepted then failed else failed + {session};
    if session in jobs {
      OfferWithinLimits(enc, jobs, failed, session, decoded);
      ReplaceKeepsTotal(jobs, session, jobs'[session], failed, failed');
      ReplaceKeepsBounds(jobs, session, jobs'[session], failed, failed');
    } else {
      assert Charges(jobs, failed') == Charges(jobs, failed);
    }
  }

  lemma PutKeepsBounds(jobs: Jobs, failed: set<string>, session: string, result: Option<Job>)
    requires Bounded(jobs, failed) && session in jobs
    requires result.Some? ==> Shrinks(jobs[session], result.value, session in failed)
    ensures Bounded(Put(jobs, session, result), failed)
  {
    ShrinkKeepsBounds(jobs, failed, Put(jobs, session, result));
  }

  lemma AdmitKeepsTotal(jobs: Jobs, failed: set<string>, session: string, token: string)
    requires session !in jobs
    ensures Total(Charges(jobs[session := NewJob(token)], failed)) == Total(Charges(jobs, failed))
  {
    var charges := Charges(jobs, failed);
    assert charges - {session} == charges;
    TotalUpdate(charges, session, 0);
    assert Charges(jobs[session := NewJob(token)], failed) == charges[session := 0];
  }

  lemma AdmitKeepsBounds(jobs: Jobs, failed: set<string>, session: string, token: string)
    requires Bounded(jobs, failed)
    ensures Bounded(Started(jobs, session, token), failed)
  {
    if session !in jobs {
      AdmitKeepsTotal(jobs, failed, session, token);
    }
  }

  lemma ResumedKeepsBounds(enc: Encoder, s: System, e: Event)
    requires Coherent(s) && Bounded(s.jobs, s.failed) && Enabled(s, e) && e.Resumed?
    ensures Bounded(Apply(enc, s, e).jobs, s.failed)
  {
    if e.session in s.jobs {
      var job := s.jobs[e.session];
      ResumedShrinks(job, e.session in s.running, e.token, e.status, e.nextSeq, e.session in s.failed);
      PutKeepsBounds(s.jobs, s.failed, e.session, HandleResume(job, e.token, e.status, e.nextSeq));
    }
  }

  lemma AckedKeepsBounds(enc: Encoder, s: System, e: Event)
    requires Coherent(s) && Bounded(s.jobs, s.failed) && e.Acked?
    ensures Bounded(Apply(enc, s, e).jobs, s.failed)
  {
    if e.session in s.jobs {
      var job := s.jobs[e.session];
      AckedShrinks(job, e.session in s.running, e.token, e.nextSeq, e.completed, e.session in s.failed);
      PutKeepsBounds(s.jobs, s.failed, e.session, Acknowledge(job, e.token, e.nextSeq, e.completed));
    }
  }

  lemma ConnectionKeepsBounds(enc: Encoder, s: System, e: Event)
    requires Bounded(s.jobs, s.failed)
    requires e.HandlerDone? || e.HandlerPanicked? || e.Drain? || e.Disconnect? || e.Fire? || e.Tick?
    ensures Bounded(Apply(enc, s, e).jobs, s.failed)
  {
    ShrinkKeepsBounds(s.jobs, s.failed, Apply(enc, s, e).jobs);
  }

  lemma ApplyKeepsBounds(enc: Encoder, s: System, e: Event)
    requires Coherent(s) && Bounded(s.jobs, s.failed) && Enabled(s, e)
    ensures Bounded(Apply(enc, s, e).jobs, Apply(enc, s, e).failed)
  {
    if e.Admit? { AdmitKeepsBounds(s.jobs, s.failed, e.session, e.token); }
    else if e.Offer? { OfferKeepsBounds(enc, s.jobs, s.failed, e.session, e.decoded); }
    else if e.Resumed? { ResumedKeepsBounds(enc, s, e); }
    else if e.Acked? { AckedKeepsBounds(enc, s, e); }
    else { ConnectionKeepsBounds(enc, s, e); }
  }

  lemma {:induction false} AlwaysBounded(enc: Encoder, events: seq<Event>)
    requires Legal(enc, events)
    ensures Bounded(Run(enc, events).jobs, Run(enc, events).failed)
  {
    if events != [] {
      var before := events[..|events| - 1];
      AlwaysBounded(enc, before);
      ReplayInvariant(enc, before);
      ApplyKeepsBounds(enc, Run(enc, before), events[|events| - 1]);
    }
  }

  /** Bounded growth, in every reachable state: at most 64 jobs; per job 512 chunks and 8 MiB, the
      completion of a failed job aside; and 32 MiB in all, those completions aside. */
  lemma BoundedGrowth(enc: Encoder, events: seq<Event>)
    requires Legal(enc, events)
    ensures var s := Run(enc, events);
      && |s.jobs| <= 64
      && (forall k :: k in s.jobs ==> |s.jobs[k].chunks| <= 512)
      && (forall k :: k in s.jobs && k !in s.failed ==> s.jobs[k].bytes <= 8 * 1024 * 1024)
      && (forall k :: k in s.jobs && k in s.failed ==>
            s.jobs[k].bytes - CompletionBytes(s.jobs[k]) <= 8 * 1024 * 1024)
      && Total(Charges(s.jobs, s.failed)) <= 32 * 1024 * 1024
  {
    AlwaysBounded(enc, events);
    var s := Run(enc, events);
    forall k | k in s.jobs ensures JobBounded(s.jobs[k], k in s.failed) {}
  }
}
