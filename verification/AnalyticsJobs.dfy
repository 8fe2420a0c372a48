/** What becomes of projection jobs over a run: which rows never move again, how a
    job is abandoned, and when an event still waiting has a job that can be claimed. */
module AnalyticsJobs {
  import opened Backoff
  import opened Prelude
  import opened AnalyticsProjection

  predicate HoldsJob(s: State, w: int, id: nat) { w in s.works && s.works[w].job == Some(id) }

  /** A held job is processing, and one worker holds it. */
  ghost predicate JobsHeld(s: State) {
    && (forall w, id :: HoldsJob(s, w, id) ==> id in s.jobs && s.jobs[id].status == JobProcessing)
    && (forall v, w, id :: HoldsJob(s, v, id) && HoldsJob(s, w, id) ==> v == w)
  }

  /** A job left processing by nobody. */
  ghost predicate Abandoned(s: State, id: nat) {
    id in s.jobs && s.jobs[id].status == JobProcessing && forall w :: !HoldsJob(s, w, id)
  }

  lemma HoldBefore(s: State, step: Step, w: int, id: nat)
    requires Enabled(s, step) && HoldsJob(Next(s, step), w, id)
    ensures HoldsJob(s, w, id) || (step.ClaimJob? && step.worker == w && step.id == id)
    ensures step != Book(w) && step != Stop(w)
  {}

  /** Only three steps write an existing job. */
  lemma JobWrittenBy(s: State, step: Step, id: nat)
    requires CoverageOk(s) && Enabled(s, step) && id in s.jobs
    ensures id in Next(s, step).jobs
    ensures Next(s, step).jobs[id] != s.jobs[id] ==>
              || (step.ClaimJob? && step.id == id)
              || (step.Book? && HoldsJob(s, step.worker, id))
              || step == Retry(id)
  {
    assert JobOk(s, id);
  }

  lemma StepKeepsHeld(s: State, step: Step, w: int, id: nat)
    requires CoverageOk(s) && JobsHeld(s) && Enabled(s, step) && HoldsJob(Next(s, step), w, id)
    ensures id in Next(s, step).jobs && Next(s, step).jobs[id].status == JobProcessing
  {
    HoldBefore(s, step, w, id);
    if HoldsJob(s, w, id) {
      JobWrittenBy(s, step, id);
      assert !(step.Book? && HoldsJob(s, step.worker, id));
    }
  }

  lemma StepKeepsSole(s: State, step: Step, v: int, w: int, id: nat)
    requires JobsHeld(s) && Enabled(s, step) && HoldsJob(Next(s, step), v, id) && HoldsJob(Next(s, step), w, id)
    ensures v == w
  {
    HoldBefore(s, step, v, id);
    HoldBefore(s, step, w, id);
    assert step.ClaimJob? && step.id == id ==> !HoldsJob(s, v, id) && !HoldsJob(s, w, id);
  }

  lemma StepKeepsJobsHeld(s: State, step: Step)
    requires CoverageOk(s) && JobsHeld(s) && Enabled(s, step)
    ensures JobsHeld(Next(s, step))
  {
    var t := Next(s, step);
    forall w, id | HoldsJob(t, w, id) ensures id in t.jobs && t.jobs[id].status == JobProcessing { StepKeepsHeld(s, step, w, id); }
    forall v, w, id | HoldsJob(t, v, id) && HoldsJob(t, w, id) ensures v == w { StepKeepsSole(s, step, v, w, id); }
  }

  ghost predicate JobsOk(s: State) { CoverageOk(s) && JobsHeld(s) }

  lemma {:induction false} RunKeepsJobs(s: State, steps: seq<Step>, t: State)
    requires JobsOk(s) && Steps(s, steps, t)
    ensures JobsOk(t)
    decreases |steps|
  {
    if steps != [] {
      StepKeepsCoverage(s, steps[0]);
      StepKeepsJobsHeld(s, steps[0]);
      RunKeepsJobs(Next(s, steps[0]), steps[1..], t);
    }
  }

  lemma InitialJobsOk(s: State)
    requires Initial(s)
    ensures JobsOk(s)
  {}

  // ---------------------------------------------------------------- jobs at rest

  predicate Claims(step: Step, id: nat) { step.ClaimJob? && step.id == id }

  ghost predicate AtRest(s: State, id: nat) { Abandoned(s, id) || (id in s.jobs && s.jobs[id].status == JobSucceeded) }

  lemma StepLeavesAtRest(s: State, step: Step, id: nat)
    requires JobsOk(s) && Enabled(s, step) && AtRest(s, id)
    ensures AtRest(Next(s, step), id) && Next(s, step).jobs[id] == s.jobs[id] && !Claims(step, id)
  {
    JobWrittenBy(s, step, id);
    assert forall w :: !HoldsJob(s, w, id);
    if Abandoned(s, id) {
      forall w ensures !HoldsJob(Next(s, step), w, id) {
        if HoldsJob(Next(s, step), w, id) { HoldBefore(s, step, w, id); }
      }
    }
  }

  /** A job left processing by a worker that stopped, and a succeeded one, keep their
      row over any run and are never claimed again. */
  lemma {:induction false} JobAtRestForGood(s: State, steps: seq<Step>, t: State, id: nat)
    requires JobsOk(s) && Steps(s, steps, t) && AtRest(s, id)
    ensures id in t.jobs && t.jobs[id] == s.jobs[id]
    ensures forall i :: 0 <= i < |steps| ==> !Claims(steps[i], id)
    decreases |steps|
  {
    if steps != [] {
      StepKeepsCoverage(s, steps[0]);
      StepKeepsJobsHeld(s, steps[0]);
      StepLeavesAtRest(s, steps[0], id);
      JobAtRestForGood(Next(s, steps[0]), steps[1..], t, id);
      forall i | 0 <= i < |steps| ensures !Claims(steps[i], id) {
        if i > 0 { assert steps[i] == steps[1..][i - 1]; }
      }
    }
  }

  lemma StepLeavesDead(s: State, step: Step, id: nat)
    requires JobsOk(s) && Enabled(s, step) && id in s.jobs && s.jobs[id].status == JobDead && step != Retry(id)
    ensures id in Next(s, step).jobs && Next(s, step).jobs[id] == s.jobs[id] && !Claims(step, id)
  {
    JobWrittenBy(s, step, id);
  }

  /** A dead job changes by a manual retry and by nothing else. */
  lemma {:induction false} DeadUntilRetried(s: State, steps: seq<Step>, t: State, id: nat)
    requires JobsOk(s) && Steps(s, steps, t) && id in s.jobs && s.jobs[id].status == JobDead
    requires forall i :: 0 <= i < |steps| ==> steps[i] != Retry(id)
    ensures id in t.jobs && t.jobs[id] == s.jobs[id]
    ensures forall i :: 0 <= i < |steps| ==> !Claims(steps[i], id)
    decreases |steps|
  {
    if steps != [] {
      StepKeepsCoverage(s, steps[0]);
      StepKeepsJobsHeld(s, steps[0]);
      StepLeavesDead(s, steps[0], id);
      forall i | 0 <= i < |steps[1..]| ensures steps[1..][i] != Retry(id) { assert steps[1..][i] == steps[i + 1]; }
      DeadUntilRetried(Next(s, steps[0]), steps[1..], t, id);
      forall i | 0 <= i < |steps| ensures !Claims(steps[i], id) {
        if i > 0 { assert steps[i] == steps[1..][i - 1]; }
      }
    }
  }

  // ---------------------------------------------------------------- how a job is abandoned

  /** The step takes worker `w` off its job without an outcome being written: it stops,
      or the delay of its failure is out of range. */
  predicate LetsGo(s: State, step: Step, w: int, id: nat)
    requires w in s.works && id in s.jobs
  {
    step == Stop(w) || (step == Book(w) && s.works[w].phase == Ended(false) && s.jobs[id].attempts >= POWER_OVERFLOW)
  }

  lemma HeldJobStays(s: State, step: Step, w: int, id: nat)
    requires JobsOk(s) && Enabled(s, step) && HoldsJob(s, w, id)
    ensures id in s.jobs
    ensures Abandoned(Next(s, step), id) <==> LetsGo(s, step, w, id)
  {
    var t := Next(s, step);
    JobWrittenBy(s, step, id);
    forall v | HoldsJob(t, v, id) ensures v == w && step != Book(w) && step != Stop(w) { HoldBefore(s, step, v, id); }
    if step != Book(w) && step != Stop(w) { assert HoldsJob(t, w, id); }
  }

  lemma UnheldJobStays(s: State, step: Step, id: nat)
    requires JobsOk(s) && Enabled(s, step) && !Abandoned(s, id) && forall w :: !HoldsJob(s, w, id)
    ensures !Abandoned(Next(s, step), id)
  {
    var t := Next(s, step);
    if id in s.jobs {
      JobWrittenBy(s, step, id);
      if Claims(step, id) { assert HoldsJob(t, step.worker, id); }
    }
  }

  /** A job is abandoned exactly by a worker that stops on it, or whose failure on the
      thirty-first attempt or later cannot be written. */
  lemma AbandonedByIff(s: State, step: Step, id: nat)
    requires JobsOk(s) && Enabled(s, step) && !Abandoned(s, id)
    ensures Abandoned(Next(s, step), id) <==> exists w :: HoldsJob(s, w, id) && id in s.jobs && LetsGo(s, step, w, id)
  {
    if w :| HoldsJob(s, w, id) {
      HeldJobStays(s, step, w, id);
      forall v | HoldsJob(s, v, id) ensures v == w {}
    } else {
      UnheldJobStays(s, step, id);
    }
  }

  // ---------------------------------------------------------------- attempts and retries

  /** Announcing an event appends it with a job that is due at once and may be tried eight
      times, and writing one directly appends it alone, unless the company has an event
      with its key already. */
  lemma AppendEffect(s: State, e: CustomerEvent)
    ensures var known := e.key != None && exists i :: 0 <= i < |s.events| && s.events[i].company == e.company && s.events[i].key == e.key;
      && Next(s, Append(e)) ==
           (if known then s else s.(events := s.events + [e], jobs := s.jobs[|s.events| := Job(JobPending, 0, 8, s.now)]))
      && Next(s, AppendDirect(e)) == (if known then s else s.(events := s.events + [e]))
  {}

  /** A free worker can claim a job exactly when it is pending or failed, its time has
      come, and no other such job has been available longer. */
  lemma JobClaimedIff(s: State, worker: int, id: nat, today: Day)
    requires id < |s.events|
    ensures Enabled(s, ClaimJob(worker, id, today)) <==>
      && worker !in s.works
      && id in s.jobs && (s.jobs[id].status == JobPending || s.jobs[id].status == JobFailed) && s.jobs[id].availableAt <= s.now
      && (forall other :: other in s.jobs && (s.jobs[other].status == JobPending || s.jobs[other].status == JobFailed) && s.jobs[other].availableAt <= s.now
            ==> s.jobs[id].availableAt <= s.jobs[other].availableAt)
    ensures Enabled(s, ClaimJob(worker, id, today)) ==>
      Next(s, ClaimJob(worker, id, today)).jobs[id] == Job(JobProcessing, s.jobs[id].attempts + 1, s.jobs[id].maxAttempts, s.jobs[id].availableAt)
  {
    assert forall other: nat :: Due(s, other) <==>
      other in s.jobs && (s.jobs[other].status == JobPending || s.jobs[other].status == JobFailed) && s.jobs[other].availableAt <= s.now;
  }

  /** Writing the outcome of a job's n-th attempt: succeeded; or dead on its last attempt,
      and otherwise failed, due again in 2^n seconds, an hour at most. */
  lemma OutcomeWrites(s: State, w: int, id: nat)
    requires Enabled(s, Book(w)) && s.works[w].job == Some(id) && id in s.jobs && s.jobs[id].attempts < 31
    ensures var j, n := s.jobs[id], s.jobs[id].attempts;
      Next(s, Book(w)).jobs[id] ==
        if s.works[w].phase.ok then j.(status := JobSucceeded)
        else Job(if n >= j.maxAttempts then JobDead else JobFailed, n, j.maxAttempts, s.now + if n >= 12 then 3600 else Pow2(n))
  {
    RetryDelayShape(0, s.jobs[id].attempts);
  }

  /** A refresh by hand begins with what is committed and writes no job. */
  lemma ManualRefreshBegins(s: State, worker: int, company: int, today: Day)
    ensures Enabled(s, BeginManual(worker, company, today)) <==> worker !in s.works
    ensures Enabled(s, BeginManual(worker, company, today)) ==>
      Next(s, BeginManual(worker, company, today)) == s.(works := s.works[worker := Work(company, today, None, |s.events|, Begun)])
  {}

  /** The statements of a refresh come in order, the lock first, and it is granted when no
      refresh of the company is between its lock and its end. */
  lemma RefreshInOrder(s: State, w: int, sales: map<Group, Fact>, campaign: map<Day, int>)
    ensures Enabled(s, Lock(w)) <==>
      && w in s.works && s.works[w].phase == Begun
      && (forall v :: v in s.works && s.works[v].company == s.works[w].company ==> s.works[v].phase.Begun? || s.works[v].phase.Ended?)
    ensures Enabled(s, InsertRows(w, sales)) <==> w in s.works && s.works[w].phase == Locked
    ensures Enabled(s, UpdateSums(w, campaign)) <==> w in s.works && s.works[w].phase.Inserted?
    ensures Enabled(s, Commit(w)) <==> w in s.works && s.works[w].phase.Updated?
    ensures Enabled(s, Abort(w)) <==> w in s.works && !s.works[w].phase.Ended?
    ensures Enabled(s, Book(w)) <==> w in s.works && s.works[w].phase.Ended?
  {
    forall v ensures HasLock(s, v) <==> v in s.works && !s.works[v].phase.Begun? && !s.works[v].phase.Ended? {}
  }

  /** Where a job is among its eight attempts. */
  predicate TriesOk(j: Job) {
    j.maxAttempts == 8 &&
    match j.status
    case JobPending => j.attempts == 0
    case JobProcessing => 1 <= j.attempts <= 8
    case JobFailed => 1 <= j.attempts < 8
    case JobDead => j.attempts == 8
    case JobSucceeded => 1 <= j.attempts <= 8
  }

  ghost predicate AllTriesOk(s: State) { forall id :: id in s.jobs ==> TriesOk(s.jobs[id]) }

  lemma StepKeepsTries(s: State, step: Step, id: nat)
    requires JobsOk(s) && AllTriesOk(s) && Enabled(s, step) && id in Next(s, step).jobs
    ensures TriesOk(Next(s, step).jobs[id])
  {
    if id in s.jobs {
      assert TriesOk(s.jobs[id]);
      JobWrittenBy(s, step, id);
      if step.Book? && HoldsJob(s, step.worker, id) { OutcomeWrites(s, step.worker, id); }
    }
  }

  /** In every reachable state: a job is tried at most eight times between manual retries,
      is failed while tries are left, and dead after exactly eight. So the delay of a
      failure is always in range. */
  lemma {:induction false} EightTries(s: State, steps: seq<Step>, t: State)
    requires JobsOk(s) && AllTriesOk(s) && Steps(s, steps, t)
    ensures AllTriesOk(t)
    decreases |steps|
  {
    if steps != [] {
      StepKeepsCoverage(s, steps[0]);
      StepKeepsJobsHeld(s, steps[0]);
      forall id | id in Next(s, steps[0]).jobs ensures TriesOk(Next(s, steps[0]).jobs[id]) { StepKeepsTries(s, steps[0], id); }
      EightTries(Next(s, steps[0]), steps[1..], t);
    }
  }

  lemma DeadAfterEightFromStart(s: State, steps: seq<Step>, t: State, id: nat)
    requires Initial(s) && Steps(s, steps, t) && id in t.jobs
    ensures t.jobs[id].attempts <= 8 && (t.jobs[id].status == JobDead ==> t.jobs[id].attempts == 8)
    ensures t.jobs[id].status == JobFailed ==> 1 <= t.jobs[id].attempts <= 7
  {
    InitialJobsOk(s);
    EightTries(s, steps, t);
    assert TriesOk(t.jobs[id]);
  }

  predicate ClaimedJobIn(steps: seq<Step>, id: nat) { exists i :: 0 <= i < |steps| && Claims(steps[i], id) }

  lemma {:induction false} TimeGoesOn(s: State, steps: seq<Step>, t: State)
    requires Steps(s, steps, t)
    ensures s.now <= t.now
    decreases |steps|
  {
    if steps != [] {
      TimeGoesOn(Next(s, steps[0]), steps[1..], t);
    }
  }

  lemma StepKeepsFailed(s: State, step: Step, id: nat)
    requires JobsOk(s) && Enabled(s, step) && id in s.jobs && s.jobs[id].status == JobFailed && !Claims(step, id) && step != Retry(id)
    ensures id in Next(s, step).jobs && Next(s, step).jobs[id] == s.jobs[id]
  {
    JobWrittenBy(s, step, id);
    if step.Book? { assert HoldsJob(s, step.worker, id) ==> s.jobs[id].status == JobProcessing; }
  }

  /** A failed job that nobody retries by hand is claimed at its time or later. */
  lemma {:induction false} JobClaimedWhenDue(s: State, steps: seq<Step>, t: State, id: nat)
    requires JobsOk(s) && Steps(s, steps, t) && id in s.jobs && s.jobs[id].status == JobFailed
    requires forall i :: 0 <= i < |steps| ==> steps[i] != Retry(id)
    ensures ClaimedJobIn(steps, id) ==> t.now >= s.jobs[id].availableAt
    decreases |steps|
  {
    if steps == [] {
    } else if Claims(steps[0], id) {
      TimeGoesOn(s, steps, t);
    } else {
      StepKeepsCoverage(s, steps[0]);
      StepKeepsJobsHeld(s, steps[0]);
      StepKeepsFailed(s, steps[0], id);
      forall i | 0 <= i < |steps[1..]| ensures steps[1..][i] != Retry(id) { assert steps[1..][i] == steps[i + 1]; }
      JobClaimedWhenDue(Next(s, steps[0]), steps[1..], t, id);
      if i :| 0 <= i < |steps| && Claims(steps[i], id) { assert steps[1..][i - 1] == steps[i]; }
    }
  }

  /** The backoff of jobs over whole runs: after the n-th attempt has failed, the job is
      not claimed for 2^n seconds, unless it is retried by hand. */
  lemma JobsBackOff(s: State, w: int, id: nat, steps: seq<Step>, t: State)
    requires JobsOk(s) && AllTriesOk(s) && Enabled(s, Book(w)) && HoldsJob(s, w, id) && !s.works[w].phase.ok
    requires Steps(Next(s, Book(w)), steps, t) && ClaimedJobIn(steps, id)
    requires forall i :: 0 <= i < |steps| ==> steps[i] != Retry(id)
    ensures id in s.jobs && s.jobs[id].attempts < 8 && t.now - s.now >= Pow2(s.jobs[id].attempts)
  {
    var mid := Next(s, Book(w));
    assert TriesOk(s.jobs[id]);
    OutcomeWrites(s, w, id);
    StepKeepsCoverage(s, Book(w));
    StepKeepsJobsHeld(s, Book(w));
    if mid.jobs[id].status == JobDead {
      DeadUntilRetried(mid, steps, t, id);
    } else {
      JobClaimedWhenDue(mid, steps, t, id);
    }
  }

  /** A manual retry is for failed and dead jobs, and starts one over. */
  lemma RetryEffect(s: State, id: nat)
    ensures Enabled(s, Retry(id)) <==> id in s.jobs && (s.jobs[id].status == JobFailed || s.jobs[id].status == JobDead)
    ensures Enabled(s, Retry(id)) ==> Next(s, Retry(id)) == s.(jobs := s.jobs[id := Job(JobPending, 0, s.jobs[id].maxAttempts, s.now)])
  {}

  // ---------------------------------------------------------------- events still waiting

  /** At some time from now on, with nothing else happening, the job is due. */
  ghost predicate DueLater(s: State, id: nat) { exists now :: now >= s.now && Due(Next(s, Tick(now)), id) }

  lemma DueLaterIff(s: State, id: nat)
    requires id in s.jobs
    ensures DueLater(s, id) <==> (s.jobs[id].status == JobPending || s.jobs[id].status == JobFailed)
  {
    if s.jobs[id].status == JobPending || s.jobs[id].status == JobFailed {
      var now := Max(s.now, s.jobs[id].availableAt);
      assert Due(Next(s, Tick(now)), id);
    }
  }

  /** An announced event that no committed refresh covers still has a job that can be
      claimed if and only if no worker holds the job, it was not abandoned and it is
      not dead. An abandoned or dead job's event waits for a refresh of its company
      that something else begins. */
  lemma WaitingEventHasJobIff(s: State, steps: seq<Step>, t: State, id: nat)
    requires Initial(s) && Steps(s, steps, t) && id in t.jobs
    ensures id < |t.events|
    ensures id >= Covered(t, t.events[id].company) ==>
      (DueLater(t, id) <==> (forall w :: !HoldsJob(t, w, id)) && !Abandoned(t, id) && t.jobs[id].status != JobDead)
  {
    InitialJobsOk(s);
    RunKeepsJobs(s, steps, t);
    assert JobOk(t, id);
    DueLaterIff(t, id);
  }
}
