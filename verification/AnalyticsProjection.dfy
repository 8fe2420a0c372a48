/** The analytics projection: customer events, the jobs that announce them, and the
    refresh that rebuilds a company's daily facts under an advisory lock. Each
    statement of a refresh reads what is committed when it starts. */
module AnalyticsProjection {
  import opened Backoff
  import opened Prelude

  type Moment = int     // seconds
  type Day = int

  datatype Kind = Registered | BonusEarned | BonusSpent | OtherKind

  /** `amount` is the amount property, in hundredths, when it is written as a plain
      decimal number. */
  datatype CustomerEvent = CustomerEvent(company: int, day: Day, branch: Option<int>, kind: Kind, amount: Option<nat>, key: Option<int>)

  /** The unique key of a fact row. */
  datatype Group = Group(company: int, day: Day, branch: Option<int>)

  /** The columns computed from transactions; amounts in hundredths. */
  datatype SalesColumns = SalesColumns(active: nat, newBuyers: nat, repeatBuyers: nat, gross: int, net: int, discount: int)
  datatype Fact = Fact(registrations: int, issued: int, redeemed: int, expired: int, attributed: int, sales: SalesColumns)

  const NO_SALES := SalesColumns(0, 0, 0, 0, 0, 0)
  const ZERO_FACT := Fact(0, 0, 0, 0, 0, NO_SALES)

  datatype JobStatus = JobPending | JobProcessing | JobSucceeded | JobFailed | JobDead
  datatype Job = Job(status: JobStatus, attempts: nat, maxAttempts: nat, availableAt: Moment)

  const WINDOW_DAYS := 365
  const DEFAULT_MAX_ATTEMPTS := 8

  function GroupOf(e: CustomerEvent): Group { Group(e.company, e.day, e.branch) }

  predicate InWindow(g: Group, company: int, today: Day) { g.company == company && g.day >= today - WINDOW_DAYS }

  function EventGroups(events: seq<CustomerEvent>, company: int, today: Day): set<Group> {
    set i | 0 <= i < |events| && InWindow(GroupOf(events[i]), company, today) :: GroupOf(events[i])
  }

  function Tally(events: seq<CustomerEvent>, g: Group, kind: Kind): int {
    Sum(events, (e: CustomerEvent) => if GroupOf(e) == g && e.kind == kind then 1 else 0)
  }

  function AmountTally(events: seq<CustomerEvent>, g: Group, kind: Kind): int {
    Sum(events, (e: CustomerEvent) => if GroupOf(e) == g && e.kind == kind && e.amount.Some? then e.amount.value else 0)
  }

  /** The row says of its group what the given events say. */
  predicate Matches(f: Fact, events: seq<CustomerEvent>, g: Group) {
    && f.registrations == Tally(events, g, Registered)
    && f.issued == AmountTally(events, g, BonusEarned)
    && f.redeemed == AmountTally(events, g, BonusSpent)
  }

  // ---------------------------------------------------------------- the statements of a refresh

  /** Rows from transactions in the window, then a zero row for every other group of events. */
  function InsertedRows(sales: map<Group, Fact>, events: seq<CustomerEvent>, company: int, today: Day): map<Group, Fact> {
    (map g | g in EventGroups(events, company, today) :: ZERO_FACT)
    + (map g | g in sales && InWindow(g, company, today) :: sales[g])
  }

  function UpdatedRows(staged: map<Group, Fact>, events: seq<CustomerEvent>, company: int, today: Day): map<Group, Fact> {
    map g | g in staged ::
      if g in EventGroups(events, company, today)
      then staged[g].(registrations := Tally(events, g, Registered), issued := AmountTally(events, g, BonusEarned),
                      redeemed := AmountTally(events, g, BonusSpent))
      else staged[g]
  }

  /** Campaign revenue by day, written on the rows without a branch. */
  function AttributedRows(staged: map<Group, Fact>, campaign: map<Day, int>): map<Group, Fact> {
    map g | g in staged :: if g.branch.None? && g.day in campaign then staged[g].(attributed := campaign[g.day]) else staged[g]
  }

  function Replaced(facts: map<Group, Fact>, staged: map<Group, Fact>, company: int, today: Day): map<Group, Fact> {
    (map g | g in facts && !InWindow(g, company, today) :: facts[g]) + staged
  }

  // ---------------------------------------------------------------- the protocol

  datatype Phase =
    | Begun
    | Locked
    | Inserted(staged: map<Group, Fact>, covered: nat)
    | Updated(staged: map<Group, Fact>, covered: nat, summed: nat)
    | Ended(ok: bool)

  /** A worker's refresh; `seen` counts the events committed when it began. */
  datatype Work = Work(company: int, today: Day, job: Option<nat>, seen: nat, phase: Phase)

  /** The last committed refresh of a company: the events its row-inserting statement
      saw, and those its summing statement saw. */
  datatype Refresh = Refresh(covered: nat, summed: nat, today: Day)

  datatype State = State(
    now: Moment,
    events: seq<CustomerEvent>,
    jobs: map<nat, Job>,
    facts: map<Group, Fact>,
    works: map<int, Work>,
    last: map<int, Refresh>)

  datatype Step =
    | Tick(now: Moment)
    | Append(event: CustomerEvent)
    | AppendDirect(event: CustomerEvent)
    | ClaimJob(worker: int, id: nat, today: Day)
    | BeginManual(worker: int, company: int, today: Day)
    | Lock(worker: int)
    | InsertRows(worker: int, sales: map<Group, Fact>)
    | UpdateSums(worker: int, campaign: map<Day, int>)
    | Commit(worker: int)
    | Abort(worker: int)
    | Book(worker: int)
    | Stop(worker: int)
    | Retry(id: nat)

  predicate KeyTaken(events: seq<CustomerEvent>, e: CustomerEvent) {
    e.key.Some? && exists i :: 0 <= i < |events| && events[i].company == e.company && events[i].key == e.key
  }

  predicate Due(s: State, id: nat) {
    id in s.jobs && (s.jobs[id].status == JobPending || s.jobs[id].status == JobFailed) && s.jobs[id].availableAt <= s.now
  }

  predicate HasLock(s: State, w: int) {
    w in s.works && (s.works[w].phase.Locked? || s.works[w].phase.Inserted? || s.works[w].phase.Updated?)
  }

  ghost predicate Enabled(s: State, step: Step) {
    match step
    case Tick(now) => now >= s.now
    case Append(_) => true
    case AppendDirect(_) => true
    case ClaimJob(worker, id, _) =>
      && worker !in s.works && Due(s, id) && id < |s.events|
      && forall other :: Due(s, other) ==> s.jobs[id].availableAt <= s.jobs[other].availableAt
    case BeginManual(worker, _, _) => worker !in s.works
    case Lock(worker) =>
      && worker in s.works && s.works[worker].phase.Begun?
      && forall w :: HasLock(s, w) ==> s.works[w].company != s.works[worker].company
    case InsertRows(worker, _) => worker in s.works && s.works[worker].phase.Locked?
    case UpdateSums(worker, _) => worker in s.works && s.works[worker].phase.Inserted?
    case Commit(worker) => worker in s.works && s.works[worker].phase.Updated?
    case Abort(worker) => worker in s.works && !s.works[worker].phase.Ended?
    case Book(worker) => worker in s.works && s.works[worker].phase.Ended?
    case Stop(worker) => worker in s.works
    case Retry(id) => id in s.jobs && (s.jobs[id].status == JobFailed || s.jobs[id].status == JobDead)
  }

  /** What the worker writes on its job; a failure on an attempt whose delay is out
      of range is not written at all. */
  function Booked(j: Job, ok: bool, now: Moment): Job {
    if ok then j.(status := JobSucceeded)
    else if j.attempts >= POWER_OVERFLOW then j
    else j.(status := if j.attempts >= j.maxAttempts then JobDead else JobFailed, availableAt := now + RetryDelay(j.attempts))
  }

  function WithPhase(s: State, worker: int, phase: Phase): State
    requires worker in s.works
  {
    s.(works := s.works[worker := s.works[worker].(phase := phase)])
  }

  ghost function Next(s: State, step: Step): State
    requires Enabled(s, step)
  {
    match step
    case Tick(now) => s.(now := now)
    case Append(e) =>
      if KeyTaken(s.events, e) then s
      else s.(events := s.events + [e], jobs := s.jobs[|s.events| := Job(JobPending, 0, DEFAULT_MAX_ATTEMPTS, s.now)])
    case AppendDirect(e) => if KeyTaken(s.events, e) then s else s.(events := s.events + [e])
    case ClaimJob(worker, id, today) =>
      s.(jobs := s.jobs[id := s.jobs[id].(status := JobProcessing, attempts := s.jobs[id].attempts + 1)],
         works := s.works[worker := Work(s.events[id].company, today, Some(id), |s.events|, Begun)])
    case BeginManual(worker, company, today) => s.(works := s.works[worker := Work(company, today, None, |s.events|, Begun)])
    case Lock(worker) => WithPhase(s, worker, Locked)
    case InsertRows(worker, sales) =>
      var w := s.works[worker];
      WithPhase(s, worker, Inserted(InsertedRows(sales, s.events, w.company, w.today), |s.events|))
    case UpdateSums(worker, campaign) =>
      var w := s.works[worker];
      var rows := AttributedRows(UpdatedRows(w.phase.staged, s.events, w.company, w.today), campaign);
      WithPhase(s, worker, Updated(rows, w.phase.covered, |s.events|))
    case Commit(worker) =>
      var w := s.works[worker];
      WithPhase(s, worker, Ended(true)).(
        facts := Replaced(s.facts, w.phase.staged, w.company, w.today),
        last := s.last[w.company := Refresh(w.phase.covered, w.phase.summed, w.today)])
    case Abort(worker) => WithPhase(s, worker, Ended(false))
    case Book(worker) =>
      var w := s.works[worker];
      s.(works := s.works - {worker},
         jobs := if w.job.Some? && w.job.value in s.jobs then s.jobs[w.job.value := Booked(s.jobs[w.job.value], w.phase.ok, s.now)] else s.jobs)
    case Stop(worker) => s.(works := s.works - {worker})
    case Retry(id) => s.(jobs := s.jobs[id := s.jobs[id].(status := JobPending, attempts := 0, availableAt := s.now)])
  }

  ghost predicate Steps(s: State, steps: seq<Step>, t: State)
    decreases |steps|
  {
    if steps == [] then s == t
    else Enabled(s, steps[0]) && Steps(Next(s, steps[0]), steps[1..], t)
  }

  ghost predicate Initial(s: State) { s.events == [] && s.jobs == map[] && s.works == map[] && s.last == map[] }

  // ---------------------------------------------------------------- coverage

  /** How many events, in commit order, the company's last committed refresh took in. */
  function Covered(s: State, company: int): nat { if company in s.last then s.last[company].covered else 0 }

  predicate JobOk(s: State, id: nat)
    requires id in s.jobs
  {
    id < |s.events| && (s.jobs[id].status == JobSucceeded ==> id < Covered(s, s.events[id].company))
  }

  predicate WorkOk(s: State, w: Work) {
    && w.seen <= |s.events|
    && (w.job.Some? ==> w.job.value in s.jobs && w.job.value < w.seen && s.events[w.job.value].company == w.company)
    && match w.phase
       case Begun => true
       case Locked => true
       case Inserted(_, covered) => w.seen <= covered <= |s.events| && Covered(s, w.company) <= covered
       case Updated(_, covered, summed) => w.seen <= covered <= summed <= |s.events| && Covered(s, w.company) <= covered
       case Ended(ok) => ok ==> w.seen <= Covered(s, w.company)
  }

  ghost predicate LockExclusive(s: State) {
    forall v, w :: HasLock(s, v) && HasLock(s, w) && v != w ==> s.works[v].company != s.works[w].company
  }

  ghost predicate CoverageOk(s: State) {
    && (forall id :: id in s.jobs ==> JobOk(s, id))
    && (forall w :: w in s.works ==> WorkOk(s, s.works[w]))
    && (forall c :: c in s.last ==> s.last[c].covered <= s.last[c].summed <= |s.events|)
    && LockExclusive(s)
  }

  lemma StepCovered(s: State, step: Step, company: int)
    requires CoverageOk(s) && Enabled(s, step)
    ensures Covered(s, company) <= Covered(Next(s, step), company)
    ensures step.Commit? && s.works[step.worker].company == company
      ==> Covered(Next(s, step), company) >= s.works[step.worker].seen
  {
    if step.Commit? { assert WorkOk(s, s.works[step.worker]); }
  }

  lemma StepKeepsJob(s: State, step: Step, id: nat)
    requires CoverageOk(s) && Enabled(s, step) && id in Next(s, step).jobs
    ensures JobOk(Next(s, step), id)
  {
    if id in s.jobs {
      assert JobOk(s, id);
      StepCovered(s, step, s.events[id].company);
      if step.Book? { assert WorkOk(s, s.works[step.worker]); }
    }
  }

  lemma CommitKeepsWork(s: State, worker: int, w: int)
    requires CoverageOk(s) && Enabled(s, Commit(worker)) && w in s.works
    ensures w in Next(s, Commit(worker)).works && WorkOk(Next(s, Commit(worker)), Next(s, Commit(worker)).works[w])
  {
    assert WorkOk(s, s.works[w]) && WorkOk(s, s.works[worker]);
    assert HasLock(s, worker);
    assert w != worker && HasLock(s, w) ==> s.works[w].company != s.works[worker].company;
  }

  /** A work the step leaves alone stays right as tables grow. */
  lemma WorkCarries(s: State, t: State, work: Work)
    requires WorkOk(s, work) && s.events <= t.events && s.jobs.Keys <= t.jobs.Keys
    requires Covered(s, work.company) == Covered(t, work.company)
    ensures WorkOk(t, work)
  {}

  lemma TablesGrow(s: State, step: Step)
    requires Enabled(s, step)
    ensures s.events <= Next(s, step).events && s.jobs.Keys <= Next(s, step).jobs.Keys
    ensures !step.Commit? ==> Next(s, step).last == s.last
  {}

  lemma BegunWorkOk(s: State, step: Step)
    requires Enabled(s, step) && (step.ClaimJob? || step.BeginManual?)
    requires step.ClaimJob? ==> step.id in s.jobs && JobOk(s, step.id)
    ensures WorkOk(Next(s, step), Next(s, step).works[step.worker])
  {}

  lemma AdvancedWorkOk(s: State, step: Step)
    requires Enabled(s, step) && (step.Lock? || step.InsertRows? || step.UpdateSums? || step.Abort?)
    requires WorkOk(s, s.works[step.worker]) && Covered(s, s.works[step.worker].company) <= |s.events|
    ensures WorkOk(Next(s, step), Next(s, step).works[step.worker])
  {}

  predicate Touches(step: Step, w: int) {
    match step
    case ClaimJob(worker, _, _) => worker == w
    case BeginManual(worker, _, _) => worker == w
    case Lock(worker) => worker == w
    case InsertRows(worker, _) => worker == w
    case UpdateSums(worker, _) => worker == w
    case Abort(worker) => worker == w
    case _ => false
  }

  lemma OthersUntouched(s: State, step: Step, w: int)
    requires Enabled(s, step) && w in Next(s, step).works && !Touches(step, w) && !step.Commit?
    ensures w in s.works && Next(s, step).works[w] == s.works[w]
  {}

  lemma StepKeepsWork(s: State, step: Step, w: int)
    requires CoverageOk(s) && Enabled(s, step) && w in Next(s, step).works
    ensures WorkOk(Next(s, step), Next(s, step).works[w])
  {
    if step.Commit? {
      CommitKeepsWork(s, step.worker, w);
    } else if !Touches(step, w) {
      TablesGrow(s, step);
      OthersUntouched(s, step, w);
      WorkCarries(s, Next(s, step), s.works[w]);
    } else if step.ClaimJob? || step.BeginManual? {
      if step.ClaimJob? { assert JobOk(s, step.id); }
      BegunWorkOk(s, step);
    } else {
      assert WorkOk(s, s.works[w]);
      AdvancedWorkOk(s, step);
    }
  }

  lemma StepKeepsLocks(s: State, step: Step)
    requires CoverageOk(s) && Enabled(s, step)
    ensures LockExclusive(Next(s, step))
  {
    var t := Next(s, step);
    forall v, w | HasLock(t, v) && HasLock(t, w) && v != w ensures t.works[v].company != t.works[w].company {
      assert HasLock(s, v) || step == Lock(v);
      assert HasLock(s, w) || step == Lock(w);
    }
  }

  lemma StepKeepsCoverage(s: State, step: Step)
    requires CoverageOk(s) && Enabled(s, step)
    ensures CoverageOk(Next(s, step))
  {
    var t := Next(s, step);
    forall id | id in t.jobs ensures JobOk(t, id) { StepKeepsJob(s, step, id); }
    forall w | w in t.works ensures WorkOk(t, t.works[w]) { StepKeepsWork(s, step, w); }
    StepKeepsLocks(s, step);
    if step.Commit? { assert WorkOk(s, s.works[step.worker]); }
  }

  /** With any number of workers, manual refreshes, failures, crashes and retries: an
      event announced by a job is in the last committed refresh of its company, or
      its job has not succeeded; and what is covered stays covered. */
  lemma {:induction false} CoveredUnlessUnfinished(s: State, steps: seq<Step>, t: State)
    requires CoverageOk(s) && Steps(s, steps, t)
    ensures CoverageOk(t)
    ensures forall id :: id in t.jobs ==> id < |t.events| && (id < Covered(t, t.events[id].company) || t.jobs[id].status != JobSucceeded)
    ensures forall c :: Covered(s, c) <= Covered(t, c)
    decreases |steps|
  {
    if steps != [] {
      StepKeepsCoverage(s, steps[0]);
      CoveredUnlessUnfinished(Next(s, steps[0]), steps[1..], t);
      forall c ensures Covered(s, c) <= Covered(t, c) { StepCovered(s, steps[0], c); }
    } else {
      forall id | id in t.jobs ensures id < |t.events| && (id < Covered(t, t.events[id].company) || t.jobs[id].status != JobSucceeded) {
        assert JobOk(t, id);
      }
    }
  }

  predicate Announced(s: State, id: nat) { id in s.jobs }

  /** Events written by the canonical path have a job from the moment they are
      committed; events written directly have none, now or later. */
  lemma {:induction false} DirectEventsHaveNoJob(s: State, steps: seq<Step>, t: State, id: nat)
    requires Steps(s, steps, t) && id < |s.events|
    ensures id < |t.events| && t.events[id] == s.events[id]
    ensures Announced(t, id) <==> Announced(s, id)
    decreases |steps|
  {
    if steps != [] {
      DirectEventsHaveNoJob(Next(s, steps[0]), steps[1..], t, id);
    }
  }

  lemma AppendAnnounces(s: State, e: CustomerEvent)
    requires CoverageOk(s)
    ensures var t := Next(s, Append(e));
      if KeyTaken(s.events, e) then t == s
      else t.events == s.events + [e] && Announced(t, |s.events|) && t.jobs[|s.events|].status == JobPending
    ensures var t := Next(s, AppendDirect(e)); !KeyTaken(s.events, e) ==> t.events == s.events + [e] && !Announced(t, |s.events|)
  {
    assert forall id :: id in s.jobs ==> JobOk(s, id);
  }

  /** The next refresh of the company that begins after an event and commits covers
      it, whether or not the event had a job. */
  lemma NextRefreshCovers(s: State, steps: seq<Step>, t: State, worker: int, id: nat)
    requires CoverageOk(s) && Steps(s, steps, t) && id < |s.events|
    requires worker in t.works && t.works[worker].company == s.events[id].company
    requires t.works[worker].seen >= |s.events| && Enabled(t, Commit(worker))
    ensures id < Covered(Next(t, Commit(worker)), s.events[id].company)
  {
    CoveredUnlessUnfinished(s, steps, t);
    StepCovered(t, Commit(worker), s.events[id].company);
  }

  lemma InitialOk(s: State)
    requires Initial(s)
    ensures CoverageOk(s)
  {}

  /** The same from an empty table, for one announced event. */
  lemma CoveredFromStart(s: State, steps: seq<Step>, t: State, id: nat)
    requires Initial(s) && Steps(s, steps, t) && id in t.jobs
    ensures id < |t.events| && (id < Covered(t, t.events[id].company) || t.jobs[id].status != JobSucceeded)
  {
    InitialOk(s);
    CoveredUnlessUnfinished(s, steps, t);
  }
}
