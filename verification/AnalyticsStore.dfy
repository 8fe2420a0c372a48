/** One worker's pass over the projection jobs, and the refresh it runs. */
module AnalyticsStore {
  import opened Backoff
  import opened Prelude
  import opened AnalyticsProjection
  import opened AnalyticsCoherence
  import opened AnalyticsRefresh

  function Started(j: Job): Job { j.(status := JobProcessing, attempts := j.attempts + 1) }

  /** The job the claim statement picks: the one available longest among those due. */
  predicate Picked(s: State, id: nat) {
    Due(s, id) && forall other :: other in s.jobs && Due(s, other) ==> s.jobs[id].availableAt <= s.jobs[other].availableAt
  }

  /** The state after one round of the loop that left these fact rows, or failed. */
  ghost function RoundWith(s: State, id: nat, ok: bool, facts: map<Group, Fact>, today: Day): State
    requires id in s.jobs && id < |s.events|
  {
    var c := s.events[id].company;
    var done := s.(jobs := s.jobs[id := Booked(Started(s.jobs[id]), ok, s.now)]);
    if ok then done.(facts := facts, last := s.last[c := Refresh(|s.events|, |s.events|, today)]) else done
  }

  ghost function Round(s: State, id: nat, ok: bool, figures: Figures, today: Day): State
    requires id in s.jobs && id < |s.events|
  {
    RoundWith(s, id, ok, Rebuilt(s.facts, figures, s.events, s.events[id].company, today), today)
  }

  function RoundSteps(w: int, id: nat, ok: bool, figures: Figures, today: Day): seq<Step> {
    if ok then [ClaimJob(w, id, today), Lock(w), InsertRows(w, figures.rows), UpdateSums(w, figures.campaign), Commit(w), Book(w)]
    else [ClaimJob(w, id, today), Abort(w), Book(w)]
  }

  lemma StepFirst(s: State, step: Step, rest: seq<Step>, t: State)
    requires Enabled(s, step) && Steps(Next(s, step), rest, t)
    ensures Steps(s, [step] + rest, t)
  {
    assert ([step] + rest)[1..] == rest;
  }

  lemma ClaimedState(s: State, w: int, id: nat, today: Day)
    requires s.works == map[] && Picked(s, id) && id < |s.events|
    ensures Enabled(s, ClaimJob(w, id, today))
    ensures Next(s, ClaimJob(w, id, today))
         == s.(jobs := s.jobs[id := Started(s.jobs[id])],
               works := map[w := Work(s.events[id].company, today, Some(id), |s.events|, Begun)])
  {}

  lemma BookedState(s: State, w: int, id: nat, ok: bool)
    requires s.works.Keys == {w} && s.works[w].phase == Ended(ok) && s.works[w].job == Some(id) && id in s.jobs
    ensures Enabled(s, Book(w))
    ensures Next(s, Book(w)) == s.(jobs := s.jobs[id := Booked(s.jobs[id], ok, s.now)], works := map[])
  {}

  lemma FailedRoundRuns(s: State, w: int, id: nat, figures: Figures, today: Day)
    requires s.works == map[] && Picked(s, id) && id < |s.events|
    ensures Steps(s, RoundSteps(w, id, false, figures, today), Round(s, id, false, figures, today))
  {
    ClaimedState(s, w, id, today);
    var s1 := Next(s, ClaimJob(w, id, today));
    var s2 := Next(s1, Abort(w));
    BookedState(s2, w, id, false);
    var s3 := Next(s2, Book(w));
    assert s3 == Round(s, id, false, figures, today) by {
      assert s.jobs[id := Started(s.jobs[id])][id := Booked(Started(s.jobs[id]), false, s.now)]
          == s.jobs[id := Booked(Started(s.jobs[id]), false, s.now)];
    }
    assert Steps(s3, [], s3);
    StepFirst(s2, Book(w), [], s3);
    StepFirst(s1, Abort(w), [Book(w)], s3);
    StepFirst(s, ClaimJob(w, id, today), [Abort(w), Book(w)], s3);
  }

  ghost function Alone(s: State, w: int, work: Work, phase: Phase): State { s.(works := map[w := work.(phase := phase)]) }

  predicate OnlyWork(s: State, w: int, work: Work) { s.works == map[w := work] }

  lemma LockAlone(s: State, w: int, work: Work)
    requires OnlyWork(s, w, work) && work.phase == Begun
    ensures Enabled(s, Lock(w)) && Next(s, Lock(w)) == Alone(s, w, work, Locked)
  {}

  lemma InsertAlone(s: State, w: int, work: Work, figures: Figures)
    requires OnlyWork(s, w, work) && work.phase == Locked
    ensures Enabled(s, InsertRows(w, figures.rows))
    ensures Next(s, InsertRows(w, figures.rows))
         == Alone(s, w, work, Inserted(InsertedRows(figures.rows, s.events, work.company, work.today), |s.events|))
  {}

  function Summed(s: State, work: Work, figures: Figures): map<Group, Fact>
    requires work.phase.Inserted?
  {
    AttributedRows(UpdatedRows(work.phase.staged, s.events, work.company, work.today), figures.campaign)
  }

  lemma UpdateAlone(s: State, w: int, work: Work, figures: Figures)
    requires OnlyWork(s, w, work) && work.phase.Inserted?
    ensures Enabled(s, UpdateSums(w, figures.campaign))
    ensures Next(s, UpdateSums(w, figures.campaign)) == Alone(s, w, work, Updated(Summed(s, work, figures), work.phase.covered, |s.events|))
  {
    var next := Next(s, UpdateSums(w, figures.campaign));
    assert next == WithPhase(s, w, Updated(Summed(s, work, figures), work.phase.covered, |s.events|));
  }

  lemma CommitAlone(s: State, w: int, work: Work)
    requires OnlyWork(s, w, work) && work.phase.Updated?
    ensures Enabled(s, Commit(w))
    ensures Next(s, Commit(w))
         == Alone(s, w, work, Ended(true)).(
              facts := Replaced(s.facts, work.phase.staged, work.company, work.today),
              last := s.last[work.company := Refresh(work.phase.covered, work.phase.summed, work.today)])
  {}

  lemma FirstHalfRuns(s: State, w: int, work: Work, figures: Figures)
    requires OnlyWork(s, w, work) && work.phase == Begun
    ensures Steps(s, [Lock(w), InsertRows(w, figures.rows)],
      Alone(s, w, work, Inserted(InsertedRows(figures.rows, s.events, work.company, work.today), |s.events|)))
  {
    var s1, held := Alone(s, w, work, Locked), work.(phase := Locked);
    LockAlone(s, w, work);
    InsertAlone(s1, w, held, figures);
    var s2 := Next(s1, InsertRows(w, figures.rows));
    assert s2 == Alone(s, w, work, Inserted(InsertedRows(figures.rows, s.events, work.company, work.today), |s.events|));
    StepFirst(s1, InsertRows(w, figures.rows), [], s2);
    StepFirst(s, Lock(w), [InsertRows(w, figures.rows)], s2);
  }

  lemma SecondHalfRuns(s: State, w: int, work: Work, figures: Figures)
    requires OnlyWork(s, w, work) && work.phase.Inserted?
    ensures var rows := Summed(s, work, figures);
      Steps(s, [UpdateSums(w, figures.campaign), Commit(w)],
        Alone(s, w, work, Ended(true)).(
          facts := Replaced(s.facts, rows, work.company, work.today),
          last := s.last[work.company := Refresh(work.phase.covered, |s.events|, work.today)]))
  {
    var rows := Summed(s, work, figures);
    var summed := Updated(rows, work.phase.covered, |s.events|);
    var s1 := Alone(s, w, work, summed);
    UpdateAlone(s, w, work, figures);
    CommitAlone(s1, w, work.(phase := summed));
    var s2 := Next(s1, Commit(w));
    assert s2.works == Alone(s, w, work, Ended(true)).works;
    StepFirst(s1, Commit(w), [], s2);
    StepFirst(s, UpdateSums(w, figures.campaign), [Commit(w)], s2);
  }

  /** A worker alone between its lock and its commit. */
  lemma RefreshRuns(s: State, w: int, work: Work, figures: Figures)
    requires OnlyWork(s, w, work) && work.phase == Begun
    ensures var c, today := work.company, work.today;
      Steps(s, [Lock(w), InsertRows(w, figures.rows)] + [UpdateSums(w, figures.campaign), Commit(w)],
        Alone(s, w, work, Ended(true)).(
          facts := Rebuilt(s.facts, figures, s.events, c, today), last := s.last[c := Refresh(|s.events|, |s.events|, today)]))
  {
    var inserted := Inserted(InsertedRows(figures.rows, s.events, work.company, work.today), |s.events|);
    var mid := Alone(s, w, work, inserted);
    FirstHalfRuns(s, w, work, figures);
    SecondHalfRuns(mid, w, work.(phase := inserted), figures);
    var end := Alone(s, w, work, Ended(true)).(
      facts := Rebuilt(s.facts, figures, s.events, work.company, work.today),
      last := s.last[work.company := Refresh(|s.events|, |s.events|, work.today)]);
    Joined(s, [Lock(w), InsertRows(w, figures.rows)], mid, [UpdateSums(w, figures.campaign), Commit(w)], end);
  }

  lemma {:induction false} Joined(s: State, first: seq<Step>, mid: State, second: seq<Step>, t: State)
    requires Steps(s, first, mid) && Steps(mid, second, t)
    ensures Steps(s, first + second, t)
    decreases |first|
  {
    if first == [] {
      assert first + second == second;
    } else {
      Joined(Next(s, first[0]), first[1..], mid, second, t);
      assert (first + second)[1..] == first[1..] + second;
    }
  }

  ghost function Refreshed(s: State, w: int, id: nat, facts: map<Group, Fact>, today: Day): State
    requires id in s.jobs && id < |s.events|
  {
    var c := s.events[id].company;
    State(s.now, s.events, s.jobs[id := Started(s.jobs[id])], facts,
          map[w := Work(c, today, Some(id), |s.events|, Ended(true))], s.last[c := Refresh(|s.events|, |s.events|, today)])
  }

  lemma ClaimAndRefreshRuns(s: State, w: int, id: nat, figures: Figures, today: Day)
    requires s.works == map[] && Picked(s, id) && id < |s.events|
    ensures Steps(s, [ClaimJob(w, id, today)] + ([Lock(w), InsertRows(w, figures.rows)] + [UpdateSums(w, figures.campaign), Commit(w)]),
                  Refreshed(s, w, id, Rebuilt(s.facts, figures, s.events, s.events[id].company, today), today))
  {
    ClaimedState(s, w, id, today);
    var s1 := Next(s, ClaimJob(w, id, today));
    RefreshRuns(s1, w, Work(s.events[id].company, today, Some(id), |s.events|, Begun), figures);
    StepFirst(s, ClaimJob(w, id, today), [Lock(w), InsertRows(w, figures.rows)] + [UpdateSums(w, figures.campaign), Commit(w)],
              Refreshed(s, w, id, Rebuilt(s.facts, figures, s.events, s.events[id].company, today), today));
  }

  lemma RefreshedIsBooked(s: State, w: int, id: nat, facts: map<Group, Fact>, today: Day)
    requires s.works == map[] && id in s.jobs && id < |s.events|
    ensures var r := Refreshed(s, w, id, facts, today);
      Enabled(r, Book(w)) && Next(r, Book(w)) == RoundWith(s, id, true, facts, today)
  {
    BookedState(Refreshed(s, w, id, facts, today), w, id, true);
    assert s.jobs[id := Started(s.jobs[id])][id := Booked(Started(s.jobs[id]), true, s.now)]
        == s.jobs[id := Booked(Started(s.jobs[id]), true, s.now)];
  }

  lemma ThenBooked(s: State, w: int, id: nat, facts: map<Group, Fact>, today: Day, first: seq<Step>)
    requires s.works == map[] && id in s.jobs && id < |s.events|
    requires Steps(s, first, Refreshed(s, w, id, facts, today))
    ensures Steps(s, first + [Book(w)], RoundWith(s, id, true, facts, today))
  {
    var r, end := Refreshed(s, w, id, facts, today), RoundWith(s, id, true, facts, today);
    RefreshedIsBooked(s, w, id, facts, today);
    assert Steps(end, [], end);
    StepFirst(r, Book(w), [], end);
    Joined(s, first, r, [Book(w)], end);
  }

  lemma GoodRoundSteps(w: int, id: nat, figures: Figures, today: Day)
    ensures [ClaimJob(w, id, today)] + ([Lock(w), InsertRows(w, figures.rows)] + [UpdateSums(w, figures.campaign), Commit(w)]) + [Book(w)]
         == RoundSteps(w, id, true, figures, today)
  {}

  lemma GoodRoundRuns(s: State, w: int, id: nat, figures: Figures, today: Day)
    requires s.works == map[] && Picked(s, id) && id < |s.events|
    ensures Steps(s, RoundSteps(w, id, true, figures, today), Round(s, id, true, figures, today))
  {
    var first := [ClaimJob(w, id, today)] + ([Lock(w), InsertRows(w, figures.rows)] + [UpdateSums(w, figures.campaign), Commit(w)]);
    ClaimAndRefreshRuns(s, w, id, figures, today);
    ThenBooked(s, w, id, Rebuilt(s.facts, figures, s.events, s.events[id].company, today), today, first);
    GoodRoundSteps(w, id, figures, today);
  }

  lemma RoundRuns(s: State, w: int, id: nat, ok: bool, figures: Figures, today: Day)
    requires s.works == map[] && Picked(s, id) && CoverageOk(s)
    ensures id < |s.events|
    ensures Steps(s, RoundSteps(w, id, ok, figures, today), Round(s, id, ok, figures, today))
    ensures CoverageOk(Round(s, id, ok, figures, today))
  {
    assert JobOk(s, id);
    if ok { GoodRoundRuns(s, w, id, figures, today); } else { FailedRoundRuns(s, w, id, figures, today); }
    CoveredUnlessUnfinished(s, RoundSteps(w, id, ok, figures, today), Round(s, id, ok, figures, today));
  }

  /** After a refresh the company's rows match all events committed before it. */
  lemma RebuiltIsCoherent(facts: map<Group, Fact>, figures: Figures, events: seq<CustomerEvent>, company: int, today: Day)
    ensures Coherent(Rebuilt(facts, figures, events, company, today), events, company, Refresh(|events|, |events|, today))
  {
    var inserted := InsertedRows(figures.rows, events, company, today);
    var r := Refresh(|events|, |events|, today);
    assert events[..|events|] == events;
    forall g | g in EventGroups(events, company, today) ensures g in inserted {
      InsertedCoversGroups(figures.rows, events, company, today, g);
    }
    UpdatedIsCoherent(inserted, events, company, today, |events|);
    AttributedKeepsCoherent(UpdatedRows(inserted, events, company, today), figures.campaign, events, company, r);
    ReplacedTakesStaged(facts, events, r, AttributedRows(UpdatedRows(inserted, events, company, today), figures.campaign), company);
  }

  lemma RebuiltKeepsOthers(facts: map<Group, Fact>, figures: Figures, events: seq<CustomerEvent>, company: int, today: Day)
    ensures var after := Rebuilt(facts, figures, events, company, today);
      forall g :: !InWindow(g, company, today) ==> (g in after <==> g in facts) && (g in after ==> after[g] == facts[g])
  {
    InsertedWindowed(figures.rows, events, company, today);
  }

  class Store {
    var now: Moment
    var today: Day
    var events: seq<CustomerEvent>
    var jobs: map<nat, Job>
    var facts: map<Group, Fact>
    ghost var last: map<int, Refresh>

    constructor (now: Moment, today: Day)
      ensures Initial(AsState()) && facts == map[] && this.now == now && this.today == today
    {
      this.now, this.today := now, today;
      events, jobs, facts, last := [], map[], map[], map[];
    }

    /** The store, with no other worker under way, as a state of the protocol. */
    ghost function AsState(): State
      reads this
    {
      State(now, events, jobs, facts, map[], last)
    }

    method AppendCustomerEvent(e: CustomerEvent)
      modifies this`events, this`jobs
      ensures AsState() == Next(old(AsState()), Append(e))
    {
      var taken := e.key.Some? && exists i :: 0 <= i < |events| && events[i].company == e.company && events[i].key == e.key;
      if !taken {
        jobs := jobs[|events| := Job(JobPending, 0, DEFAULT_MAX_ATTEMPTS, now)];
        events := events + [e];
      }
    }

    /** Delete, insert, update and commit, one transaction: the company's groups of
        events match the events, and no other company's row changes. */
    method RefreshAnalyticsCompany(company: int, figures: Figures)
      modifies this`facts, this`last
      ensures facts == Rebuilt(old(facts), figures, events, company, today)
      ensures last == old(last)[company := Refresh(|events|, |events|, today)]
      ensures Coherent(facts, events, company, last[company])
      ensures forall g :: !InWindow(g, company, today) ==>
        (g in facts <==> g in old(facts)) && (g in facts ==> facts[g] == old(facts)[g])
    {
      RebuiltIsCoherent(facts, figures, events, company, today);
      RebuiltKeepsOthers(facts, figures, events, company, today);
      facts := RunStatements(facts, figures, events, company, today);
      last := last[company := Refresh(|events|, |events|, today)];
    }

    /** At most ten rounds; `breaks` says which refreshes the database refuses. The
        pass is a run of the protocol, keeps the projection coherent, and stops short
        only when nothing is due. */
    method ProcessAnalyticsJobs(worker: int, breaks: seq<bool>, figures: seq<Figures>)
      returns (rounds: nat, ghost trace: seq<Step>)
      requires |breaks| == |figures| == 10 && ProjectionOk(AsState())
      modifies this`jobs, this`facts, this`last
      ensures Steps(old(AsState()), trace, AsState()) && ProjectionOk(AsState())
      ensures rounds <= 10 && (rounds < 10 ==> forall id :: id in jobs ==> !Due(AsState(), id))
    {
      rounds, trace := 0, [];
      ghost var start := AsState();
      while rounds < 10
        invariant rounds <= 10 && events == old(events) && now == old(now)
        invariant Steps(start, trace, AsState()) && CoverageOk(AsState())
      {
        ghost var s := AsState();
        var found := AnyDue();
        if !found { break; }
        var id := OldestDue();
        RoundRuns(s, worker, id, !breaks[rounds], figures[rounds], today);
        RunJob(id, !breaks[rounds], figures[rounds]);
        assert AsState() == Round(s, id, !breaks[rounds], figures[rounds], today);
        Joined(start, trace, s, RoundSteps(worker, id, !breaks[rounds], figures[rounds], today), AsState());
        trace := trace + RoundSteps(worker, id, !breaks[rounds], figures[rounds], today);
        rounds := rounds + 1;
      }
      ProjectionCoherent(start, trace, AsState());
    }

    /** Claim, refresh, and write the outcome back. */
    method RunJob(id: nat, ok: bool, figures: Figures)
      requires id in jobs && id < |events|
      modifies this`jobs, this`facts, this`last
      ensures jobs == old(jobs)[id := Booked(Started(old(jobs)[id]), ok, now)]
      ensures facts == if ok then Rebuilt(old(facts), figures, events, events[id].company, today) else old(facts)
      ensures last == if ok then old(last)[events[id].company := Refresh(|events|, |events|, today)] else old(last)
    {
      jobs := jobs[id := Started(jobs[id])];
      if ok {
        RefreshAnalyticsCompany(events[id].company, figures);
      }
      jobs := jobs[id := Booked(jobs[id], ok, now)];
    }

    method AnyDue() returns (found: bool)
      ensures found <==> exists id :: id in jobs && Due(AsState(), id)
    {
      found := exists id :: id in jobs && (jobs[id].status == JobPending || jobs[id].status == JobFailed) && jobs[id].availableAt <= now;
      if id :| id in jobs && (jobs[id].status == JobPending || jobs[id].status == JobFailed) && jobs[id].availableAt <= now {
        assert Due(AsState(), id);
      }
    }

    /** ORDER BY available_at LIMIT 1. */
    method OldestDue() returns (id: nat)
      requires exists id :: id in jobs && Due(AsState(), id)
      ensures Picked(AsState(), id)
    {
      var rest := jobs.Keys;
      id :| id in jobs && (jobs[id].status == JobPending || jobs[id].status == JobFailed) && jobs[id].availableAt <= now;
      assert Due(AsState(), id);
      while rest != {}
        invariant rest <= jobs.Keys && Due(AsState(), id)
        invariant forall other :: other in jobs.Keys - rest && Due(AsState(), other) ==> jobs[id].availableAt <= jobs[other].availableAt
        decreases |rest|
      {
        var other :| other in rest;
        if (jobs[other].status == JobPending || jobs[other].status == JobFailed) && jobs[other].availableAt <= now
          && jobs[other].availableAt < jobs[id].availableAt
        {
          id := other;
        }
        rest := rest - {other};
      }
    }

    method IntegrationJobRetry(id: nat) returns (ok: bool)
      modifies this`jobs
      ensures ok <==> Enabled(old(AsState()), Retry(id))
      ensures AsState() == if ok then Next(old(AsState()), Retry(id)) else old(AsState())
    {
      ok := id in jobs && (jobs[id].status == JobFailed || jobs[id].status == JobDead);
      if ok { jobs := jobs[id := jobs[id].(status := JobPending, attempts := 0, availableAt := now)]; }
    }
  }
}
