/** What the fact rows say: each group of covered events has a row, and its event
    columns are those recomputed from the events the summing statement saw. */
module AnalyticsCoherence {
  import opened Prelude
  import opened AnalyticsProjection

  /** `facts` has a matching row for each group among the first `covered` events. */
  ghost predicate Coherent(facts: map<Group, Fact>, events: seq<CustomerEvent>, company: int, r: Refresh)
    requires r.covered <= |events| && r.summed <= |events|
  {
    forall g :: g in EventGroups(events[..r.covered], company, r.today) ==> g in facts && Matches(facts[g], events[..r.summed], g)
  }

  ghost predicate StagedOk(s: State, w: Work)
    requires WorkOk(s, w)
  {
    match w.phase
    case Inserted(staged, covered) =>
      && (forall g :: g in staged ==> InWindow(g, w.company, w.today))
      && (forall g :: g in EventGroups(s.events[..covered], w.company, w.today) ==> g in staged)
    case Updated(staged, covered, summed) =>
      && (forall g :: g in staged ==> InWindow(g, w.company, w.today))
      && Coherent(staged, s.events, w.company, Refresh(covered, summed, w.today))
    case _ => true
  }

  ghost predicate FactsOk(s: State)
    requires CoverageOk(s)
  {
    && (forall w :: w in s.works ==> StagedOk(s, s.works[w]))
    && (forall c :: c in s.last ==> Coherent(s.facts, s.events, c, s.last[c]))
  }

  ghost predicate ProjectionOk(s: State) { CoverageOk(s) && FactsOk(s) }

  lemma GroupsGrow(a: seq<CustomerEvent>, b: seq<CustomerEvent>, company: int, today: Day, g: Group)
    requires a <= b && g in EventGroups(a, company, today)
    ensures g in EventGroups(b, company, today)
  {
    var i :| 0 <= i < |a| && InWindow(GroupOf(a[i]), company, today) && GroupOf(a[i]) == g;
    assert b[i] == a[i];
  }

  lemma InsertedCoversGroups(sales: map<Group, Fact>, events: seq<CustomerEvent>, company: int, today: Day, g: Group)
    requires g in EventGroups(events, company, today)
    ensures g in InsertedRows(sales, events, company, today)
  {}

  lemma InsertedInWindow(sales: map<Group, Fact>, events: seq<CustomerEvent>, company: int, today: Day, g: Group)
    requires g in InsertedRows(sales, events, company, today)
    ensures InWindow(g, company, today)
  {
    if g in EventGroups(events, company, today) {
      var i :| 0 <= i < |events| && InWindow(GroupOf(events[i]), company, today) && GroupOf(events[i]) == g;
    }
  }

  lemma UpdatedIsCoherent(staged: map<Group, Fact>, events: seq<CustomerEvent>, company: int, today: Day, covered: nat)
    requires covered <= |events|
    requires forall g :: g in EventGroups(events[..covered], company, today) ==> g in staged
    ensures Coherent(UpdatedRows(staged, events, company, today), events, company, Refresh(covered, |events|, today))
  {
    var after := UpdatedRows(staged, events, company, today);
    assert events[..|events|] == events;
    forall g | g in EventGroups(events[..covered], company, today)
      ensures g in after && Matches(after[g], events[..|events|], g)
    {
      GroupsGrow(events[..covered], events, company, today, g);
    }
  }

  /** Attributing campaign revenue touches no column that events decide. */
  lemma AttributedKeepsCoherent(staged: map<Group, Fact>, campaign: map<Day, int>, events: seq<CustomerEvent>, company: int, r: Refresh)
    requires r.covered <= |events| && r.summed <= |events| && Coherent(staged, events, company, r)
    ensures Coherent(AttributedRows(staged, campaign), events, company, r)
  {
    var after := AttributedRows(staged, campaign);
    forall g | g in EventGroups(events[..r.covered], company, r.today)
      ensures g in after && Matches(after[g], events[..r.summed], g)
    {
      assert g in staged && Matches(staged[g], events[..r.summed], g);
    }
  }

  /** Another company's refresh replaces none of this company's rows. */
  lemma ReplacedKeepsOthers(facts: map<Group, Fact>, events: seq<CustomerEvent>, c: int, r: Refresh,
                            staged: map<Group, Fact>, company: int, today: Day)
    requires r.covered <= |events| && r.summed <= |events| && c != company
    requires Coherent(facts, events, c, r) && forall g :: g in staged ==> InWindow(g, company, today)
    ensures Coherent(Replaced(facts, staged, company, today), events, c, r)
  {
    forall g | g in EventGroups(events[..r.covered], c, r.today)
      ensures g in Replaced(facts, staged, company, today) && Replaced(facts, staged, company, today)[g] == facts[g]
    {
      var i :| 0 <= i < |events[..r.covered]| && InWindow(GroupOf(events[..r.covered][i]), c, r.today) && GroupOf(events[..r.covered][i]) == g;
    }
  }

  lemma ReplacedTakesStaged(facts: map<Group, Fact>, events: seq<CustomerEvent>, r: Refresh, staged: map<Group, Fact>, company: int)
    requires r.covered <= |events| && r.summed <= |events|
    requires Coherent(staged, events, company, r)
    ensures Coherent(Replaced(facts, staged, company, r.today), events, company, r)
  {
    var after := Replaced(facts, staged, company, r.today);
    forall g | g in EventGroups(events[..r.covered], company, r.today) ensures g in after && after[g] == staged[g] {}
  }

  lemma CoherentUnderAppend(facts: map<Group, Fact>, a: seq<CustomerEvent>, b: seq<CustomerEvent>, company: int, r: Refresh)
    requires a <= b && r.covered <= |a| && r.summed <= |a|
    ensures Coherent(facts, a, company, r) <==> Coherent(facts, b, company, r)
  {
    assert b[..r.covered] == a[..r.covered] && b[..r.summed] == a[..r.summed];
  }

  lemma StagedUnderAppend(s: State, t: State, w: Work)
    requires WorkOk(s, w) && WorkOk(t, w) && s.events <= t.events && StagedOk(s, w)
    ensures StagedOk(t, w)
  {
    match w.phase
    case Inserted(_, covered) => assert t.events[..covered] == s.events[..covered];
    case Updated(staged, covered, summed) => CoherentUnderAppend(staged, s.events, t.events, w.company, Refresh(covered, summed, w.today));
    case _ =>
  }

  lemma StepKeepsStaged(s: State, step: Step, w: int)
    requires ProjectionOk(s) && Enabled(s, step) && w in Next(s, step).works && CoverageOk(Next(s, step))
    ensures WorkOk(Next(s, step), Next(s, step).works[w]) && StagedOk(Next(s, step), Next(s, step).works[w])
  {
    var t := Next(s, step);
    assert WorkOk(t, t.works[w]);
    if step.InsertRows? && step.worker == w {
      var work := s.works[w];
      assert s.events[..|s.events|] == s.events;
      forall g | g in EventGroups(s.events, work.company, work.today) ensures g in t.works[w].phase.staged {
        InsertedCoversGroups(step.sales, s.events, work.company, work.today, g);
      }
      forall g | g in t.works[w].phase.staged ensures InWindow(g, work.company, work.today) {
        InsertedInWindow(step.sales, s.events, work.company, work.today, g);
      }
    } else if step.UpdateSums? && step.worker == w {
      var work := s.works[w];
      assert WorkOk(s, work) && StagedOk(s, work);
      UpdatedIsCoherent(work.phase.staged, s.events, work.company, work.today, work.phase.covered);
      AttributedKeepsCoherent(UpdatedRows(work.phase.staged, s.events, work.company, work.today), step.campaign, s.events,
                              work.company, Refresh(work.phase.covered, |s.events|, work.today));
    } else if w in s.works && t.works[w] == s.works[w] {
      assert WorkOk(s, s.works[w]) && StagedOk(s, s.works[w]);
      StagedUnderAppend(s, t, s.works[w]);
    }
  }

  lemma StepKeepsFacts(s: State, step: Step, c: int)
    requires ProjectionOk(s) && Enabled(s, step) && c in Next(s, step).last && CoverageOk(Next(s, step))
    ensures Coherent(Next(s, step).facts, Next(s, step).events, c, Next(s, step).last[c])
  {
    var t := Next(s, step);
    if step.Commit? {
      var work := s.works[step.worker];
      assert WorkOk(s, work) && StagedOk(s, work);
      if c == work.company {
        ReplacedTakesStaged(s.facts, s.events, t.last[c], work.phase.staged, c);
      } else {
        ReplacedKeepsOthers(s.facts, s.events, c, s.last[c], work.phase.staged, work.company, work.today);
      }
    } else {
      CoherentUnderAppend(s.facts, s.events, t.events, c, s.last[c]);
    }
  }

  lemma StepKeepsProjection(s: State, step: Step)
    requires ProjectionOk(s) && Enabled(s, step)
    ensures ProjectionOk(Next(s, step))
  {
    var t := Next(s, step);
    StepKeepsCoverage(s, step);
    forall w | w in t.works ensures StagedOk(t, t.works[w]) { StepKeepsStaged(s, step, w); }
    forall c | c in t.last ensures Coherent(t.facts, t.events, c, t.last[c]) { StepKeepsFacts(s, step, c); }
  }

  /** In every reachable state: an announced event whose job succeeded has a row for
      its day and branch, if the day was in the window, and the row's registrations
      and bonus sums are those of the events the last refresh summed, this one included. */
  lemma {:induction false} ProjectionCoherent(s: State, steps: seq<Step>, t: State)
    requires ProjectionOk(s) && Steps(s, steps, t)
    ensures ProjectionOk(t)
    decreases |steps|
  {
    if steps != [] {
      StepKeepsProjection(s, steps[0]);
      ProjectionCoherent(Next(s, steps[0]), steps[1..], t);
    }
  }

  lemma SucceededJobHasItsRow(s: State, steps: seq<Step>, t: State, id: nat)
    requires Initial(s) && Steps(s, steps, t)
    requires id in t.jobs && t.jobs[id].status == JobSucceeded
    ensures id < |t.events| && t.events[id].company in t.last
    ensures var g, r := GroupOf(t.events[id]), t.last[t.events[id].company];
      && id < r.covered <= r.summed <= |t.events|
      && (g.day >= r.today - 365 ==>
            && g in t.facts && t.facts[g].registrations == Tally(t.events[..r.summed], g, Registered)
            && t.facts[g].issued == AmountTally(t.events[..r.summed], g, BonusEarned)
            && t.facts[g].redeemed == AmountTally(t.events[..r.summed], g, BonusSpent))
  {
    ProjectionCoherent(s, steps, t);
    assert JobOk(t, id);
    var c := t.events[id].company;
    var g, r := GroupOf(t.events[id]), t.last[c];
    if g.day >= r.today - WINDOW_DAYS {
      assert t.events[..r.covered][id] == t.events[id];
      assert g in EventGroups(t.events[..r.covered], c, r.today);
    }
  }
}
