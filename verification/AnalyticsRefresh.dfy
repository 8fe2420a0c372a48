/** The statements of a refresh, each as a loop over the rows it touches. The fact
    table is the rows it keeps and the rows it stages for the company's window. */
module AnalyticsRefresh {
  import opened Prelude
  import opened AnalyticsProjection

  /** What the other tables hold: the rows computed from transactions, and campaign
      revenue by day. */
  datatype Figures = Figures(rows: map<Group, Fact>, campaign: map<Day, int>)

  /** The rows a whole refresh leaves, run with nothing committed in between. */
  function Rebuilt(facts: map<Group, Fact>, figures: Figures, events: seq<CustomerEvent>, company: int, today: Day): map<Group, Fact> {
    var inserted := InsertedRows(figures.rows, events, company, today);
    Replaced(facts, AttributedRows(UpdatedRows(inserted, events, company, today), figures.campaign), company, today)
  }

  function Kept(facts: map<Group, Fact>, company: int, today: Day): map<Group, Fact> {
    map g | g in facts && !InWindow(g, company, today) :: facts[g]
  }

  function SalesPart(rows: map<Group, Fact>, company: int, today: Day): map<Group, Fact> {
    map g | g in rows && InWindow(g, company, today) :: rows[g]
  }

  predicate Windowed(staged: map<Group, Fact>, company: int, today: Day) { forall g :: g in staged ==> InWindow(g, company, today) }

  /** DELETE of the window. */
  method DeleteWindow(facts: map<Group, Fact>, company: int, today: Day) returns (left: map<Group, Fact>)
    ensures left == Kept(facts, company, today)
  {
    left := facts;
    var rest := facts.Keys;
    while rest != {}
      invariant rest <= facts.Keys
      invariant forall g :: g in left <==> g in facts && (g in rest || !InWindow(g, company, today))
      invariant forall g :: g in left ==> left[g] == facts[g]
      decreases |rest|
    {
      var g :| g in rest;
      if InWindow(g, company, today) { left := left - {g}; }
      rest := rest - {g};
    }
  }

  /** INSERT of the rows from transactions. */
  method InsertSales(table: map<Group, Fact>, rows: map<Group, Fact>, company: int, today: Day) returns (table': map<Group, Fact>)
    ensures table' == table + SalesPart(rows, company, today)
  {
    table' := table;
    var rest := rows.Keys;
    while rest != {}
      invariant rest <= rows.Keys
      invariant forall g :: g in table' <==> g in table || (g in rows && g !in rest && InWindow(g, company, today))
      invariant forall g :: g in table' ==>
        table'[g] == if g in rows && g !in rest && InWindow(g, company, today) then rows[g] else table[g]
      decreases |rest|
    {
      var g :| g in rest;
      if InWindow(g, company, today) { table' := table'[g := rows[g]]; }
      rest := rest - {g};
    }
  }

  lemma GroupsStep(events: seq<CustomerEvent>, i: nat, company: int, today: Day)
    requires i < |events|
    ensures EventGroups(events[..i + 1], company, today)
         == EventGroups(events[..i], company, today)
            + (if InWindow(GroupOf(events[i]), company, today) then {GroupOf(events[i])} else {})
  {
    var a, b := events[..i], events[..i + 1];
    forall g ensures g in EventGroups(b, company, today)
      <==> (g in EventGroups(a, company, today) || (g == GroupOf(events[i]) && InWindow(g, company, today)))
    {
      if g in EventGroups(a, company, today) {
        var k :| 0 <= k < |a| && InWindow(GroupOf(a[k]), company, today) && GroupOf(a[k]) == g;
        assert b[k] == a[k];
      }
      if g in EventGroups(b, company, today) {
        var k :| 0 <= k < |b| && InWindow(GroupOf(b[k]), company, today) && GroupOf(b[k]) == g;
        if k < i { assert a[k] == b[k]; }
      }
      assert b[i] == events[i];
    }
  }

  /** INSERT of a zero row per group of events, ON CONFLICT DO NOTHING. */
  method InsertEventGroups(table: map<Group, Fact>, events: seq<CustomerEvent>, company: int, today: Day) returns (table': map<Group, Fact>)
    ensures forall g :: g in table' <==> g in table || g in EventGroups(events, company, today)
    ensures forall g :: g in table' ==> table'[g] == if g in table then table[g] else ZERO_FACT
  {
    table' := table;
    for i := 0 to |events|
      invariant forall g :: g in table' <==> g in table || g in EventGroups(events[..i], company, today)
      invariant forall g :: g in table' ==> table'[g] == if g in table then table[g] else ZERO_FACT
    {
      var g := GroupOf(events[i]);
      GroupsStep(events, i, company, today);
      if InWindow(g, company, today) && g !in table' { table' := table'[g := ZERO_FACT]; }
    }
    assert events[..|events|] == events;
  }

  datatype Totals = Totals(registrations: int, issued: int, redeemed: int)

  function TotalsOf(events: seq<CustomerEvent>, g: Group): Totals {
    Totals(Tally(events, g, Registered), AmountTally(events, g, BonusEarned), AmountTally(events, g, BonusSpent))
  }

  function Added(t: Totals, e: CustomerEvent): Totals {
    var amount := if e.amount.Some? then e.amount.value else 0;
    Totals(t.registrations + (if e.kind == Registered then 1 else 0),
           t.issued + (if e.kind == BonusEarned then amount else 0),
           t.redeemed + (if e.kind == BonusSpent then amount else 0))
  }

  lemma TallyStep(events: seq<CustomerEvent>, i: nat, g: Group, kind: Kind)
    requires i < |events|
    ensures Tally(events[..i + 1], g, kind)
         == Tally(events[..i], g, kind) + (if GroupOf(events[i]) == g && events[i].kind == kind then 1 else 0)
  {
    assert events[..i + 1][..i] == events[..i] && events[..i + 1][i] == events[i];
  }

  lemma AmountStep(events: seq<CustomerEvent>, i: nat, g: Group, kind: Kind)
    requires i < |events|
    ensures AmountTally(events[..i + 1], g, kind)
         == AmountTally(events[..i], g, kind)
            + (if GroupOf(events[i]) == g && events[i].kind == kind && events[i].amount.Some? then events[i].amount.value else 0)
  {
    assert events[..i + 1][..i] == events[..i] && events[..i + 1][i] == events[i];
  }

  lemma TotalsStep(events: seq<CustomerEvent>, i: nat, g: Group)
    requires i < |events|
    ensures TotalsOf(events[..i + 1], g)
         == if GroupOf(events[i]) == g then Added(TotalsOf(events[..i], g), events[i]) else TotalsOf(events[..i], g)
  {
    TallyStep(events, i, g, Registered);
    AmountStep(events, i, g, BonusEarned);
    AmountStep(events, i, g, BonusSpent);
  }

  lemma NoEventsNoTotals(events: seq<CustomerEvent>, g: Group)
    requires forall k :: 0 <= k < |events| ==> GroupOf(events[k]) != g
    ensures TotalsOf(events, g) == Totals(0, 0, 0)
  {
    SumZero(events, (e: CustomerEvent) => if GroupOf(e) == g && e.kind == Registered then 1 else 0);
    SumZero(events, (e: CustomerEvent) => if GroupOf(e) == g && e.kind == BonusEarned && e.amount.Some? then e.amount.value else 0);
    SumZero(events, (e: CustomerEvent) => if GroupOf(e) == g && e.kind == BonusSpent && e.amount.Some? then e.amount.value else 0);
  }

  /** The "events" CTE: GROUP BY day and branch, with the sums of each group. */
  method SumEvents(events: seq<CustomerEvent>, company: int, today: Day) returns (totals: map<Group, Totals>)
    ensures totals.Keys == EventGroups(events, company, today)
    ensures forall g :: g in totals ==> totals[g] == TotalsOf(events, g)
  {
    totals := map[];
    for i := 0 to |events|
      invariant totals.Keys == EventGroups(events[..i], company, today)
      invariant forall g :: g in totals ==> totals[g] == TotalsOf(events[..i], g)
    {
      var e := events[i];
      var group := GroupOf(e);
      GroupsStep(events, i, company, today);
      forall g | g in totals || g == group
        ensures TotalsOf(events[..i + 1], g) == if group == g then Added(TotalsOf(events[..i], g), e) else TotalsOf(events[..i], g)
      {
        TotalsStep(events, i, g);
      }
      if InWindow(group, company, today) {
        if group !in totals { FirstOfGroup(events[..i], group, company, today); }
        totals := totals[group := Added(if group in totals then totals[group] else Totals(0, 0, 0), e)];
      }
    }
    assert events[..|events|] == events;
  }

  lemma FirstOfGroup(events: seq<CustomerEvent>, g: Group, company: int, today: Day)
    requires g !in EventGroups(events, company, today) && InWindow(g, company, today)
    ensures TotalsOf(events, g) == Totals(0, 0, 0)
  {
    forall k | 0 <= k < |events| ensures GroupOf(events[k]) != g {
      assert InWindow(GroupOf(events[k]), company, today) ==> GroupOf(events[k]) in EventGroups(events, company, today);
    }
    NoEventsNoTotals(events, g);
  }

  function Summed(f: Fact, t: Totals): Fact { f.(registrations := t.registrations, issued := t.issued, redeemed := t.redeemed) }

  /** UPDATE ... FROM events. */
  method ApplyTotals(table: map<Group, Fact>, totals: map<Group, Totals>) returns (table': map<Group, Fact>)
    ensures table'.Keys == table.Keys
    ensures forall g :: g in table ==> table'[g] == if g in totals then Summed(table[g], totals[g]) else table[g]
  {
    table' := table;
    var rest := totals.Keys;
    while rest != {}
      invariant rest <= totals.Keys && table'.Keys == table.Keys
      invariant forall g :: g in table ==> table'[g] == if g in totals && g !in rest then Summed(table[g], totals[g]) else table[g]
      decreases |rest|
    {
      var g :| g in rest;
      if g in table' { table' := table'[g := Summed(table'[g], totals[g])]; }
      rest := rest - {g};
    }
  }

  /** UPDATE ... FROM campaign, for the rows of the window without a branch. */
  method ApplyCampaign(table: map<Group, Fact>, campaign: map<Day, int>, company: int, today: Day) returns (table': map<Group, Fact>)
    ensures table'.Keys == table.Keys
    ensures forall g :: g in table ==>
      table'[g] == if InWindow(g, company, today) && g.branch.None? && g.day in campaign then table[g].(attributed := campaign[g.day]) else table[g]
  {
    table' := table;
    var rest := table.Keys;
    while rest != {}
      invariant rest <= table.Keys && table'.Keys == table.Keys
      invariant forall g :: g in table ==>
        table'[g] == if g !in rest && InWindow(g, company, today) && g.branch.None? && g.day in campaign
                     then table[g].(attributed := campaign[g.day]) else table[g]
      decreases |rest|
    {
      var g :| g in rest;
      if InWindow(g, company, today) && g.branch.None? && g.day in campaign {
        table' := table'[g := table'[g].(attributed := campaign[g.day])];
      }
      rest := rest - {g};
    }
  }

  // ---------------------------------------------------------------- the statements together

  lemma InsertedTable(facts: map<Group, Fact>, rows: map<Group, Fact>, events: seq<CustomerEvent>, company: int, today: Day, table: map<Group, Fact>)
    requires var before := Kept(facts, company, today) + SalesPart(rows, company, today);
      && (forall g :: g in table <==> g in before || g in EventGroups(events, company, today))
      && (forall g :: g in table ==> table[g] == if g in before then before[g] else ZERO_FACT)
    ensures table == Kept(facts, company, today) + InsertedRows(rows, events, company, today)
  {
    var goal := Kept(facts, company, today) + InsertedRows(rows, events, company, today);
    forall g | g in EventGroups(events, company, today) ensures InWindow(g, company, today) {}
    assert forall g :: g in table <==> g in goal;
    assert forall g :: g in table ==> table[g] == goal[g];
  }

  lemma SummedTable(kept: map<Group, Fact>, staged: map<Group, Fact>, events: seq<CustomerEvent>, company: int, today: Day,
                    totals: map<Group, Totals>, table: map<Group, Fact>)
    requires (forall g :: g in kept ==> !InWindow(g, company, today)) && Windowed(staged, company, today)
    requires totals.Keys == EventGroups(events, company, today) && forall g :: g in totals ==> totals[g] == TotalsOf(events, g)
    requires table.Keys == (kept + staged).Keys
    requires forall g :: g in table ==> table[g] == if g in totals then Summed((kept + staged)[g], totals[g]) else (kept + staged)[g]
    ensures table == kept + UpdatedRows(staged, events, company, today)
  {
    var goal := kept + UpdatedRows(staged, events, company, today);
    forall g | g in EventGroups(events, company, today) ensures InWindow(g, company, today) {}
    assert forall g :: g in table <==> g in goal;
    forall g | g in table ensures table[g] == goal[g] {
      if g in staged { assert g !in kept; }
    }
  }

  lemma AttributedTable(kept: map<Group, Fact>, staged: map<Group, Fact>, campaign: map<Day, int>, company: int, today: Day, table: map<Group, Fact>)
    requires (forall g :: g in kept ==> !InWindow(g, company, today)) && Windowed(staged, company, today)
    requires table.Keys == (kept + staged).Keys
    requires forall g :: g in table ==>
      table[g] == if InWindow(g, company, today) && g.branch.None? && g.day in campaign
                  then (kept + staged)[g].(attributed := campaign[g.day]) else (kept + staged)[g]
    ensures table == kept + AttributedRows(staged, campaign)
  {
    var goal := kept + AttributedRows(staged, campaign);
    assert forall g :: g in table <==> g in goal;
  }

  lemma InsertedWindowed(rows: map<Group, Fact>, events: seq<CustomerEvent>, company: int, today: Day)
    ensures Windowed(InsertedRows(rows, events, company, today), company, today)
    ensures Windowed(UpdatedRows(InsertedRows(rows, events, company, today), events, company, today), company, today)
  {
    forall g | g in EventGroups(events, company, today) ensures InWindow(g, company, today) {}
  }

  /** Delete, insert twice, update twice: the rebuilt table. */
  method RunStatements(facts: map<Group, Fact>, figures: Figures, events: seq<CustomerEvent>, company: int, today: Day) returns (table: map<Group, Fact>)
    ensures table == Rebuilt(facts, figures, events, company, today)
  {
    ghost var kept := Kept(facts, company, today);
    ghost var inserted := InsertedRows(figures.rows, events, company, today);
    InsertedWindowed(figures.rows, events, company, today);
    table := DeleteWindow(facts, company, today);
    table := InsertSales(table, figures.rows, company, today);
    table := InsertEventGroups(table, events, company, today);
    InsertedTable(facts, figures.rows, events, company, today, table);
    var totals := SumEvents(events, company, today);
    table := ApplyTotals(table, totals);
    SummedTable(kept, inserted, events, company, today, totals, table);
    table := ApplyCampaign(table, figures.campaign, company, today);
    AttributedTable(kept, UpdatedRows(inserted, events, company, today), figures.campaign, company, today, table);
  }
}
