/** The revenue columns of the projection: transactions grouped by day and branch,
    joined with per-day figures, and written into the fact table. */
module AnalyticsRevenue {
  import opened Prelude
  import opened AnalyticsProjection
  import opened AnalyticsRefresh
  import Book = BonusBook

  datatype SaleStatus = Completed | PartiallyRefunded | Refunded | OtherStatus

  /** A row of sales_transactions; `refund` when it points at an original. */
  datatype Sale = Sale(
    company: int, day: Day, branch: Option<int>, customer: Option<int>, status: SaleStatus, refund: bool,
    gross: int, net: int, discount: int, sandbox: bool)

  function SaleGroup(t: Sale): Group { Group(t.company, t.day, t.branch) }

  predicate InScope(t: Sale, company: int, today: Day) { !t.sandbox && InWindow(SaleGroup(t), company, today) }

  function SaleGroups(sales: seq<Sale>, company: int, today: Day): set<Group> {
    set i | 0 <= i < |sales| && InScope(sales[i], company, today) :: SaleGroup(sales[i])
  }

  // Refunds count against net revenue and not at all for gross and discounts; no
  // status is left out of any of them.
  function NetOf(t: Sale): int { if t.sandbox then 0 else if t.refund then -t.net else t.net }
  function GrossOf(t: Sale): int { if t.sandbox || t.refund then 0 else t.gross }
  function DiscountOf(t: Sale): int { if t.sandbox || t.refund then 0 else t.discount }

  function InGroup(sales: seq<Sale>, g: Group, amount: Sale -> int): int {
    Sum(sales, (t: Sale) => if SaleGroup(t) == g then amount(t) else 0)
  }

  // ---------------------------------------------------------------- buyers

  predicate Purchase(t: Sale, company: int, customer: int) {
    t.company == company && t.customer == Some(customer) && !t.refund && !t.sandbox && !t.status.OtherStatus?
  }

  /** customer_first: the day of the earliest purchase. */
  function FirstDay(sales: seq<Sale>, company: int, customer: int): Option<Day> {
    if sales == [] then None
    else
      var front, t := FirstDay(sales[..|sales| - 1], company, customer), sales[|sales| - 1];
      if !Purchase(t, company, customer) then front
      else if front.Some? && front.value <= t.day then front
      else Some(t.day)
  }

  function Buyers(sales: seq<Sale>, g: Group): set<int> {
    set i | 0 <= i < |sales| && SaleGroup(sales[i]) == g && !sales[i].sandbox && sales[i].customer.Some? :: sales[i].customer.value
  }

  function NewBuyers(sales: seq<Sale>, g: Group): set<int> {
    set c | c in Buyers(sales, g) && FirstDay(sales, g.company, c) == Some(g.day)
  }

  function RepeatBuyers(sales: seq<Sale>, g: Group): set<int> {
    set c | c in Buyers(sales, g) && FirstDay(sales, g.company, c).Some? && FirstDay(sales, g.company, c).value < g.day
  }

  predicate PurchaseBy(sales: seq<Sale>, company: int, customer: int, day: Day) {
    exists i :: 0 <= i < |sales| && Purchase(sales[i], company, customer) && sales[i].day <= day
  }

  lemma PurchaseBySplit(sales: seq<Sale>, company: int, customer: int, day: Day)
    requires sales != []
    ensures PurchaseBy(sales, company, customer, day)
      <==> (PurchaseBy(sales[..|sales| - 1], company, customer, day)
            || (Purchase(sales[|sales| - 1], company, customer) && sales[|sales| - 1].day <= day))
  {
    var front := sales[..|sales| - 1];
    if i :| 0 <= i < |front| && Purchase(front[i], company, customer) && front[i].day <= day {
      assert Purchase(sales[i], company, customer);
    }
    if i :| 0 <= i < |sales| && Purchase(sales[i], company, customer) && sales[i].day <= day {
      if i < |front| { assert Purchase(front[i], company, customer); }
    }
  }

  /** The first day is at or before a day exactly when there is a purchase by that day. */
  lemma {:induction false} FirstDayIs(sales: seq<Sale>, company: int, customer: int, day: Day)
    ensures (FirstDay(sales, company, customer).Some? && FirstDay(sales, company, customer).value <= day)
      <==> PurchaseBy(sales, company, customer, day)
    decreases |sales|
  {
    if sales != [] {
      FirstDayIs(sales[..|sales| - 1], company, customer, day);
      PurchaseBySplit(sales, company, customer, day);
    }
  }

  lemma DisjointSizes(a: set<int>, b: set<int>, c: set<int>)
    requires a <= c && b <= c && a !! b
    ensures |a| + |b| <= |c|
    ensures |a| + |b| == |c| <==> a + b == c
  {
    assert |a + b| == |a| + |b|;
    assert |c| == |a + b| + |c - (a + b)| by { assert (a + b) + (c - (a + b)) == c && (a + b) !! (c - (a + b)); }
    if |c - (a + b)| == 0 { assert c - (a + b) == {}; assert a + b == c; }
  }

  /** New and repeat buyers never exceed the active customers of a row, and reach
      them exactly when every active customer has a purchase on or before that day. */
  lemma BuyersWithinActive(sales: seq<Sale>, g: Group)
    ensures |NewBuyers(sales, g)| + |RepeatBuyers(sales, g)| <= |Buyers(sales, g)|
    ensures |NewBuyers(sales, g)| + |RepeatBuyers(sales, g)| == |Buyers(sales, g)|
      <==> forall c :: c in Buyers(sales, g) ==> PurchaseBy(sales, g.company, c, g.day)
  {
    var n, r, all := NewBuyers(sales, g), RepeatBuyers(sales, g), Buyers(sales, g);
    DisjointSizes(n, r, all);
    forall c | c in all ensures c in n + r <==> PurchaseBy(sales, g.company, c, g.day) {
      FirstDayIs(sales, g.company, c, g.day);
    }
    assert n + r <= all;
    if forall c :: c in all ==> PurchaseBy(sales, g.company, c, g.day) { assert n + r == all; }
  }

  // ---------------------------------------------------------------- the grouped tables

  datatype CustomerRow = CustomerRow(company: int, day: Day, deleted: bool)
  datatype LedgerRow = LedgerRow(company: int, day: Day, operation: Book.Operation, amount: int)

  function Distinct(days: seq<Day>): seq<Day> {
    if days == [] then []
    else
      var rest, d := Distinct(days[..|days| - 1]), days[|days| - 1];
      if d in rest then rest else rest + [d]
  }

  lemma {:induction false} DistinctIs(days: seq<Day>)
    ensures forall d :: d in Distinct(days) <==> d in days
    ensures forall i, j :: 0 <= i < j < |Distinct(days)| ==> Distinct(days)[i] != Distinct(days)[j]
    decreases |days|
  {
    if days != [] {
      DistinctIs(days[..|days| - 1]);
      assert days == days[..|days| - 1] + [days[|days| - 1]];
    }
  }

  predicate SignedUp(c: CustomerRow, company: int, today: Day) {
    c.company == company && !c.deleted && c.day >= today - WINDOW_DAYS
  }

  predicate Posted(l: LedgerRow, company: int, today: Day) { l.company == company && l.day >= today - WINDOW_DAYS }

  function RegistrationsOn(customers: seq<CustomerRow>, company: int, today: Day, day: Day): int {
    Sum(customers, (c: CustomerRow) => if SignedUp(c, company, today) && c.day == day then 1 else 0)
  }

  function PostedOn(ledger: seq<LedgerRow>, company: int, today: Day, day: Day, operation: Book.Operation): int {
    Sum(ledger, (l: LedgerRow) => if Posted(l, company, today) && l.day == day && l.operation == operation then l.amount else 0)
  }

  /** A row of a table grouped by day. */
  datatype Daily = Daily(day: Day, registrations: int, issued: int, redeemed: int, expired: int)

  function RegistrationDays(customers: seq<CustomerRow>, company: int, today: Day): seq<Day> {
    if customers == [] then []
    else
      var rest, c := RegistrationDays(customers[..|customers| - 1], company, today), customers[|customers| - 1];
      if SignedUp(c, company, today) then rest + [c.day] else rest
  }

  function LedgerDays(ledger: seq<LedgerRow>, company: int, today: Day): seq<Day> {
    if ledger == [] then []
    else
      var rest, l := LedgerDays(ledger[..|ledger| - 1], company, today), ledger[|ledger| - 1];
      if Posted(l, company, today) then rest + [l.day] else rest
  }

  /** "registrations": GROUP BY created_at::date. */
  function RegistrationTable(customers: seq<CustomerRow>, company: int, today: Day): seq<Daily> {
    var days := Distinct(RegistrationDays(customers, company, today));
    seq(|days|, i requires 0 <= i < |days| => Daily(days[i], RegistrationsOn(customers, company, today, days[i]), 0, 0, 0))
  }

  /** "bonus": GROUP BY created_at::date over the ledger. */
  function BonusTable(ledger: seq<LedgerRow>, company: int, today: Day): seq<Daily> {
    var days := Distinct(LedgerDays(ledger, company, today));
    seq(|days|, i requires 0 <= i < |days| =>
      Daily(days[i], 0, PostedOn(ledger, company, today, days[i], Book.Credit), PostedOn(ledger, company, today, days[i], Book.Debit),
            PostedOn(ledger, company, today, days[i], Book.Expire)))
  }

  predicate OnePerDay(right: seq<Daily>) { forall i, j :: 0 <= i < j < |right| ==> right[i].day != right[j].day }

  /** Grouping by day gives one row a day. */
  lemma GroupedOnePerDay(customers: seq<CustomerRow>, ledger: seq<LedgerRow>, company: int, today: Day)
    ensures OnePerDay(RegistrationTable(customers, company, today)) && OnePerDay(BonusTable(ledger, company, today))
  {
    DistinctIs(RegistrationDays(customers, company, today));
    DistinctIs(LedgerDays(ledger, company, today));
  }

  lemma {:induction false} NoRegistrations(customers: seq<CustomerRow>, company: int, today: Day, day: Day)
    requires day !in RegistrationDays(customers, company, today)
    ensures RegistrationsOn(customers, company, today, day) == 0
    decreases |customers|
  {
    if customers != [] {
      NoRegistrations(customers[..|customers| - 1], company, today, day);
    }
  }

  lemma {:induction false} NothingPosted(ledger: seq<LedgerRow>, company: int, today: Day, day: Day, operation: Book.Operation)
    requires day !in LedgerDays(ledger, company, today)
    ensures PostedOn(ledger, company, today, day, operation) == 0
    decreases |ledger|
  {
    if ledger != [] {
      NothingPosted(ledger[..|ledger| - 1], company, today, day, operation);
    }
  }

  // ---------------------------------------------------------------- left joins

  /** A row of "enriched" with what the two joins attach to it. */
  datatype JoinedRow = JoinedRow(group: Group, registrations: Option<Daily>, bonus: Option<Daily>)
  datatype Side = RegistrationSide | BonusSide

  function Attach(r: JoinedRow, side: Side, d: Daily): JoinedRow {
    match side case RegistrationSide => r.(registrations := Some(d)) case BonusSide => r.(bonus := Some(d))
  }

  function Partners(r: JoinedRow, side: Side, right: seq<Daily>): seq<JoinedRow> {
    if right == [] then []
    else
      var d := right[|right| - 1];
      Partners(r, side, right[..|right| - 1]) + (if d.day == r.group.day then [Attach(r, side, d)] else [])
  }

  /** The rows one row joins to: its partners, or itself when it has none. */
  function Joins(r: JoinedRow, side: Side, right: seq<Daily>): seq<JoinedRow> {
    if Partners(r, side, right) == [] then [r] else Partners(r, side, right)
  }

  /** LEFT JOIN ... USING (fact_date). */
  function LeftJoin(left: seq<JoinedRow>, side: Side, right: seq<Daily>): seq<JoinedRow> {
    if left == [] then [] else LeftJoin(left[..|left| - 1], side, right) + Joins(left[|left| - 1], side, right)
  }

  /** The row of a day, if there is one. */
  function On(right: seq<Daily>, day: Day): Option<Daily> {
    if right == [] then None
    else if right[|right| - 1].day == day then Some(right[|right| - 1]) else On(right[..|right| - 1], day)
  }

  function Joined(r: JoinedRow, side: Side, right: seq<Daily>): JoinedRow {
    match On(right, r.group.day) case None => r case Some(d) => Attach(r, side, d)
  }

  lemma {:induction false} OnIs(right: seq<Daily>, day: Day)
    ensures On(right, day) == None <==> forall i :: 0 <= i < |right| ==> right[i].day != day
    ensures On(right, day).Some? ==> exists i :: 0 <= i < |right| && right[i] == On(right, day).value && right[i].day == day
    decreases |right|
  {
    if right != [] {
      OnIs(right[..|right| - 1], day);
    }
  }

  lemma {:induction false} PartnersOf(r: JoinedRow, side: Side, right: seq<Daily>)
    requires OnePerDay(right)
    ensures Partners(r, side, right) == match On(right, r.group.day) case None => [] case Some(d) => [Attach(r, side, d)]
    decreases |right|
  {
    if right != [] {
      PartnersOf(r, side, right[..|right| - 1]);
      if right[|right| - 1].day == r.group.day { OnIs(right[..|right| - 1], r.group.day); }
    }
  }

  /** Joining with a table that has one row a day keeps exactly one row per row on the
      left, in place. */
  lemma {:induction false} LeftJoinNeverDuplicates(left: seq<JoinedRow>, side: Side, right: seq<Daily>)
    requires OnePerDay(right)
    ensures |LeftJoin(left, side, right)| == |left|
    ensures forall i :: 0 <= i < |left| ==> LeftJoin(left, side, right)[i] == Joined(left[i], side, right)
    decreases |left|
  {
    if left != [] {
      LeftJoinNeverDuplicates(left[..|left| - 1], side, right);
      PartnersOf(left[|left| - 1], side, right);
    }
  }

  // ---------------------------------------------------------------- the inserted rows

  /** "transaction_facts": GROUP BY day and branch, each group once. */
  function GroupList(sales: seq<Sale>, company: int, today: Day): seq<Group> {
    if sales == [] then []
    else
      var rest, t := GroupList(sales[..|sales| - 1], company, today), sales[|sales| - 1];
      if InScope(t, company, today) && SaleGroup(t) !in rest then rest + [SaleGroup(t)] else rest
  }

  lemma {:induction false} GroupListIs(sales: seq<Sale>, company: int, today: Day)
    ensures forall g :: g in GroupList(sales, company, today) <==> g in SaleGroups(sales, company, today)
    ensures forall i, j :: 0 <= i < j < |GroupList(sales, company, today)| ==> GroupList(sales, company, today)[i] != GroupList(sales, company, today)[j]
    decreases |sales|
  {
    if sales != [] {
      var front := sales[..|sales| - 1];
      GroupListIs(front, company, today);
      forall g ensures g in SaleGroups(sales, company, today)
        <==> (g in SaleGroups(front, company, today) || (InScope(sales[|sales| - 1], company, today) && g == SaleGroup(sales[|sales| - 1])))
      {
        SaleGroupsStep(sales, company, today, g);
      }
    }
  }

  lemma SaleGroupsStep(sales: seq<Sale>, company: int, today: Day, g: Group)
    requires sales != []
    ensures g in SaleGroups(sales, company, today)
      <==> (|| g in SaleGroups(sales[..|sales| - 1], company, today)
            || (InScope(sales[|sales| - 1], company, today) && g == SaleGroup(sales[|sales| - 1])))
  {
    var front := sales[..|sales| - 1];
    if i :| 0 <= i < |front| && InScope(front[i], company, today) && SaleGroup(front[i]) == g {
      assert InScope(sales[i], company, today) && SaleGroup(sales[i]) == g;
    }
    if i :| 0 <= i < |sales| && InScope(sales[i], company, today) && SaleGroup(sales[i]) == g {
      if i < |front| { assert InScope(front[i], company, today) && SaleGroup(front[i]) == g; }
    }
  }

  /** The SELECT of the INSERT: the groups with both tables joined on. */
  function SelectedRows(sales: seq<Sale>, customers: seq<CustomerRow>, ledger: seq<LedgerRow>, company: int, today: Day): seq<JoinedRow> {
    var groups := GroupList(sales, company, today);
    var enriched := seq(|groups|, i requires 0 <= i < |groups| => JoinedRow(groups[i], None, None));
    LeftJoin(LeftJoin(enriched, RegistrationSide, RegistrationTable(customers, company, today)), BonusSide, BonusTable(ledger, company, today))
  }

  /** coalesce(..., 0) over what was joined. */
  function FactOf(sales: seq<Sale>, r: JoinedRow): Fact {
    Fact(if r.registrations.Some? then r.registrations.value.registrations else 0,
         if r.bonus.Some? then r.bonus.value.issued else 0,
         if r.bonus.Some? then r.bonus.value.redeemed else 0,
         if r.bonus.Some? then r.bonus.value.expired else 0,
         0, Columns(sales, r.group))
  }

  /** The fact of a group computed directly from the tables. */
  function DirectFact(sales: seq<Sale>, customers: seq<CustomerRow>, ledger: seq<LedgerRow>, company: int, today: Day, g: Group): Fact {
    Fact(RegistrationsOn(customers, company, today, g.day),
         PostedOn(ledger, company, today, g.day, Book.Credit), PostedOn(ledger, company, today, g.day, Book.Debit),
         PostedOn(ledger, company, today, g.day, Book.Expire), 0, Columns(sales, g))
  }

  lemma RegistrationOf(customers: seq<CustomerRow>, company: int, today: Day, day: Day)
    ensures var d := On(RegistrationTable(customers, company, today), day);
      (if d.Some? then d.value.registrations else 0) == RegistrationsOn(customers, company, today, day)
  {
    var table := RegistrationTable(customers, company, today);
    OnIs(table, day);
    DistinctIs(RegistrationDays(customers, company, today));
    if On(table, day) == None {
      forall k | 0 <= k < |table| ensures Distinct(RegistrationDays(customers, company, today))[k] != day { assert table[k].day != day; }
      NoRegistrations(customers, company, today, day);
    }
  }

  lemma BonusOf(ledger: seq<LedgerRow>, company: int, today: Day, day: Day)
    ensures var d := On(BonusTable(ledger, company, today), day);
      && (if d.Some? then d.value.issued else 0) == PostedOn(ledger, company, today, day, Book.Credit)
      && (if d.Some? then d.value.redeemed else 0) == PostedOn(ledger, company, today, day, Book.Debit)
      && (if d.Some? then d.value.expired else 0) == PostedOn(ledger, company, today, day, Book.Expire)
  {
    var table := BonusTable(ledger, company, today);
    OnIs(table, day);
    DistinctIs(LedgerDays(ledger, company, today));
    if On(table, day) == None {
      forall k | 0 <= k < |table| ensures Distinct(LedgerDays(ledger, company, today))[k] != day { assert table[k].day != day; }
      NothingPosted(ledger, company, today, day, Book.Credit);
      NothingPosted(ledger, company, today, day, Book.Debit);
      NothingPosted(ledger, company, today, day, Book.Expire);
    }
  }

  /** The two joins never duplicate or lose a group: the statement inserts one row for
      each day and branch with transactions, and each row carries the figures of its
      own day computed directly. */
  lemma EachGroupOnce(sales: seq<Sale>, customers: seq<CustomerRow>, ledger: seq<LedgerRow>, company: int, today: Day)
    ensures var groups, rows := GroupList(sales, company, today), SelectedRows(sales, customers, ledger, company, today);
      && |rows| == |groups|
      && (forall i :: 0 <= i < |rows| ==>
            rows[i].group == groups[i] && FactOf(sales, rows[i]) == DirectFact(sales, customers, ledger, company, today, groups[i]))
  {
    var groups := GroupList(sales, company, today);
    var enriched := seq(|groups|, i requires 0 <= i < |groups| => JoinedRow(groups[i], None, None));
    var regs, bonus := RegistrationTable(customers, company, today), BonusTable(ledger, company, today);
    GroupedOnePerDay(customers, ledger, company, today);
    LeftJoinNeverDuplicates(enriched, RegistrationSide, regs);
    LeftJoinNeverDuplicates(LeftJoin(enriched, RegistrationSide, regs), BonusSide, bonus);
    forall i | 0 <= i < |groups|
      ensures var r := Joined(Joined(enriched[i], RegistrationSide, regs), BonusSide, bonus);
        r.group == groups[i] && FactOf(sales, r) == DirectFact(sales, customers, ledger, company, today, groups[i])
    {
      RegistrationOf(customers, company, today, groups[i].day);
      BonusOf(ledger, company, today, groups[i].day);
    }
  }

  /** The rows as the table stores them, one per unique key. */
  function TableOf(sales: seq<Sale>, rows: seq<JoinedRow>): map<Group, Fact> {
    if rows == [] then map[] else TableOf(sales, rows[..|rows| - 1])[rows[|rows| - 1].group := FactOf(sales, rows[|rows| - 1])]
  }

  lemma {:induction false} TableOfIs(sales: seq<Sale>, rows: seq<JoinedRow>)
    requires forall i, j :: 0 <= i < j < |rows| ==> rows[i].group != rows[j].group
    ensures forall g :: g in TableOf(sales, rows) <==> exists i :: 0 <= i < |rows| && rows[i].group == g
    ensures forall i :: 0 <= i < |rows| ==> rows[i].group in TableOf(sales, rows) && TableOf(sales, rows)[rows[i].group] == FactOf(sales, rows[i])
    decreases |rows|
  {
    if rows != [] {
      var front := rows[..|rows| - 1];
      TableOfIs(sales, front);
      forall g ensures g in TableOf(sales, rows) <==> exists i :: 0 <= i < |rows| && rows[i].group == g {
        if g in TableOf(sales, front) {
          var i :| 0 <= i < |front| && front[i].group == g;
          assert rows[i].group == g;
        }
        if i :| 0 <= i < |rows| && rows[i].group == g && i < |front| { assert front[i].group == g; }
      }
      forall i | 0 <= i < |rows|
        ensures rows[i].group in TableOf(sales, rows) && TableOf(sales, rows)[rows[i].group] == FactOf(sales, rows[i])
      {
        if i < |front| { assert front[i] == rows[i]; }
      }
    }
  }

  /** What the row-inserting statement writes. */
  function SalesRows(sales: seq<Sale>, customers: seq<CustomerRow>, ledger: seq<LedgerRow>, company: int, today: Day): map<Group, Fact> {
    TableOf(sales, SelectedRows(sales, customers, ledger, company, today))
  }

  lemma SelectedGroups(sales: seq<Sale>, customers: seq<CustomerRow>, ledger: seq<LedgerRow>, company: int, today: Day, g: Group)
    ensures var rows := SelectedRows(sales, customers, ledger, company, today);
      (exists i :: 0 <= i < |rows| && rows[i].group == g) <==> g in SaleGroups(sales, company, today)
  {
    var groups, rows := GroupList(sales, company, today), SelectedRows(sales, customers, ledger, company, today);
    GroupListIs(sales, company, today);
    EachGroupOnce(sales, customers, ledger, company, today);
    if g in groups {
      var i :| 0 <= i < |groups| && groups[i] == g;
      assert rows[i].group == g;
    }
  }

  lemma SelectedOnce(sales: seq<Sale>, customers: seq<CustomerRow>, ledger: seq<LedgerRow>, company: int, today: Day)
    ensures var rows := SelectedRows(sales, customers, ledger, company, today);
      && (forall i, j :: 0 <= i < j < |rows| ==> rows[i].group != rows[j].group)
      && (forall i :: 0 <= i < |rows| ==> FactOf(sales, rows[i]) == DirectFact(sales, customers, ledger, company, today, rows[i].group))
  {
    GroupListIs(sales, company, today);
    EachGroupOnce(sales, customers, ledger, company, today);
  }

  /** It writes the directly computed fact of every group, and nothing else. */
  lemma SalesRowsAreDirect(sales: seq<Sale>, customers: seq<CustomerRow>, ledger: seq<LedgerRow>, company: int, today: Day)
    ensures SalesRows(sales, customers, ledger, company, today)
         == map g | g in SaleGroups(sales, company, today) :: DirectFact(sales, customers, ledger, company, today, g)
  {
    var rows := SelectedRows(sales, customers, ledger, company, today);
    var table := TableOf(sales, rows);
    SelectedOnce(sales, customers, ledger, company, today);
    TableOfIs(sales, rows);
    forall g ensures g in table <==> g in SaleGroups(sales, company, today) {
      SelectedGroups(sales, customers, ledger, company, today, g);
    }
    forall g | g in table ensures table[g] == DirectFact(sales, customers, ledger, company, today, g) {
      var i :| 0 <= i < |rows| && rows[i].group == g;
    }
  }

  // ---------------------------------------------------------------- revenue

  function Columns(sales: seq<Sale>, g: Group): SalesColumns {
    SalesColumns(|Buyers(sales, g)|, |NewBuyers(sales, g)|, |RepeatBuyers(sales, g)|,
                 InGroup(sales, g, NetlessGross), InGroup(sales, g, SignedNet), InGroup(sales, g, PlainDiscount))
  }

  const SignedNet: Sale -> int := (t: Sale) => NetOf(t)
  const NetlessGross: Sale -> int := (t: Sale) => GrossOf(t)
  const PlainDiscount: Sale -> int := (t: Sale) => DiscountOf(t)

  /** Summing a figure group by group is summing it over the transactions grouped. */
  lemma {:induction false} GroupedSum(keys: set<Group>, sales: seq<Sale>, amount: Sale -> int)
    ensures SumOver(keys, g => InGroup(sales, g, amount)) == Sum(sales, (t: Sale) => if SaleGroup(t) in keys then amount(t) else 0)
    decreases keys
  {
    if keys == {} {
      SumZero(sales, (t: Sale) => if SaleGroup(t) in keys then amount(t) else 0);
    } else {
      var k :| k in keys;
      var rest := keys - {k};
      SumOverPick(keys, k, g => InGroup(sales, g, amount));
      GroupedSum(rest, sales, amount);
      SumAdd(sales, (t: Sale) => if SaleGroup(t) in keys then amount(t) else 0,
             (t: Sale) => if SaleGroup(t) == k then amount(t) else 0,
             (t: Sale) => if SaleGroup(t) in rest then amount(t) else 0);
    }
  }

  /** A figure that sandbox rows do not count towards adds up, over the groups in the
      window, to its sum over the company's transactions in the window. */
  lemma WindowSum(sales: seq<Sale>, company: int, today: Day, amount: Sale -> int)
    requires forall t: Sale :: t.sandbox ==> amount(t) == 0
    ensures SumOver(SaleGroups(sales, company, today), g => InGroup(sales, g, amount))
         == Sum(sales, (t: Sale) => if InScope(t, company, today) then amount(t) else 0)
  {
    var keys := SaleGroups(sales, company, today);
    GroupedSum(keys, sales, amount);
    var f, h := (t: Sale) => if SaleGroup(t) in keys then amount(t) else 0, (t: Sale) => if InScope(t, company, today) then amount(t) else 0;
    forall i | 0 <= i < |sales| ensures f(sales[i]) == h(sales[i]) {
      if InScope(sales[i], company, today) { assert SaleGroup(sales[i]) in keys; }
    }
    SumSame(sales, sales, f, h);
  }

  /** The rows of a company inside the window. */
  function WindowRows(facts: map<Group, Fact>, company: int, today: Day): set<Group> {
    set g | g in facts && InWindow(g, company, today)
  }

  lemma {:induction false} SumOverSplit<K(!new)>(small: set<K>, big: set<K>, f: K -> int)
    requires small <= big && forall k :: k in big - small ==> f(k) == 0
    ensures SumOver(big, f) == SumOver(small, f)
    decreases big
  {
    if big - small == {} {
      assert forall k :: k in big ==> k in big - small || k in small;
      assert big == small;
    } else {
      var k :| k in big - small;
      SumOverPick(big, k, f);
      SumOverSplit(small, big - {k}, f);
    }
  }

  lemma GroupsInWindow(sales: seq<Sale>, company: int, today: Day, g: Group)
    requires g in SaleGroups(sales, company, today)
    ensures InWindow(g, company, today)
  {
    var i :| 0 <= i < |sales| && InScope(sales[i], company, today) && SaleGroup(sales[i]) == g;
  }

  lemma UpdateKeepsSales(staged: map<Group, Fact>, campaign: map<Day, int>, events: seq<CustomerEvent>, company: int, today: Day, g: Group)
    ensures var after := AttributedRows(UpdatedRows(staged, events, company, today), campaign);
      (g in after <==> g in staged) && (g in staged ==> after[g].sales == staged[g].sales)
  {}

  lemma InsertedSales(rows: map<Group, Fact>, events: seq<CustomerEvent>, company: int, today: Day, g: Group)
    ensures g in InsertedRows(rows, events, company, today)
      <==> ((g in rows && InWindow(g, company, today)) || g in EventGroups(events, company, today))
    ensures g in InsertedRows(rows, events, company, today)
      ==> InsertedRows(rows, events, company, today)[g].sales == if g in rows && InWindow(g, company, today) then rows[g].sales else NO_SALES
  {}

  lemma RebuiltRow(facts: map<Group, Fact>, sales: seq<Sale>, customers: seq<CustomerRow>, ledger: seq<LedgerRow>, campaign: map<Day, int>, events: seq<CustomerEvent>, company: int, today: Day, g: Group)
    requires g in SaleGroups(sales, company, today) || g in WindowRows(Rebuilt(facts, Figures(SalesRows(sales, customers, ledger, company, today), campaign), events, company, today), company, today)
    ensures var after := Rebuilt(facts, Figures(SalesRows(sales, customers, ledger, company, today), campaign), events, company, today);
      && g in after && InWindow(g, company, today)
      && after[g].sales == if g in SaleGroups(sales, company, today) then Columns(sales, g) else NO_SALES
  {
    var rows := SalesRows(sales, customers, ledger, company, today);
    SalesRowsAreDirect(sales, customers, ledger, company, today);
    if g in SaleGroups(sales, company, today) { GroupsInWindow(sales, company, today, g); }
    InsertedSales(rows, events, company, today, g);
    UpdateKeepsSales(InsertedRows(rows, events, company, today), campaign, events, company, today, g);
  }

  lemma RebuiltTotal(facts: map<Group, Fact>, sales: seq<Sale>, customers: seq<CustomerRow>, ledger: seq<LedgerRow>, campaign: map<Day, int>, events: seq<CustomerEvent>,
                     company: int, today: Day, column: SalesColumns -> int, amount: Sale -> int)
    requires forall t: Sale :: t.sandbox ==> amount(t) == 0
    requires column(NO_SALES) == 0 && forall g: Group :: column(Columns(sales, g)) == InGroup(sales, g, amount)
    ensures var after := Rebuilt(facts, Figures(SalesRows(sales, customers, ledger, company, today), campaign), events, company, today);
      SumOver(WindowRows(after, company, today), g => if g in after then column(after[g].sales) else 0)
        == Sum(sales, (t: Sale) => if InScope(t, company, today) then amount(t) else 0)
  {
    var after := Rebuilt(facts, Figures(SalesRows(sales, customers, ledger, company, today), campaign), events, company, today);
    var rows, keys := WindowRows(after, company, today), SaleGroups(sales, company, today);
    var f, h := (g: Group) => if g in after then column(after[g].sales) else 0, (g: Group) => InGroup(sales, g, amount);
    forall g | g in keys ensures g in rows && f(g) == h(g) { RebuiltRow(facts, sales, customers, ledger, campaign, events, company, today, g); }
    forall g | g in rows - keys ensures f(g) == 0 { RebuiltRow(facts, sales, customers, ledger, campaign, events, company, today, g); }
    SumOverSplit(keys, rows, f);
    SumOverSame(keys, f, h);
    WindowSum(sales, company, today, amount);
  }

  /** After a refresh, net and gross revenue over the fact rows of the window are the
      refund-signed sums over the company's non-sandbox transactions of the window. */
  lemma RevenueConserved(facts: map<Group, Fact>, sales: seq<Sale>, customers: seq<CustomerRow>, ledger: seq<LedgerRow>, campaign: map<Day, int>, events: seq<CustomerEvent>, company: int, today: Day)
    ensures var after := Rebuilt(facts, Figures(SalesRows(sales, customers, ledger, company, today), campaign), events, company, today);
      && SumOver(WindowRows(after, company, today), g => if g in after then after[g].sales.net else 0)
        == Sum(sales, (t: Sale) => if InScope(t, company, today) then (if t.refund then -t.net else t.net) else 0)
      && SumOver(WindowRows(after, company, today), g => if g in after then after[g].sales.gross else 0)
        == Sum(sales, (t: Sale) => if InScope(t, company, today) && !t.refund then t.gross else 0)
  {
    var after := Rebuilt(facts, Figures(SalesRows(sales, customers, ledger, company, today), campaign), events, company, today);
    var rows := WindowRows(after, company, today);
    var net, gross := (c: SalesColumns) => c.net, (c: SalesColumns) => c.gross;
    RebuiltTotal(facts, sales, customers, ledger, campaign, events, company, today, net, SignedNet);
    RebuiltTotal(facts, sales, customers, ledger, campaign, events, company, today, gross, NetlessGross);
    SumOverSame(rows, g => if g in after then net(after[g].sales) else 0, g => if g in after then after[g].sales.net else 0);
    SumOverSame(rows, g => if g in after then gross(after[g].sales) else 0, g => if g in after then after[g].sales.gross else 0);
    SumSame(sales, sales, (t: Sale) => if InScope(t, company, today) then SignedNet(t) else 0,
            (t: Sale) => if InScope(t, company, today) then (if t.refund then -t.net else t.net) else 0);
    SumSame(sales, sales, (t: Sale) => if InScope(t, company, today) then NetlessGross(t) else 0,
            (t: Sale) => if InScope(t, company, today) && !t.refund then t.gross else 0);
  }

  /** A second refresh on the same data leaves the fact table as it is, every column. */
  lemma RefreshIsIdempotent(facts: map<Group, Fact>, figures: Figures, events: seq<CustomerEvent>, company: int, today: Day)
    ensures var once := Rebuilt(facts, figures, events, company, today);
      Rebuilt(once, figures, events, company, today) == once
  {
    InsertedWindowed(figures.rows, events, company, today);
    var staged := AttributedRows(UpdatedRows(InsertedRows(figures.rows, events, company, today), events, company, today), figures.campaign);
    ReplacedTwice(facts, staged, company, today);
  }

  lemma ReplacedTwice(facts: map<Group, Fact>, staged: map<Group, Fact>, company: int, today: Day)
    ensures Replaced(Replaced(facts, staged, company, today), staged, company, today) == Replaced(facts, staged, company, today)
  {
    var once := Replaced(facts, staged, company, today);
    var twice := Replaced(once, staged, company, today);
    assert forall g :: g in twice <==> g in once;
  }
}
