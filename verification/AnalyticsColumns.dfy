/** What the columns of a fact row hold after a refresh, told from the transactions, the
    customers, the ledger and the events themselves. */
module AnalyticsColumns {
  import opened Prelude
  import opened AnalyticsProjection
  import opened AnalyticsRefresh
  import opened AnalyticsRevenue
  import Book = BonusBook

  // ---------------------------------------------------------------- customers and purchases

  /** The transaction is one of a company's day and branch that counts. */
  predicate At(t: Sale, g: Group) { t.company == g.company && t.day == g.day && t.branch == g.branch && !t.sandbox }

  /** The distinct customers named on the transactions of a day and branch. */
  function CustomersAt(sales: seq<Sale>, g: Group): set<int> {
    set i | 0 <= i < |sales| && At(sales[i], g) && sales[i].customer.Some? :: sales[i].customer.value
  }

  /** The customer bought something from the company: neither a refund nor a trial row. */
  predicate Bought(t: Sale, company: int, customer: int) {
    && t.company == company && t.customer == Some(customer) && !t.refund && !t.sandbox
    && (t.status == Completed || t.status == PartiallyRefunded || t.status == Refunded)
  }

  predicate BoughtOn(sales: seq<Sale>, company: int, customer: int, day: Day) {
    exists i :: 0 <= i < |sales| && Bought(sales[i], company, customer) && sales[i].day == day
  }

  predicate BoughtBefore(sales: seq<Sale>, company: int, customer: int, day: Day) {
    exists i :: 0 <= i < |sales| && Bought(sales[i], company, customer) && sales[i].day < day
  }

  lemma BoughtByDay(sales: seq<Sale>, company: int, customer: int, day: Day)
    ensures PurchaseBy(sales, company, customer, day) <==> BoughtOn(sales, company, customer, day) || BoughtBefore(sales, company, customer, day)
    ensures PurchaseBy(sales, company, customer, day - 1) <==> BoughtBefore(sales, company, customer, day)
  {
    forall i | 0 <= i < |sales| ensures Bought(sales[i], company, customer) <==> Purchase(sales[i], company, customer) {}
    if i :| 0 <= i < |sales| && Purchase(sales[i], company, customer) && sales[i].day <= day {
      assert Bought(sales[i], company, customer);
    }
    if i :| 0 <= i < |sales| && Purchase(sales[i], company, customer) && sales[i].day <= day - 1 {
      assert Bought(sales[i], company, customer);
    }
    if i :| 0 <= i < |sales| && Bought(sales[i], company, customer) && sales[i].day <= day {
      assert Purchase(sales[i], company, customer);
    }
  }

  lemma BuyersAre(sales: seq<Sale>, g: Group)
    ensures Buyers(sales, g) == CustomersAt(sales, g)
    ensures NewBuyers(sales, g)
         == set c | c in CustomersAt(sales, g) && BoughtOn(sales, g.company, c, g.day) && !BoughtBefore(sales, g.company, c, g.day)
    ensures RepeatBuyers(sales, g) == set c | c in CustomersAt(sales, g) && BoughtBefore(sales, g.company, c, g.day)
  {
    forall c ensures c in Buyers(sales, g) <==> c in CustomersAt(sales, g) {
      if i :| 0 <= i < |sales| && At(sales[i], g) && sales[i].customer == Some(c) { assert SaleGroup(sales[i]) == g; }
      if i :| 0 <= i < |sales| && SaleGroup(sales[i]) == g && !sales[i].sandbox && sales[i].customer == Some(c) { assert At(sales[i], g); }
    }
    forall c | c in Buyers(sales, g)
      ensures FirstDay(sales, g.company, c) == Some(g.day) <==> BoughtOn(sales, g.company, c, g.day) && !BoughtBefore(sales, g.company, c, g.day)
      ensures (FirstDay(sales, g.company, c).Some? && FirstDay(sales, g.company, c).value < g.day) <==> BoughtBefore(sales, g.company, c, g.day)
    {
      FirstDayIs(sales, g.company, c, g.day);
      FirstDayIs(sales, g.company, c, g.day - 1);
      BoughtByDay(sales, g.company, c, g.day);
    }
  }

  /** The table a refresh leaves. */
  function Refreshed(facts: map<Group, Fact>, sales: seq<Sale>, customers: seq<CustomerRow>, ledger: seq<LedgerRow>, campaign: map<Day, int>,
                     events: seq<CustomerEvent>, company: int, today: Day): map<Group, Fact>
  {
    Rebuilt(facts, Figures(SalesRows(sales, customers, ledger, company, today), campaign), events, company, today)
  }

  /** The company's day and branch is in the year behind today and has a transaction. */
  predicate Sold(sales: seq<Sale>, company: int, today: Day, g: Group) {
    g.company == company && g.day >= today - 365 && exists i :: 0 <= i < |sales| && At(sales[i], g)
  }

  lemma SoldIs(sales: seq<Sale>, company: int, today: Day, g: Group)
    ensures Sold(sales, company, today, g) <==> g in SaleGroups(sales, company, today)
  {
    if Sold(sales, company, today, g) {
      var i :| 0 <= i < |sales| && At(sales[i], g);
      assert SaleGroup(sales[i]) == g && InScope(sales[i], company, today);
    }
    if g in SaleGroups(sales, company, today) {
      var i :| 0 <= i < |sales| && InScope(sales[i], company, today) && SaleGroup(sales[i]) == g;
      assert At(sales[i], g);
    }
  }

  /** The buyer columns of a row with transactions: its distinct customers; those of them
      with a purchase on the day and none before; those with a purchase before the day. */
  lemma BuyerColumns(facts: map<Group, Fact>, sales: seq<Sale>, customers: seq<CustomerRow>, ledger: seq<LedgerRow>, campaign: map<Day, int>,
                     events: seq<CustomerEvent>, company: int, today: Day, g: Group)
    requires Sold(sales, company, today, g)
    ensures var after := Refreshed(facts, sales, customers, ledger, campaign, events, company, today);
      && g in after
      && after[g].sales.active == |CustomersAt(sales, g)|
      && after[g].sales.newBuyers
         == |set c | c in CustomersAt(sales, g) && BoughtOn(sales, g.company, c, g.day) && !BoughtBefore(sales, g.company, c, g.day)|
      && after[g].sales.repeatBuyers == |set c | c in CustomersAt(sales, g) && BoughtBefore(sales, g.company, c, g.day)|
  {
    SoldIs(sales, company, today, g);
    RebuiltRow(facts, sales, customers, ledger, campaign, events, company, today, g);
    BuyersAre(sales, g);
  }

  /** So in every row new and repeat buyers together never exceed the active customers, and
      make them up exactly when each has a purchase on or before the day. */
  lemma RowBuyersWithinActive(facts: map<Group, Fact>, sales: seq<Sale>, customers: seq<CustomerRow>, ledger: seq<LedgerRow>, campaign: map<Day, int>,
                              events: seq<CustomerEvent>, company: int, today: Day, g: Group)
    requires Sold(sales, company, today, g)
    ensures var after := Refreshed(facts, sales, customers, ledger, campaign, events, company, today);
      && g in after
      && after[g].sales.newBuyers + after[g].sales.repeatBuyers <= after[g].sales.active
      && (after[g].sales.newBuyers + after[g].sales.repeatBuyers == after[g].sales.active
          <==> forall c :: c in CustomersAt(sales, g) ==> BoughtOn(sales, company, c, g.day) || BoughtBefore(sales, company, c, g.day))
  {
    SoldIs(sales, company, today, g);
    RebuiltRow(facts, sales, customers, ledger, campaign, events, company, today, g);
    BuyersWithinActive(sales, g);
    BuyersAre(sales, g);
    forall c ensures PurchaseBy(sales, company, c, g.day) <==> BoughtOn(sales, company, c, g.day) || BoughtBefore(sales, company, c, g.day) {
      BoughtByDay(sales, company, c, g.day);
    }
  }

  // ---------------------------------------------------------------- money

  /** The money columns of a row: net with refunds taken off, gross and discounts without
      the refunds; and a row of a day and branch without transactions holds none of it. */
  lemma MoneyColumns(facts: map<Group, Fact>, sales: seq<Sale>, customers: seq<CustomerRow>, ledger: seq<LedgerRow>, campaign: map<Day, int>,
                     events: seq<CustomerEvent>, company: int, today: Day, g: Group)
    requires g.company == company && g.day >= today - 365
    requires Sold(sales, company, today, g) || g in Refreshed(facts, sales, customers, ledger, campaign, events, company, today)
    ensures var after := Refreshed(facts, sales, customers, ledger, campaign, events, company, today);
      && g in after
      && after[g].sales.net == Sum(sales, (t: Sale) => if !At(t, g) then 0 else if t.refund then -t.net else t.net)
      && after[g].sales.gross == Sum(sales, (t: Sale) => if At(t, g) && !t.refund then t.gross else 0)
      && after[g].sales.discount == Sum(sales, (t: Sale) => if At(t, g) && !t.refund then t.discount else 0)
      && (!Sold(sales, company, today, g) ==> after[g].sales == SalesColumns(0, 0, 0, 0, 0, 0))
  {
    var after := Refreshed(facts, sales, customers, ledger, campaign, events, company, today);
    var net, gross := (t: Sale) => if !At(t, g) then 0 else if t.refund then -t.net else t.net, (t: Sale) => if At(t, g) && !t.refund then t.gross else 0;
    var discount := (t: Sale) => if At(t, g) && !t.refund then t.discount else 0;
    SoldIs(sales, company, today, g);
    RebuiltRow(facts, sales, customers, ledger, campaign, events, company, today, g);
    SumSame(sales, sales, (t: Sale) => if SaleGroup(t) == g then SignedNet(t) else 0, net);
    SumSame(sales, sales, (t: Sale) => if SaleGroup(t) == g then NetlessGross(t) else 0, gross);
    SumSame(sales, sales, (t: Sale) => if SaleGroup(t) == g then PlainDiscount(t) else 0, discount);
    if !Sold(sales, company, today, g) {
      forall i | 0 <= i < |sales| ensures !At(sales[i], g) {}
      SumZero(sales, net);
      SumZero(sales, gross);
      SumZero(sales, discount);
    }
  }

  /** Discounts are conserved as revenue is: over the rows of the window they add up to
      those of the company's transactions of the year that are no refunds. */
  lemma DiscountConserved(facts: map<Group, Fact>, sales: seq<Sale>, customers: seq<CustomerRow>, ledger: seq<LedgerRow>, campaign: map<Day, int>,
                          events: seq<CustomerEvent>, company: int, today: Day)
    ensures var after := Refreshed(facts, sales, customers, ledger, campaign, events, company, today);
      SumOver(WindowRows(after, company, today), g => if g in after then after[g].sales.discount else 0)
        == Sum(sales, (t: Sale) => if t.company == company && t.day >= today - 365 && !t.sandbox && !t.refund then t.discount else 0)
  {
    var after := Refreshed(facts, sales, customers, ledger, campaign, events, company, today);
    var discount := (c: SalesColumns) => c.discount;
    RebuiltTotal(facts, sales, customers, ledger, campaign, events, company, today, discount, PlainDiscount);
    SumOverSame(WindowRows(after, company, today), g => if g in after then discount(after[g].sales) else 0, g => if g in after then after[g].sales.discount else 0);
    SumSame(sales, sales, (t: Sale) => if InScope(t, company, today) then PlainDiscount(t) else 0,
            (t: Sale) => if t.company == company && t.day >= today - 365 && !t.sandbox && !t.refund then t.discount else 0);
  }

  // ---------------------------------------------------------------- registrations and points

  /** The event is one of a company's day and branch. */
  predicate EventAt(e: CustomerEvent, g: Group) { e.company == g.company && e.day == g.day && e.branch == g.branch }

  predicate Happened(events: seq<CustomerEvent>, g: Group) { exists i :: 0 <= i < |events| && EventAt(events[i], g) }

  /** What the events of a day and branch say: how many of a kind, and their amounts. */
  function CountAt(events: seq<CustomerEvent>, g: Group, kind: Kind): int {
    Sum(events, (e: CustomerEvent) => if EventAt(e, g) && e.kind == kind then 1 else 0)
  }

  function AmountAt(events: seq<CustomerEvent>, g: Group, kind: Kind): int {
    Sum(events, (e: CustomerEvent) => if EventAt(e, g) && e.kind == kind && e.amount.Some? then e.amount.value else 0)
  }

  /** What the customers and the ledger say of a company's day. */
  function SignUps(customers: seq<CustomerRow>, company: int, day: Day): int {
    Sum(customers, (c: CustomerRow) => if c.company == company && c.day == day && !c.deleted then 1 else 0)
  }

  function Points(ledger: seq<LedgerRow>, company: int, day: Day, operation: Book.Operation): int {
    Sum(ledger, (l: LedgerRow) => if l.company == company && l.day == day && l.operation == operation then l.amount else 0)
  }

  lemma FromEvents(events: seq<CustomerEvent>, g: Group, kind: Kind)
    ensures Tally(events, g, kind) == CountAt(events, g, kind) && AmountTally(events, g, kind) == AmountAt(events, g, kind)
  {
    SumSame(events, events, (e: CustomerEvent) => if GroupOf(e) == g && e.kind == kind then 1 else 0,
            (e: CustomerEvent) => if EventAt(e, g) && e.kind == kind then 1 else 0);
    SumSame(events, events, (e: CustomerEvent) => if GroupOf(e) == g && e.kind == kind && e.amount.Some? then e.amount.value else 0,
            (e: CustomerEvent) => if EventAt(e, g) && e.kind == kind && e.amount.Some? then e.amount.value else 0);
  }

  lemma FromTables(customers: seq<CustomerRow>, ledger: seq<LedgerRow>, company: int, today: Day, day: Day, operation: Book.Operation)
    requires day >= today - 365
    ensures RegistrationsOn(customers, company, today, day) == SignUps(customers, company, day)
    ensures PostedOn(ledger, company, today, day, operation) == Points(ledger, company, day, operation)
  {
    SumSame(customers, customers, (c: CustomerRow) => if SignedUp(c, company, today) && c.day == day then 1 else 0,
            (c: CustomerRow) => if c.company == company && c.day == day && !c.deleted then 1 else 0);
    SumSame(ledger, ledger, (l: LedgerRow) => if Posted(l, company, today) && l.day == day && l.operation == operation then l.amount else 0,
            (l: LedgerRow) => if l.company == company && l.day == day && l.operation == operation then l.amount else 0);
  }

  lemma HappenedIs(events: seq<CustomerEvent>, company: int, today: Day, g: Group)
    requires g.company == company && g.day >= today - 365
    ensures g in EventGroups(events, company, today) <==> Happened(events, g)
  {
    if i :| 0 <= i < |events| && EventAt(events[i], g) { assert GroupOf(events[i]) == g; }
    if i :| 0 <= i < |events| && InWindow(GroupOf(events[i]), company, today) && GroupOf(events[i]) == g { assert EventAt(events[i], g); }
  }

  /** Where a row of the window comes from, statement by statement. */
  lemma RowOrigin(facts: map<Group, Fact>, rows: map<Group, Fact>, campaign: map<Day, int>, events: seq<CustomerEvent>, company: int, today: Day, g: Group)
    requires g.company == company && g.day >= today - 365
    ensures var after := Rebuilt(facts, Figures(rows, campaign), events, company, today);
      && (g in after <==> g in rows || g in EventGroups(events, company, today))
      && (g in after ==>
            var base := if g in rows then rows[g] else Fact(0, 0, 0, 0, 0, SalesColumns(0, 0, 0, 0, 0, 0));
            var summed := if g in EventGroups(events, company, today)
                          then base.(registrations := Tally(events, g, Registered), issued := AmountTally(events, g, BonusEarned), redeemed := AmountTally(events, g, BonusSpent))
                          else base;
            after[g] == if g.branch.None? && g.day in campaign then summed.(attributed := campaign[g.day]) else summed)
  {}

  lemma TableRow(sales: seq<Sale>, customers: seq<CustomerRow>, ledger: seq<LedgerRow>, company: int, today: Day, g: Group)
    requires g.company == company && g.day >= today - 365
    ensures var rows := SalesRows(sales, customers, ledger, company, today);
      && (g in rows <==> Sold(sales, company, today, g))
      && (g in rows ==>
            && rows[g].registrations == SignUps(customers, company, g.day) && rows[g].issued == Points(ledger, company, g.day, Book.Credit)
            && rows[g].redeemed == Points(ledger, company, g.day, Book.Debit) && rows[g].expired == Points(ledger, company, g.day, Book.Expire)
            && rows[g].attributed == 0)
  {
    SalesRowsAreDirect(sales, customers, ledger, company, today);
    SoldIs(sales, company, today, g);
    FromTables(customers, ledger, company, today, g.day, Book.Credit);
    FromTables(customers, ledger, company, today, g.day, Book.Debit);
    FromTables(customers, ledger, company, today, g.day, Book.Expire);
  }

  /** A row of the window is there for a day and branch with a transaction or an event.
      Where there are events, registrations and points come from them; where there are
      only transactions, from the company's customers and ledger of the whole day. Points
      expired and campaign revenue are never the events'; the latter goes to the row
      without a branch. */
  lemma RowColumns(facts: map<Group, Fact>, sales: seq<Sale>, customers: seq<CustomerRow>, ledger: seq<LedgerRow>, campaign: map<Day, int>,
                   events: seq<CustomerEvent>, company: int, today: Day, g: Group)
    requires g.company == company && g.day >= today - 365
    ensures var after, sold := Refreshed(facts, sales, customers, ledger, campaign, events, company, today), Sold(sales, company, today, g);
      && (g in after <==> sold || Happened(events, g))
      && (g in after ==>
            && after[g].registrations == (if Happened(events, g) then CountAt(events, g, Registered) else SignUps(customers, company, g.day))
            && after[g].issued == (if Happened(events, g) then AmountAt(events, g, BonusEarned) else Points(ledger, company, g.day, Book.Credit))
            && after[g].redeemed == (if Happened(events, g) then AmountAt(events, g, BonusSpent) else Points(ledger, company, g.day, Book.Debit))
            && after[g].expired == (if sold then Points(ledger, company, g.day, Book.Expire) else 0)
            && after[g].attributed == (if g.branch == None && g.day in campaign then campaign[g.day] else 0))
  {
    RowOrigin(facts, SalesRows(sales, customers, ledger, company, today), campaign, events, company, today, g);
    TableRow(sales, customers, ledger, company, today, g);
    HappenedIs(events, company, today, g);
    FromEvents(events, g, Registered);
    FromEvents(events, g, BonusEarned);
    FromEvents(events, g, BonusSpent);
  }

  /** Rows of other companies, and the company's rows from before the window, stay. */
  lemma OtherRowsStay(facts: map<Group, Fact>, sales: seq<Sale>, customers: seq<CustomerRow>, ledger: seq<LedgerRow>, campaign: map<Day, int>,
                      events: seq<CustomerEvent>, company: int, today: Day, g: Group)
    requires g.company != company || g.day < today - 365
    ensures var after := Refreshed(facts, sales, customers, ledger, campaign, events, company, today);
      (g in after <==> g in facts) && (g in after ==> after[g] == facts[g])
  {
    InsertedWindowed(SalesRows(sales, customers, ledger, company, today), events, company, today);
  }
}
