/** The tables as one mutable store, and the handlers and workers that change it.
    Each method is one or more committed transactions; its postcondition gives the
    whole new store as a function of the old one. */
module BonusStore {
  import opened Prelude
  import opened BonusLots
  import opened BonusRestore
  import opened BonusBook
  import opened BonusInvariants
  import opened BonusLedger
  import opened BonusSweep
  import opened ReferralDesk
  import opened VisitThrottle
  import Wheel = WheelSpins

  // ---------------------------------------------------------------- lot work inside a transaction

  datatype Walked = Walked(lots: seq<Lot>, rows: seq<Redemption>, left: int)

  /** What the loop leaves when it starts from these tables. */
  function Walk(lots: seq<Lot>, rows: seq<Redemption>, order: seq<nat>, left: int, c: CustomerRef, debit: nat, sale: Option<int>): Walked
    requires InRange(order, |lots|)
  {
    var d := DrawFrom(lots, order, left);
    Walked(d.lots, rows + RedemptionRows(d.draws, c, debit, sale), d.left)
  }

  lemma RowsCons(d: Draw, draws: seq<Draw>, c: CustomerRef, debit: nat, sale: Option<int>)
    ensures RedemptionRows([d] + draws, c, debit, sale)
         == [Redemption(c, d.lot, debit, sale, d.amount, 0)] + RedemptionRows(draws, c, debit, sale)
  {}

  lemma WalkTurn(lots: seq<Lot>, rows: seq<Redemption>, order: seq<nat>, k: nat, left: int, c: CustomerRef, debit: nat, sale: Option<int>)
    requires InRange(order, |lots|) && k < |order| && left != 0
    ensures var i := order[k];
      var used := Min(left, lots[i].remaining);
      Walk(lots, rows, order[k..], left, c, debit, sale)
        == Walk(lots[i := SpendFrom(lots[i], used)], rows + [Redemption(c, i, debit, sale, used, 0)], order[k + 1..], left - used, c, debit, sale)
  {
    var i := order[k];
    var used := Min(left, lots[i].remaining);
    DrawTurn(lots, order, k, left);
    var rest := DrawFrom(lots[i := SpendFrom(lots[i], used)], order[k + 1..], left - used);
    RowsCons(Draw(i, used), rest.draws, c, debit, sale);
  }

  /** The loop over the lots the query returned. */
  method WalkLots(lots: seq<Lot>, rows: seq<Redemption>, order: seq<nat>, c: CustomerRef, amount: nat, debit: nat, sale: Option<int>)
    returns (lots': seq<Lot>, rows': seq<Redemption>, left: int)
    requires InRange(order, |lots|)
    ensures Walked(lots', rows', left) == Walk(lots, rows, order, amount, c, debit, sale)
    ensures left >= 0
  {
    lots', rows', left := lots, rows, amount;
    var k := 0;
    while k < |order| && left != 0
      invariant 0 <= k <= |order| && left >= 0 && |lots'| == |lots|
      invariant Walk(lots', rows', order[k..], left, c, debit, sale) == Walk(lots, rows, order, amount, c, debit, sale)
    {
      var i := order[k];
      var used := Min(left, lots'[i].remaining);
      WalkTurn(lots', rows', order, k, left, c, debit, sale);
      lots' := lots'[i := SpendFrom(lots'[i], used)];
      rows' := rows' + [Redemption(c, i, debit, sale, used, 0)];
      left, k := left - used, k + 1;
    }
  }

  /** ConsumeBonusLots: `ok` is false exactly for the insufficient-lots error, whose
      transaction the caller rolls back. */
  method ConsumeBonusLots(lots: seq<Lot>, rows: seq<Redemption>, c: CustomerRef, amount: nat, now: Moment, debit: nat, sale: Option<int>)
    returns (ok: bool, lots': seq<Lot>, rows': seq<Redemption>)
    ensures ok <==> amount <= Sum(lots, SpendableOf(c, now))
    ensures ok <==> Consume(lots, c, amount, now).Some?
    ensures ok ==> lots' == Consume(lots, c, amount, now).value.lots
    ensures ok ==> rows' == rows + RedemptionRows(Consume(lots, c, amount, now).value.draws, c, debit, sale)
    ensures !ok ==> lots' == lots && rows' == rows
  {
    ConsumeExact(lots, c, amount, now);
    var left;
    lots', rows', left := WalkLots(lots, rows, FifoOrder(lots, |lots|, c, now), c, amount, debit, sale);
    ok := left == 0;
    if !ok {
      lots', rows' := lots, rows;
    }
  }

  /** restoreBonusLots over the rows its query returned. */
  method RestoreBonusLots(
    lots: seq<Lot>, rows: seq<Redemption>, listed: seq<nat>, amount: nat, now: Moment, ghost c: CustomerRef, ghost sale: int)
    returns (lots': seq<Lot>, rows': seq<Redemption>, left: int)
    requires ReversibleListing(lots, rows, listed, c, sale)
    ensures Restoration(lots', rows', left) == RestoreFrom(lots, rows, listed, amount, now)
    ensures forall i :: 0 <= i < |lots| ==>
              lots'[i].remaining + Sum(rows', OutstandingOn(i)) == lots[i].remaining + Sum(rows, OutstandingOn(i))
    ensures left == Max(0, amount - ListedOutstanding(rows, listed))
  {
    ghost var whole := RestoreFrom(lots, rows, listed, amount, now);
    lots', rows', left := lots, rows, amount;
    var k := 0;
    while k < |listed| && left != 0
      invariant 0 <= k <= |listed| && |rows'| == |rows| && |lots'| == |lots|
      invariant forall m :: 0 <= m < |rows'| ==> rows'[m].lot < |lots|
      invariant RestoreFrom(lots', rows', listed[k..], left, now) == whole
    {
      var row := rows'[listed[k]];
      var back := Min(left, Outstanding(row));
      assert listed[k..][1..] == listed[k + 1..];
      rows' := rows'[listed[k] := row.(restored := row.restored + back)];
      lots' := lots'[row.lot := ReturnTo(lots'[row.lot], back, now)];
      left, k := left - back, k + 1;
    }
    forall i | 0 <= i < |lots|
      ensures whole.lots[i].remaining + Sum(whole.rows, OutstandingOn(i)) == lots[i].remaining + Sum(rows, OutstandingOn(i))
    {
      RestoreBalancesLot(lots, rows, listed, amount, now, i);
    }
    RestoreLeft(lots, rows, listed, amount, now, c, sale);
  }

  // ---------------------------------------------------------------- worker passes

  /** The birthday worker over its candidate list, one transaction each. */
  ghost function BirthdayPass(b: Book, items: seq<(CustomerRef, int)>, year: int, now: Moment): Book {
    if items == [] then b
    else
      var m := |items| - 1;
      Next(BirthdayPass(b, items[..m], year, now), BirthdayBonus(items[m].0, items[m].1, year, now))
  }

  /** The referral worker over its candidate list. */
  function RewardPass(d: Desk, items: seq<int>, now: Moment): (r: Desk)
    requires forall i :: 0 <= i < |items| ==> items[i] in d.rewards
    ensures r.rewards.Keys == d.rewards.Keys
  {
    if items == [] then d
    else
      var m := |items| - 1;
      PayReward(RewardPass(d, items[..m], now), items[m], now)
  }

  /** Running the same list again pays nothing. */
  lemma RewardPassTwice(d: Desk, r: int, now: Moment, later: Moment)
    requires DeskOk(d) && r in d.rewards
    requires Commits(d, r)
    ensures PayReward(PayReward(d, r, now), r, later).book == PayReward(d, r, now).book
  {
    PayKeepsDesk(d, r, now);
    assert RewardOk(d, r);
    assert RewardOk(PayReward(d, r, now), r);
  }

  ghost predicate DeskValid(d: Desk) { Accounts(d.book) && DeskOk(d) }

  lemma BookStepKeepsValid(d: Desk, a: Action)
    requires DeskValid(d) && !a.ReferralBonus?
    ensures DeskValid(d.(book := Next(d.book, a)))
  {
    StepKeepsAccounts(d.book, a);
    BookStepKeepsDesk(d, a);
  }

  /** The same for a book given by what the step leaves. */
  lemma BookKeepsValid(d: Desk, a: Action, book: Book)
    requires DeskValid(d) && !a.ReferralBonus? && book == Next(d.book, a)
    ensures DeskValid(d.(book := book))
  {
    BookStepKeepsValid(d, a);
  }

  function AfterManual(b: Book, c: CustomerRef, credit: bool, amount: int, now: Moment): Book {
    if credit then AfterVisit(b, c, amount, now) else AfterManualDebit(b, c, amount, now)
  }

  lemma ManualKeepsValid(d: Desk, c: CustomerRef, credit: bool, amount: int, now: Moment)
    requires DeskValid(d)
    ensures DeskValid(d.(book := AfterManual(d.book, c, credit, amount, now)))
  {
    BookKeepsValid(d, if credit then ManualCredit(c, amount, now) else ManualDebit(c, amount, now), AfterManual(d.book, c, credit, amount, now));
  }

  lemma SweepKeepsValid(d: Desk, tenant: Option<int>, now: Moment)
    requires DeskValid(d)
    ensures DeskValid(d.(book := Sweep(d.book, tenant, now)))
  {
    BookKeepsValid(d, ExpirySweep(tenant, now), Sweep(d.book, tenant, now));
  }

  lemma SweepLeavesNothingDue(b: Book, tenant: Option<int>, now: Moment)
    requires Accounts(b)
    ensures var swept := Sweep(b, tenant, now);
      && (forall c :: c in b.points ==> swept.points[c] == b.points[c] - DueTotal(b, c, tenant, now))
      && (forall i :: 0 <= i < |swept.lots| && InTenant(swept.lots[i].owner, tenant) ==> !Due(swept.lots[i], now))
  {
    forall c | c in b.points ensures SweptPoints(b, tenant, now)[c] == b.points[c] - DueTotal(b, c, tenant, now) {
      SweepTakesWhatIsDue(b, c, tenant, now);
    }
  }

  lemma WheelKeepsValid(d: Desk, c: CustomerRef, prize: int, now: Moment)
    requires DeskValid(d)
    ensures DeskValid(d.(book := AfterWheel(d.book, c, prize, now)))
  {
    BookKeepsValid(d, WheelSpin(c, prize, now), AfterWheel(d.book, c, prize, now));
  }

  lemma {:induction false} BirthdayPassKeepsValid(d: Desk, items: seq<(CustomerRef, int)>, year: int, now: Moment)
    requires DeskValid(d)
    ensures DeskValid(d.(book := BirthdayPass(d.book, items, year, now)))
    decreases |items|
  {
    if items == [] {
      assert d.(book := d.book) == d;
    } else {
      var m := |items| - 1;
      BirthdayPassKeepsValid(d, items[..m], year, now);
      BookStepKeepsValid(d.(book := BirthdayPass(d.book, items[..m], year, now)), BirthdayBonus(items[m].0, items[m].1, year, now));
    }
  }

  lemma PayKeepsValid(d: Desk, r: int, now: Moment)
    requires DeskValid(d) && r in d.rewards
    ensures DeskValid(PayReward(d, r, now))
  {
    PayKeepsDesk(d, r, now);
    ReferralKeeps(d.book, d.rewards[r].beneficiary, d.rewards[r].amount, r, now);
  }

  lemma {:induction false} RewardPassKeepsValid(d: Desk, items: seq<int>, now: Moment)
    requires DeskValid(d) && forall i :: 0 <= i < |items| ==> items[i] in d.rewards
    ensures DeskValid(RewardPass(d, items, now))
    decreases |items|
  {
    if items != [] {
      var m := |items| - 1;
      RewardPassKeepsValid(d, items[..m], now);
      PayKeepsValid(RewardPass(d, items[..m], now), items[m], now);
    }
  }

  datatype VisitOutcome = VisitRecorded | CustomerNotFound | DuplicateVisit | VisitLimitReached | VisitFailed
  datatype SpinOutcome = PrizeWon(prize: nat) | SpinNotAvailable | SpinFailed

  const PRIZES: seq<nat> := [20, 20, 50, 0, 0]
  datatype BonusOutcome =
    | BonusDone | BonusCustomerNotFound | InsufficientPoints | BonusFailed
    | BonusInvalid | ReasonRequired | ApprovalRequested | DuplicateOperation | BranchNotFound

  predicate RequiresManagerApproval(employee: bool, credit: bool, amount: int) {
    employee && if credit then amount > 10000 else amount > 5000
  }

  function TransactionOutcome(b: Book, c: CustomerRef, credit: bool, amount: int, now: Moment, restOk: bool): BonusOutcome {
    if !Present(b, c) then BonusCustomerNotFound
    else if !credit && amount > b.points[c] then InsufficientPoints
    else if !restOk then BonusFailed
    else if credit && b.points[c] + amount > INT4_MAX then BonusFailed
    else if !credit && amount > Sum(b.lots, SpendableOf(c, now)) then BonusFailed
    else BonusDone
  }

  class Store {
    var points: map<CustomerRef, int>
    var archived: set<CustomerRef>
    var entries: seq<Entry>
    var lots: seq<Lot>
    var redemptions: seq<Redemption>
    var loyaltyEvents: set<Key>
    var visits: seq<VisitRow>
    var rewards: map<int, Reward>
    var attributions: map<int, AttributionStatus>
    var spins: seq<Wheel.Spin>

    function TheBook(): Book
      reads this
    {
      Book(points, archived, entries, lots, redemptions, loyaltyEvents)
    }

    function TheDesk(): Desk
      reads this
    {
      Desk(TheBook(), rewards, attributions)
    }

    ghost predicate Valid()
      reads this
    {
      DeskValid(TheDesk()) && Spaced(visits) && Limited(visits)
    }

    constructor ()
      ensures Valid() && TheDesk() == EmptyDesk && visits == [] && spins == []
    {
      points, archived, entries, lots, redemptions, loyaltyEvents := map[], {}, [], [], [], {};
      visits, rewards, attributions, spins := [], map[], map[], [];
    }

    /** The credit shared by the handlers: balance, ledger row, lot. */
    method CreditCustomer(c: CustomerRef, amount: int, key: Option<Key>, now: Moment)
      requires MayCredit(TheBook(), c, amount, key)
      modifies this`points, this`entries, this`lots
      ensures TheBook() == old(PostCredit(TheBook(), c, amount, key, now))
    {
      var balance := points[c] + amount;
      points := points[c := balance];
      lots := lots + [IssuedLot(c, |entries|, amount, now)];
      entries := entries + [Entry(c, Credit, amount, balance, key)];
    }

    /** The debit shared by the handlers; false leaves the store as it was. */
    method DebitCustomer(c: CustomerRef, amount: int, now: Moment) returns (ok: bool)
      requires Present(TheBook(), c) && 0 < amount <= points[c]
      modifies this`points, this`entries, this`lots, this`redemptions
      ensures ok <==> amount <= Sum(old(lots), SpendableOf(c, now))
      ensures TheBook() == old(AfterManualDebit(TheBook(), c, amount, now))
      ensures !ok ==> TheBook() == old(TheBook())
    {
      var lots', rows';
      ok, lots', rows' := ConsumeBonusLots(lots, redemptions, c, amount, now, |entries|, None);
      if ok {
        var balance := points[c] - amount;
        points := points[c := balance];
        entries := entries + [Entry(c, Debit, amount, balance, None)];
        lots, redemptions := lots', rows';
      }
    }

    /** createVisit after the branch check; `restOk` says whether the reward evaluation,
        the customer events and the commit go through. */
    method CreateVisit(c: CustomerRef, earned: int, now: Moment, restOk: bool) returns (outcome: VisitOutcome)
      requires Valid()
      modifies this`points, this`entries, this`lots, this`visits
      ensures Valid()
      ensures outcome == old(
        if c !in points || c in archived then CustomerNotFound
        else if exists i :: 0 <= i < |visits| && visits[i].customer == c && visits[i].at > now - 120_000_000 then DuplicateVisit
        else if |set i | 0 <= i < |visits| && visits[i].customer == c && visits[i].at > now - 86_400_000_000| >= 5 then VisitLimitReached
        else if !restOk || earned <= 0 || points[c] + earned > 2147483647 then VisitFailed
        else VisitRecorded)
      ensures TheBook() == if outcome == VisitRecorded then old(AfterVisit(TheBook(), c, earned, now)) else old(TheBook())
      ensures visits == if outcome == VisitRecorded then old(visits) + [VisitRow(c, now, true)] else old(visits)
    {
      if c !in points || c in archived {
        return CustomerNotFound;
      }
      if Duplicate(visits, c, now) {
        return DuplicateVisit;
      }
      AfterOfCounts(visits, c, now - 86_400_000_000);
      if VisitsToday(visits, c, now) >= VISIT_LIMIT {
        return VisitLimitReached;
      }
      if !restOk || !MayCredit(TheBook(), c, earned, None) {
        return VisitFailed;
      }
      ManualKeepsValid(TheDesk(), c, true, earned, now);
      AdmittedKeeps(visits, c, now);
      CreditCustomer(c, earned, None, now);
      visits := visits + [VisitRow(c, now, true)];
      outcome := VisitRecorded;
    }

    /** The transaction of customerBonus: which outcome, and the new book. */
    method ManualTransaction(c: CustomerRef, credit: bool, amount: int, now: Moment, restOk: bool) returns (outcome: BonusOutcome)
      requires amount > 0
      modifies this`points, this`entries, this`lots, this`redemptions
      ensures outcome == old(TransactionOutcome(TheBook(), c, credit, amount, now, restOk))
      ensures TheBook() == if outcome == BonusDone then old(AfterManual(TheBook(), c, credit, amount, now)) else old(TheBook())
    {
      if c !in points || c in archived {
        return BonusCustomerNotFound;
      }
      if !credit && points[c] < amount {
        return InsufficientPoints;
      }
      if !restOk {
        return BonusFailed;
      }
      if credit {
        if points[c] + amount > INT4_MAX {
          return BonusFailed;
        }
        CreditCustomer(c, amount, None, now);
      } else {
        var ok := DebitCustomer(c, amount, now);
        if !ok {
          return BonusFailed;
        }
      }
      outcome := BonusDone;
    }

    /** The same from a valid store, which it leaves valid. */
    method ValidTransaction(c: CustomerRef, credit: bool, amount: int, now: Moment, restOk: bool) returns (outcome: BonusOutcome)
      requires amount > 0 && Valid()
      modifies this`points, this`entries, this`lots, this`redemptions
      ensures Valid()
      ensures outcome == old(TransactionOutcome(TheBook(), c, credit, amount, now, restOk))
      ensures TheBook() == if outcome == BonusDone then old(AfterManual(TheBook(), c, credit, amount, now)) else old(TheBook())
    {
      ghost var before := TheDesk();
      ManualKeepsValid(before, c, credit, amount, now);
      outcome := ManualTransaction(c, credit, amount, now, restOk);
      assert TheDesk() == before.(book := if outcome == BonusDone then AfterManual(before.book, c, credit, amount, now) else before.book);
    }

    /** customerBonus: the gates in order, then the transaction. A debit the balance
        covers still fails when the spendable lots do not. `recent` and `branch` are
        what the queries before the transaction find. */
    method ManualBonus(c: CustomerRef, employee: bool, credit: bool, amount: int, reason: bool, recent: bool, branch: bool,
                       now: Moment, restOk: bool)
      returns (outcome: BonusOutcome)
      requires Valid()
      modifies this`points, this`entries, this`lots, this`redemptions
      ensures Valid()
      ensures outcome == (
        if amount <= 0 then BonusInvalid
        else if !reason then ReasonRequired
        else if employee && ((credit && amount > 10000) || (!credit && amount > 5000)) then ApprovalRequested
        else if recent then DuplicateOperation
        else if !branch then BranchNotFound
        else old(TransactionOutcome(TheBook(), c, credit, amount, now, restOk)))
      ensures TheBook() == if outcome == BonusDone then old(AfterManual(TheBook(), c, credit, amount, now)) else old(TheBook())
    {
      if amount <= 0 {
        return BonusInvalid;
      }
      if !reason {
        return ReasonRequired;
      }
      if RequiresManagerApproval(employee, credit, amount) {
        return ApprovalRequested;
      }
      if recent {
        return DuplicateOperation;
      }
      if !branch {
        return BranchNotFound;
      }
      outcome := ValidTransaction(c, credit, amount, now, restOk);
    }

    /** The transaction of customerWheelSpin: a prize of points is a credit. */
    method SpinTransaction(c: CustomerRef, prize: nat, now: Moment) returns (ok: bool)
      modifies this`points, this`entries, this`lots, this`spins
      ensures ok <==> prize == 0 || old(MayCredit(TheBook(), c, prize, None))
      ensures TheBook() == if ok then old(AfterWheel(TheBook(), c, prize, now)) else old(TheBook())
      ensures spins == if ok then old(spins) + [Wheel.Spin(c, now, prize)] else old(spins)
    {
      if prize > 0 {
        if !MayCredit(TheBook(), c, prize, None) {
          return false;
        }
        CreditCustomer(c, prize, None, now);
      }
      spins := spins + [Wheel.Spin(c, now, prize)];
      ok := true;
    }

    /** customerWheelSpin with the random byte drawn: a won prize is a credit, a spin
        without points only takes its place in the week. */
    method CustomerWheelSpin(c: CustomerRef, roll: nat, now: Moment) returns (outcome: SpinOutcome)
      requires Valid()
      modifies this`points, this`entries, this`lots, this`spins
      ensures Valid()
      ensures var prize := if roll % 5 < 2 then 20 else if roll % 5 == 2 then 50 else 0;
        && outcome == old(
             if exists i :: 0 <= i < |spins| && spins[i].owner == c && spins[i].at > now - 604_800_000_000 then SpinNotAvailable
             else if prize > 0 && (c !in points || points[c] + prize > 2147483647) then SpinFailed
             else PrizeWon(prize))
        && TheBook() == (if outcome.PrizeWon? then old(AfterWheel(TheBook(), c, prize, now)) else old(TheBook()))
      ensures spins == if outcome.PrizeWon? then old(spins) + [Wheel.Spin(c, now, outcome.prize)] else old(spins)
    {
      if Wheel.SpunThisWeek(spins, c, now) {
        return SpinNotAvailable;
      }
      WheelKeepsValid(TheDesk(), c, PRIZES[roll % 5], now);
      var ok := SpinTransaction(c, PRIZES[roll % 5], now);
      outcome := if ok then PrizeWon(PRIZES[roll % 5]) else SpinFailed;
    }

    /** The one statement of expireBonusLots, its parts in order; each reads the tables
        as they were before. The count is the lots the statement changed. */
    method SweepStatement(tenant: Option<int>, now: Moment) returns (count: nat)
      modifies this`points, this`entries, this`lots
      ensures TheBook() == old(Sweep(TheBook(), tenant, now))
      ensures count == |set i | 0 <= i < |old(lots)| && old(lots)[i] != lots[i]|
    {
      ghost var before := TheBook();
      var owners, due := GroupDue(lots, tenant, now);
      DueOwnersAre(lots, tenant, now);
      points, entries := LowerBalances(before, points, entries, owners, due, tenant, now);
      ChangedAreDue(lots, tenant, now);
      lots, count := CloseDue(lots, tenant, now);
    }

    /** expireBonusLots: balances fall by what was due, and nothing is due any more. */
    method ExpireBonusLots(tenant: Option<int>, now: Moment) returns (count: nat)
      requires Valid()
      modifies this`points, this`entries, this`lots
      ensures Valid()
      ensures TheBook() == old(Sweep(TheBook(), tenant, now))
      ensures forall c :: c in old(points) ==> points[c] == old(points)[c] - old(DueTotal(TheBook(), c, tenant, now))
      ensures forall i :: 0 <= i < |lots| && InTenant(lots[i].owner, tenant) ==> !Due(lots[i], now)
      ensures count == |set i | 0 <= i < |old(lots)| && old(lots)[i] != lots[i]|
    {
      SweepKeepsValid(TheDesk(), tenant, now);
      SweepLeavesNothingDue(TheBook(), tenant, now);
      count := SweepStatement(tenant, now);
    }

    /** processBirthdayBonuses over the candidates its query found. */
    method ProcessBirthdayBonuses(items: seq<(CustomerRef, int)>, year: int, now: Moment) returns (processed: nat)
      requires Valid()
      modifies this`points, this`entries, this`lots, this`loyaltyEvents
      ensures Valid()
      ensures TheBook() == old(BirthdayPass(TheBook(), items, year, now))
      ensures processed == |entries| - |old(entries)|
    {
      processed := 0;
      for k := 0 to |items|
        invariant TheBook() == old(BirthdayPass(TheBook(), items[..k], year, now))
        invariant processed == |entries| - |old(entries)|
      {
        var c, amount := items[k].0, items[k].1;
        var key := BirthdayKey(c, year);
        assert items[..k + 1][..k] == items[..k];
        if key !in loyaltyEvents && MayCredit(TheBook(), c, amount, Some(key)) {
          CreditCustomer(c, amount, Some(key), now);
          loyaltyEvents := loyaltyEvents + {key};
          processed := processed + 1;
        }
      }
      assert items[..|items|] == items;
      assert Valid() by {
        BirthdayPassKeepsValid(old(TheDesk()), items, year, now);
      }
    }

    /** processReferralRewards over a candidate list that may be stale. */
    method ProcessReferralRewards(items: seq<int>, now: Moment) returns (issued: nat)
      requires Valid() && forall i :: 0 <= i < |items| ==> items[i] in rewards
      modifies this`points, this`entries, this`lots, this`rewards, this`attributions
      ensures Valid()
      ensures TheDesk() == old(RewardPass(TheDesk(), items, now))
      ensures issued <= |items| && |entries| - |old(entries)| <= issued
    {
      issued := 0;
      for k := 0 to |items|
        invariant rewards.Keys == old(rewards).Keys
        invariant TheDesk() == old(RewardPass(TheDesk(), items[..k], now))
        invariant issued <= k && |entries| - |old(entries)| <= issued
      {
        var r := items[k];
        assert items[..k + 1][..k] == items[..k];
        var x := rewards[r];
        var key := PayKey(r, x);
        if x.beneficiary in points && x.beneficiary !in archived && x.amount > 0 {
          var paid := KeyUsed(entries, x.beneficiary.company, key);
          if paid || MayCredit(TheBook(), x.beneficiary, x.amount, key) {
            var link := if paid then None else Some(|entries|);
            if !paid {
              CreditCustomer(x.beneficiary, x.amount, key, now);
            }
            rewards := rewards[r := x.(status := IssuedReward, entry := link)];
            if x.attribution in attributions && !StillPending(rewards, x.attribution) {
              attributions := attributions[x.attribution := Rewarded];
            }
            issued := issued + 1;
          }
        }
      }
      assert items[..|items|] == items;
      assert Valid() by {
        RewardPassKeepsValid(old(TheDesk()), items, now);
      }
    }
  }

  // ---------------------------------------------------------------- balance against spendable points

  /** A debit within the balance commits exactly when the lots that are active and
      not past their date cover it. */
  lemma DebitCommitsIffSpendable(b: Book, c: CustomerRef, amount: int, now: Moment)
    requires Accounts(b) && Present(b, c) && 0 < amount <= b.points[c]
    ensures Next(b, ManualDebit(c, amount, now)) != b <==> amount <= Sum(b.lots, SpendableOf(c, now))
  {
    ConsumeExact(b.lots, c, amount, now);
  }

  function LapsingLot(c: CustomerRef): Lot { IssuedLot(c, 0, 100, 0).(expiresAt := Some(5)) }

  /** A welcome bonus of 100 points that lapses at 5. */
  const LapsingRun: CustomerRef -> seq<Action> := c => [Register(c, 100, 0), SetExpiry(0, 5)]

  lemma LapsingBook(c: CustomerRef)
    ensures Run(LapsingRun(c)).lots == [LapsingLot(c)] && Run(LapsingRun(c)).points == map[c := 100] && Run(LapsingRun(c)).archived == {}
  {
    var first := [Register(c, 100, 0)];
    assert first[..0] == [] && LapsingRun(c)[..1] == first;
    assert Run(first) == AfterRegister(EmptyBook, c, 100, 0);
  }

  /** Between a lot's expiry and the next sweep the balance shows points that no
      debit can take. */
  lemma BalanceMayNotBeSpendable(c: CustomerRef)
    ensures Balance(Run(LapsingRun(c)), c) == 100
    ensures Next(Run(LapsingRun(c)), ManualDebit(c, 1, 5)) == Run(LapsingRun(c))
  {
    LapsingBook(c);
    RunKeepsAccounts(LapsingRun(c));
    assert [LapsingLot(c)][..0] == [];
    assert Sum([LapsingLot(c)], SpendableOf(c, 5)) == 0;
    DebitCommitsIffSpendable(Run(LapsingRun(c)), c, 1, 5);
  }
}
