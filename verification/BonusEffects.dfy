/** What debits, credits, refunds and sweeps do to the tables, column by column:
    when each transaction goes through, and every value it leaves behind. */
module BonusEffects {
  import opened Prelude
  import opened BonusLots
  import opened BonusRestore
  import opened BonusBook
  import opened BonusInvariants
  import opened BonusLedger
  import opened BonusReports
  import opened BonusCauses

  /** What a customer can spend at a time. */
  function Available(lots: seq<Lot>, c: CustomerRef, now: Moment): int {
    Sum(lots, (l: Lot) =>
      if && l.owner == c && (l.status == Pending || l.status == Active) && l.remaining > 0
         && l.activatesAt <= now && (l.expiresAt.None? || now < l.expiresAt.value)
      then l.remaining else 0)
  }

  lemma AvailableIs(lots: seq<Lot>, c: CustomerRef, now: Moment)
    ensures Available(lots, c, now) == Sum(lots, SpendableOf(c, now))
  {
    SumSame(lots, lots, (l: Lot) =>
      if && l.owner == c && (l.status == Pending || l.status == Active) && l.remaining > 0
         && l.activatesAt <= now && (l.expiresAt.None? || now < l.expiresAt.value)
      then l.remaining else 0, SpendableOf(c, now));
  }

  // ---------------------------------------------------------------- debits

  /** Of two lots a debit may draw on, the one that became active earlier gives all it
      has before the other gives a point; then the one that expires earlier, no expiry
      counting as last; then the one issued earlier; then the one with the smaller id. */
  lemma OldestGivesFirst(lots: seq<Lot>, c: CustomerRef, amount: nat, now: Moment, i: nat, j: nat)
    requires Consume(lots, c, amount, now).Some? && i < |lots| && j < |lots|
    requires lots[i].owner == c && (lots[i].status == Pending || lots[i].status == Active) && lots[i].remaining > 0
    requires lots[i].activatesAt <= now && (lots[i].expiresAt.None? || now < lots[i].expiresAt.value)
    requires lots[j].owner == c && (lots[j].status == Pending || lots[j].status == Active) && lots[j].remaining > 0
    requires lots[j].activatesAt <= now && (lots[j].expiresAt.None? || now < lots[j].expiresAt.value)
    requires
      || lots[i].activatesAt < lots[j].activatesAt
      || (lots[i].activatesAt == lots[j].activatesAt && lots[i].expiresAt.Some?
          && (lots[j].expiresAt.None? || lots[i].expiresAt.value < lots[j].expiresAt.value))
      || (lots[i].activatesAt == lots[j].activatesAt && lots[i].expiresAt == lots[j].expiresAt && lots[i].issuedAt < lots[j].issuedAt)
      || (lots[i].activatesAt == lots[j].activatesAt && lots[i].expiresAt == lots[j].expiresAt && lots[i].issuedAt == lots[j].issuedAt && i < j)
    ensures var after := Consume(lots, c, amount, now).value.lots;
      |after| == |lots| && (after[i].remaining > 0 ==> after[j] == lots[j])
  {
    ConsumeOldestFirst(lots, c, amount, now, i, j);
    ConsumeColumns(lots, c, amount, now, j);
  }

  lemma {:induction false} DrawColumns(lots: seq<Lot>, order: seq<nat>, left: nat, c: CustomerRef, now: Moment, i: nat)
    requires AllSpendable(lots, order, c, now) && i < |lots|
    ensures var l := DrawFrom(lots, order, left).lots[i];
      || l == lots[i]
      || (&& i in order && 0 <= l.remaining < lots[i].remaining
          && l == lots[i].(remaining := l.remaining, status := if l.remaining == 0 then Redeemed else Active))
    decreases |order|
  {
    if order != [] && left != 0 {
      var h := order[0];
      var used := Min(left, lots[h].remaining);
      SpendStep(lots, order, used, c, now);
      if i == h {
        DrawElsewhere(lots[h := SpendFrom(lots[h], used)], order[1..], left - used, i);
      } else {
        DrawColumns(lots[h := SpendFrom(lots[h], used)], order[1..], left - used, c, now, i);
      }
    }
  }

  /** A debit leaves a lot as it was, or takes points from one that may be spent: such a
      lot is `active` while something is left and `redeemed` when nothing is, and keeps
      every other column. */
  lemma ConsumeColumns(lots: seq<Lot>, c: CustomerRef, amount: nat, now: Moment, i: nat)
    requires Consume(lots, c, amount, now).Some? && i < |lots|
    ensures var after := Consume(lots, c, amount, now).value.lots;
      && |after| == |lots|
      && (after[i] == lots[i]
          || (&& lots[i].owner == c && (lots[i].status == Pending || lots[i].status == Active)
              && lots[i].activatesAt <= now && (lots[i].expiresAt.None? || now < lots[i].expiresAt.value)
              && 0 <= after[i].remaining < lots[i].remaining
              && after[i] == lots[i].(remaining := after[i].remaining, status := if after[i].remaining == 0 then Redeemed else Active)))
  {
    var order := FifoOrder(lots, |lots|, c, now);
    ListedSpendable(lots, order, c, now);
    DrawColumns(lots, order, amount, c, now, i);
  }

  /** A debit goes through exactly when it is covered by what can be spent, takes that
      much out of the customer's pending and active lots, and nothing out of others'. */
  lemma ConsumeTakes(lots: seq<Lot>, c: CustomerRef, amount: nat, now: Moment, d: CustomerRef)
    ensures Consume(lots, c, amount, now).Some? <==> amount <= Available(lots, c, now)
    ensures Consume(lots, c, amount, now).Some? ==>
      Sum(Consume(lots, c, amount, now).value.lots, (l: Lot) => if l.owner == d && (l.status == Pending || l.status == Active) then l.remaining else 0)
        == Sum(lots, (l: Lot) => if l.owner == d && (l.status == Pending || l.status == Active) then l.remaining else 0) - (if d == c then amount else 0)
  {
    var live := (l: Lot) => if l.owner == d && (l.status == Pending || l.status == Active) then l.remaining else 0;
    AvailableIs(lots, c, now);
    ConsumeExact(lots, c, amount, now);
    if Consume(lots, c, amount, now).Some? {
      if d != c { ConsumeOthers(lots, c, amount, now, d); }
      var after := Consume(lots, c, amount, now).value.lots;
      SumSame(lots, lots, live, LiveOf(d));
      SumSame(after, after, live, LiveOf(d));
    }
  }

  /** And every point it takes from a lot is on a redemption row of that lot, which names
      the customer, the ledger row and the sale, and has given nothing back yet. */
  lemma ConsumeRows(lots: seq<Lot>, c: CustomerRef, amount: nat, now: Moment, debit: nat, sale: Option<int>, i: nat)
    requires Consume(lots, c, amount, now).Some? && i < |lots|
    ensures var r := Consume(lots, c, amount, now).value;
      var rows := RedemptionRows(r.draws, c, debit, sale);
      && (forall k :: 0 <= k < |rows| ==>
            rows[k].owner == c && rows[k].debit == debit && rows[k].sale == sale && rows[k].redeemed > 0 && rows[k].restored == 0)
      && |r.lots| == |lots|
      && Sum(rows, (x: Redemption) => if x.lot == i then x.redeemed else 0) == lots[i].remaining - r.lots[i].remaining
  {
    var r := Consume(lots, c, amount, now).value;
    var rows := RedemptionRows(r.draws, c, debit, sale);
    ConsumeDraws(lots, c, amount, now);
    DrawsAccountForLot(lots, FifoOrder(lots, |lots|, c, now), amount, i);
    RowsCarryDraws(r.draws, c, debit, sale, i);
    SumSame(rows, rows, (x: Redemption) => if x.lot == i then x.redeemed else 0, OutstandingOn(i));
  }

  // ---------------------------------------------------------------- one credit, one debit

  /** The tables after one credit: the balance, a ledger row with it, and a lot of the
      whole amount at face value that is active from now on and does not expire. */
  ghost predicate Credited(b: Book, t: Book, c: CustomerRef, amount: int, key: Option<Key>, now: Moment) {
    && c in b.points && t.points == b.points[c := b.points[c] + amount]
    && t.entries == b.entries + [Entry(c, Credit, amount, b.points[c] + amount, key)]
    && t.lots == b.lots + [Lot(c, Some(|b.entries|), amount, amount, amount as real, now, now, None, Active)]
    && t.redemptions == b.redemptions && t.archived == b.archived
  }

  /** The tables after one debit; what becomes of the lots is `Consume`. */
  ghost predicate Debited(b: Book, t: Book, c: CustomerRef, amount: int, key: Option<Key>, sale: Option<int>, now: Moment) {
    && c in b.points && t.points == b.points[c := b.points[c] - amount]
    && t.entries == b.entries + [Entry(c, Debit, amount, b.points[c] - amount, key)]
    && Consume(b.lots, c, amount, now).Some? && t.lots == Consume(b.lots, c, amount, now).value.lots
    && t.redemptions == b.redemptions + RedemptionRows(Consume(b.lots, c, amount, now).value.draws, c, |b.entries|, sale)
    && t.archived == b.archived && t.loyaltyEvents == b.loyaltyEvents
  }

  ghost predicate Unused(entries: seq<Entry>, company: int, key: Key) {
    forall i :: 0 <= i < |entries| && entries[i].owner.company == company ==> entries[i].key != Some(key)
  }

  /** When the constraints let a credit through. */
  ghost predicate CreditFits(b: Book, c: CustomerRef, amount: int, key: Option<Key>) {
    c in b.points && 0 < amount <= 2147483647 - b.points[c] && (key.Some? ==> Unused(b.entries, c.company, key.value))
  }

  /** When the balance, the constraints and the lots let a debit through. */
  ghost predicate DebitFits(b: Book, c: CustomerRef, amount: int, key: Option<Key>, now: Moment) {
    && c in b.points && 0 < amount <= b.points[c] && amount <= Available(b.lots, c, now)
    && (key.Some? ==> Unused(b.entries, c.company, key.value))
  }

  lemma CreditGoesThrough(b: Book, c: CustomerRef, amount: int, key: Option<Key>, now: Moment)
    ensures MayCredit(b, c, amount, key) <==> CreditFits(b, c, amount, key)
    ensures MayCredit(b, c, amount, key) ==> Credited(b, PostCredit(b, c, amount, key, now), c, amount, key, now)
    ensures MayCredit(b, c, amount, key) ==> PostCredit(b, c, amount, key, now).loyaltyEvents == b.loyaltyEvents
  {}

  lemma DebitGoesThrough(b: Book, c: CustomerRef, amount: int, key: Option<Key>, sale: Option<int>, now: Moment)
    ensures MayDebit(b, c, amount, key, now) <==> DebitFits(b, c, amount, key, now)
    ensures MayDebit(b, c, amount, key, now) ==> Debited(b, PostDebit(b, c, amount, key, sale, now), c, amount, key, sale, now)
  {
    if c in b.points && 0 < amount { ConsumeTakes(b.lots, c, amount, now, c); }
  }

  /** Credited points can be spent at once and for good: what the customer can spend at
      any time from the credit on is more by the amount, and nobody else's changes. */
  lemma CreditIsSpendable(b: Book, t: Book, c: CustomerRef, amount: int, key: Option<Key>, now: Moment, d: CustomerRef, at: Moment)
    requires Credited(b, t, c, amount, key, now) && amount > 0
    ensures Available(t.lots, d, at) == Available(b.lots, d, at) + (if d == c && at >= now then amount else 0)
  {
    AvailableIs(b.lots, d, at);
    AvailableIs(t.lots, d, at);
    SumAppend(b.lots, t.lots[|b.lots|], SpendableOf(d, at));
  }

  /** A credit raises what is issued, active and owed by its amount, from now on. */
  lemma CreditMovesReport(b: Book, t: Book, c: CustomerRef, amount: int, key: Option<Key>, now: Moment, at: Moment)
    requires Credited(b, t, c, amount, key, now) && amount > 0 && at >= now
    ensures Issued(t, c.company) == Issued(b, c.company) + amount && BonusReports.Redeemed(t, c.company) == BonusReports.Redeemed(b, c.company)
    ensures ActivePoints(t, c.company, at) == ActivePoints(b, c.company, at) + amount
    ensures Liability(t, c.company, at) == Liability(b, c.company, at) + amount as real
    ensures WalletValue(t, c, at) == WalletValue(b, c, at) + amount as real
  {
    OneMoreLot(b, t.lots[|b.lots|], c.company, at);
    FaceValue(t.lots[|b.lots|]);
  }

  /** A figure that falls by the points spent from a lot falls by the whole amount drawn. */
  lemma {:induction false} DrawMovesFigure(lots: seq<Lot>, order: seq<nat>, left: nat, c: CustomerRef, now: Moment, f: Lot -> int)
    requires AllSpendable(lots, order, c, now)
    requires forall l: Lot, used: int :: Spendable(l, c, now) && 0 <= used <= l.remaining ==> f(SpendFrom(l, used)) == f(l) - used
    ensures Sum(DrawFrom(lots, order, left).lots, f) == Sum(lots, f) - (left - DrawFrom(lots, order, left).left)
    decreases |order|
  {
    if order != [] && left != 0 {
      var i := order[0];
      var used := Min(left, lots[i].remaining);
      assert Spendable(lots[i], c, now);
      SpendStep(lots, order, used, c, now);
      SumUpdate(lots, i, SpendFrom(lots[i], used), f);
      DrawMovesFigure(lots[i := SpendFrom(lots[i], used)], order[1..], left - used, c, now, f);
    }
  }

  function HeldIn(company: int, now: Moment): Lot -> int {
    (l: Lot) => if l.owner.company == company && Live(l) && !Lapsed(l, now) then l.remaining else 0
  }

  lemma {:induction false} OwedAtFace(lots: seq<Lot>, company: int, now: Moment)
    requires forall i :: 0 <= i < |lots| ==> lots[i].issued > 0 && lots[i].monetaryValue == lots[i].issued as real
    ensures RealSum(lots, OwedIn(company, now)) == Sum(lots, HeldIn(company, now)) as real
    decreases |lots|
  {
    if lots != [] {
      OwedAtFace(lots[..|lots| - 1], company, now);
      FaceValue(lots[|lots| - 1]);
    }
  }

  lemma DebitMovesHeld(lots: seq<Lot>, c: CustomerRef, amount: nat, now: Moment)
    requires Consume(lots, c, amount, now).Some?
    ensures Sum(Consume(lots, c, amount, now).value.lots, HeldIn(c.company, now)) == Sum(lots, HeldIn(c.company, now)) - amount
  {
    var order := FifoOrder(lots, |lots|, c, now);
    ListedSpendable(lots, order, c, now);
    ConsumeExact(lots, c, amount, now);
    DrawMovesFigure(lots, order, amount, c, now, HeldIn(c.company, now));
  }

  lemma {:induction false} RowsMoveRedeemed(draws: seq<Draw>, c: CustomerRef, debit: nat, sale: Option<int>)
    ensures Sum(RedemptionRows(draws, c, debit, sale), OutstandingIn(c.company)) == Sum(draws, DrawnAmount())
    decreases |draws|
  {
    if draws != [] {
      var m := |draws| - 1;
      RowsMoveRedeemed(draws[..m], c, debit, sale);
      assert RedemptionRows(draws, c, debit, sale)[..m] == RedemptionRows(draws[..m], c, debit, sale);
    }
  }

  /** A debit moves its amount from what is owed to what has been redeemed, and leaves
      what was issued. */
  lemma DebitMovesReport(b: Book, t: Book, c: CustomerRef, amount: nat, key: Option<Key>, sale: Option<int>, now: Moment)
    requires LotsOk(b) && FacePriced(b) && Debited(b, t, c, amount, key, sale, now)
    ensures Issued(t, c.company) == Issued(b, c.company)
    ensures BonusReports.Redeemed(t, c.company) == BonusReports.Redeemed(b, c.company) + amount
    ensures Liability(t, c.company, now) == Liability(b, c.company, now) - amount as real
  {
    var r := Consume(b.lots, c, amount, now).value;
    ConsumeExact(b.lots, c, amount, now);
    forall i | 0 <= i < |b.lots|
      ensures r.lots[i].issued == b.lots[i].issued && r.lots[i].owner == b.lots[i].owner && r.lots[i].monetaryValue == b.lots[i].monetaryValue
    {
      ConsumeKeepsLot(b.lots, c, amount, now, i);
    }
    SumSame(b.lots, r.lots, IssuedIn(c.company), IssuedIn(c.company));
    OwedAtFace(b.lots, c.company, now);
    OwedAtFace(r.lots, c.company, now);
    DebitMovesHeld(b.lots, c, amount, now);
    SumConcat(b.redemptions, RedemptionRows(r.draws, c, |b.entries|, sale), OutstandingIn(c.company));
    RowsMoveRedeemed(r.draws, c, |b.entries|, sale);
  }

  // ---------------------------------------------------------------- every transaction

  /** A customer the handlers find. */
  ghost predicate Found(b: Book, c: CustomerRef) { c in b.points && c !in b.archived }

  /** A visit, a manual credit and a partner bonus need a customer that is not archived;
      the wheel does not look. */
  lemma CounterCredits(b: Book, c: CustomerRef, amount: int, now: Moment)
    ensures var t := Next(b, Visit(c, amount, now));
      if Found(b, c) && CreditFits(b, c, amount, None) then Credited(b, t, c, amount, None, now) && t.loyaltyEvents == b.loyaltyEvents else t == b
    ensures Next(b, ManualCredit(c, amount, now)) == Next(b, Visit(c, amount, now))
    ensures var t := Next(b, WheelSpin(c, amount, now));
      if CreditFits(b, c, amount, None) then Credited(b, t, c, amount, None, now) && t.loyaltyEvents == b.loyaltyEvents else t == b
  {
    CreditGoesThrough(b, c, amount, None, now);
  }

  /** Credits under a key: once per company, and for a birthday also once per year. */
  lemma KeyedCredits(b: Book, c: CustomerRef, amount: int, n: int, m: int, now: Moment)
    ensures var t, key := Next(b, ReferralBonus(c, amount, n, now)), Some(ReferralKey(c.company, n));
      if Found(b, c) && CreditFits(b, c, amount, key) then Credited(b, t, c, amount, key, now) && t.loyaltyEvents == b.loyaltyEvents else t == b
    ensures var t, key := Next(b, PartnerBonus(c, amount, n, m, now)), Some(PartnerKey(c.company, n, m));
      if Found(b, c) && CreditFits(b, c, amount, key) then Credited(b, t, c, amount, key, now) && t.loyaltyEvents == b.loyaltyEvents else t == b
    ensures var t, key := Next(b, BirthdayBonus(c, amount, n, now)), Some(BirthdayKey(c, n));
      if CreditFits(b, c, amount, key) && key.value !in b.loyaltyEvents
      then Credited(b, t, c, amount, key, now) && t.loyaltyEvents == b.loyaltyEvents + {key.value} else t == b
  {
    CreditGoesThrough(b, c, amount, Some(ReferralKey(c.company, n)), now);
    CreditGoesThrough(b, c, amount, Some(PartnerKey(c.company, n, m)), now);
    CreditGoesThrough(b, c, amount, Some(BirthdayKey(c, n)), now);
  }

  /** A registration opens an account at zero and credits the welcome bonus, if any. */
  lemma RegisterEffect(b: Book, c: CustomerRef, welcome: int, now: Moment)
    ensures var t, open := Next(b, Register(c, welcome, now)), b.(points := b.points[c := 0]);
      if c in b.points || welcome < 0 || welcome > 2147483647 then t == b
      else if welcome == 0 then t == open
      else Credited(open, t, c, welcome, None, now) && t.loyaltyEvents == b.loyaltyEvents
  {
    if c !in b.points { CreditGoesThrough(b.(points := b.points[c := 0]), c, welcome, None, now); }
  }

  /** A manual debit, and a decision on a request for a credit or a debit. */
  lemma ManualDebits(b: Book, c: CustomerRef, amount: int, request: int, now: Moment)
    ensures var t := Next(b, ManualDebit(c, amount, now));
      if Found(b, c) && DebitFits(b, c, amount, None, now) then Debited(b, t, c, amount, None, None, now) else t == b
    ensures var t, key := Next(b, Approval(c, false, amount, request, now)), Some(ApprovalKey(c.company, request));
      if Found(b, c) && DebitFits(b, c, amount, key, now) then Debited(b, t, c, amount, key, None, now) else t == b
    ensures var t, key := Next(b, Approval(c, true, amount, request, now)), Some(ApprovalKey(c.company, request));
      if Found(b, c) && CreditFits(b, c, amount, key) then Credited(b, t, c, amount, key, now) && t.loyaltyEvents == b.loyaltyEvents else t == b
  {
    DebitGoesThrough(b, c, amount, None, None, now);
    DebitGoesThrough(b, c, amount, Some(ApprovalKey(c.company, request)), None, now);
    CreditGoesThrough(b, c, amount, Some(ApprovalKey(c.company, request)), now);
  }

  /** Taking a reward back takes the whole of it, or all the customer has if that is less. */
  lemma ReversalTakes(b: Book, c: CustomerRef, amount: int, reward: int, refund: int, now: Moment)
    ensures var t, key := Next(b, ReferralReversal(c, amount, reward, refund, now)), Some(ReversalKey(c.company, reward));
      var taken := if c in b.points && b.points[c] < amount then b.points[c] else amount;
      if Found(b, c) && DebitFits(b, c, taken, key, now) then Debited(b, t, c, taken, key, Some(refund), now) else t == b
  {
    if c in b.points {
      DebitGoesThrough(b, c, Min(b.points[c], amount), Some(ReversalKey(c.company, reward)), Some(refund), now);
    }
  }

  /** `t` is `b` after a debit of the points spent and a credit of the points earned. */
  ghost predicate SpentThenEarned(b: Book, paid: Book, t: Book, c: CustomerRef, spent: int, earned: int, sale: int, now: Moment) {
    && (if spent == 0 then paid == b else Debited(b, paid, c, spent, Some(ReceiptKey(sale, false)), Some(sale), now))
    && (if earned == 0 then t == paid
        else Credited(paid, t, c, earned, Some(ReceiptKey(sale, true)), now) && t.loyaltyEvents == b.loyaltyEvents)
  }

  /** When a receipt goes through. */
  ghost predicate SaleFits(b: Book, c: CustomerRef, spent: int, earned: int, sale: int, now: Moment) {
    && c in b.points && spent >= 0 && earned >= 0
    && (spent > 0 ==> DebitFits(b, c, spent, Some(ReceiptKey(sale, false)), now))
    && (earned > 0 ==> b.points[c] - spent + earned <= 2147483647 && Unused(b.entries, c.company, ReceiptKey(sale, true)))
  }

  lemma EarnsAfterSpending(b: Book, paid: Book, c: CustomerRef, spent: nat, earned: nat, sale: int, now: Moment)
    requires c in b.points
    requires if spent == 0 then paid == b else Debited(b, paid, c, spent, Some(ReceiptKey(sale, false)), Some(sale), now)
    ensures MayCredit(paid, c, earned, Some(ReceiptKey(sale, true)))
      <==> 0 < earned && b.points[c] - spent + earned <= 2147483647 && Unused(b.entries, c.company, ReceiptKey(sale, true))
  {
    CreditGoesThrough(paid, c, earned, Some(ReceiptKey(sale, true)), now);
    OtherKeyUnused(b, paid, c, ReceiptKey(sale, true));
  }

  /** A receipt spends, then earns, and does both or neither. */
  lemma SaleEffect(b: Book, c: CustomerRef, spent: int, earned: int, sale: int, now: Moment)
    ensures var t := Next(b, PosSale(c, spent, earned, sale, now));
      if SaleFits(b, c, spent, earned, sale, now)
      then exists paid :: SpentThenEarned(b, paid, t, c, spent, earned, sale, now)
      else t == b
  {
    var first, second := Some(ReceiptKey(sale, false)), Some(ReceiptKey(sale, true));
    var t := Next(b, PosSale(c, spent, earned, sale, now));
    if c in b.points && spent >= 0 && earned >= 0 {
      DebitGoesThrough(b, c, spent, first, Some(sale), now);
      if spent == 0 || MayDebit(b, c, spent, first, now) {
        var paid := if spent > 0 then PostDebit(b, c, spent, first, Some(sale), now) else b;
        EarnsAfterSpending(b, paid, c, spent, earned, sale, now);
        CreditGoesThrough(paid, c, earned, second, now);
        assert SaleFits(b, c, spent, earned, sale, now) ==> SpentThenEarned(b, paid, t, c, spent, earned, sale, now);
      }
    }
  }

  /** A row under another key leaves a key as it was. */
  lemma OtherKeyUnused(b: Book, t: Book, c: CustomerRef, key: Key)
    requires t.entries == b.entries || (|t.entries| == |b.entries| + 1 && t.entries[..|b.entries|] == b.entries && t.entries[|b.entries|].key != Some(key))
    ensures Unused(t.entries, c.company, key) <==> Unused(b.entries, c.company, key)
  {
    if |t.entries| == |b.entries| + 1 {
      assert forall i :: 0 <= i < |b.entries| ==> t.entries[i] == t.entries[..|b.entries|][i];
    }
  }

  // ---------------------------------------------------------------- refunds

  /** A refund gives a lot back what the redemption rows against it say, makes it `active`,
      or `pending` when it is not active yet, and keeps every other column. */
  lemma {:induction false} RestoreLots(lots: seq<Lot>, rows: seq<Redemption>, listed: seq<nat>, left: int, now: Moment, i: nat)
    requires InRange(listed, |rows|) && (forall k :: 0 <= k < |rows| ==> rows[k].lot < |lots|) && i < |lots|
    ensures var r := RestoreFrom(lots, rows, listed, left, now);
      && (|| r.lots[i] == lots[i]
          || r.lots[i] == lots[i].(remaining := r.lots[i].remaining, status := if lots[i].activatesAt > now then Pending else Active))
      && r.lots[i].remaining - lots[i].remaining
         == Sum(r.rows, (x: Redemption) => if x.lot == i then x.restored else 0) - Sum(rows, (x: Redemption) => if x.lot == i then x.restored else 0)
    decreases |listed|
  {
    if listed != [] && left != 0 {
      var k, row := listed[0], rows[listed[0]];
      var back := Min(left, Outstanding(row));
      var row' := row.(restored := row.restored + back);
      SumUpdate(rows, k, row', (x: Redemption) => if x.lot == i then x.restored else 0);
      RestoreLots(lots[row.lot := ReturnTo(lots[row.lot], back, now)], rows[k := row'], listed[1..], left - back, now, i);
    }
  }

  /** A refund writes only on redemption rows of the customer and the sale that are still
      open, gives back no more than they took, and changes nothing but `restored`. */
  lemma {:induction false} RestoreRows(lots: seq<Lot>, rows: seq<Redemption>, listed: seq<nat>, left: nat, now: Moment, c: CustomerRef, sale: int, k: nat)
    requires ReversibleListing(lots, rows, listed, c, sale) && k < |rows|
    ensures var after := RestoreFrom(lots, rows, listed, left, now).rows[k];
      || after == rows[k]
      || (&& rows[k].owner == c && rows[k].sale == Some(sale)
          && rows[k].restored < after.restored <= rows[k].redeemed && after == rows[k].(restored := after.restored))
    decreases |listed|
  {
    if listed != [] && left != 0 {
      var h, row := listed[0], rows[listed[0]];
      var back := Min(left, Outstanding(row));
      var rows' := rows[h := row.(restored := row.restored + back)];
      var lots' := lots[row.lot := ReturnTo(lots[row.lot], back, now)];
      if k == h {
        UnlistedRowStays(lots', rows', listed[1..], left - back, now, k);
      } else {
        RestoreRows(lots', rows', listed[1..], left - back, now, c, sale, k);
      }
    }
  }

  lemma {:induction false} UnlistedRowStays(lots: seq<Lot>, rows: seq<Redemption>, listed: seq<nat>, left: int, now: Moment, k: nat)
    requires InRange(listed, |rows|) && (forall m :: 0 <= m < |rows| ==> rows[m].lot < |lots|) && k < |rows| && k !in listed
    ensures RestoreFrom(lots, rows, listed, left, now).rows[k] == rows[k]
    decreases |listed|
  {
    if listed != [] && left != 0 {
      var row := rows[listed[0]];
      var back := Min(left, Outstanding(row));
      UnlistedRowStays(lots[row.lot := ReturnTo(lots[row.lot], back, now)], rows[listed[0] := row.(restored := row.restored + back)],
                       listed[1..], left - back, now, k);
    }
  }

  /** The rows are given back to in the order the query lists them: a row gets a point
      only when the rows listed before it have everything back. */
  lemma {:induction false} RestoreInListedOrder(
    lots: seq<Lot>, rows: seq<Redemption>, listed: seq<nat>, left: nat, now: Moment, c: CustomerRef, sale: int, p: nat, q: nat)
    requires ReversibleListing(lots, rows, listed, c, sale) && p < q < |listed|
    ensures var after := RestoreFrom(lots, rows, listed, left, now).rows;
      after[listed[q]] != rows[listed[q]] ==> after[listed[p]].restored == rows[listed[p]].redeemed
    decreases |listed|
  {
    if left != 0 {
      var h, row := listed[0], rows[listed[0]];
      var back := Min(left, Outstanding(row));
      var rows' := rows[h := row.(restored := row.restored + back)];
      var lots' := lots[row.lot := ReturnTo(lots[row.lot], back, now)];
      if p == 0 {
        UnlistedRowStays(lots', rows', listed[1..], left - back, now, h);
        if left == back { assert RestoreFrom(lots', rows', listed[1..], 0, now).rows == rows'; }
      } else {
        RestoreInListedOrder(lots', rows', listed[1..], left - back, now, c, sale, p - 1, q - 1);
      }
    }
  }

  /** What a refund leaves over for a lot of its own is the amount less all that is still
      open on the sale, when the query lists exactly the open rows of the sale. */
  lemma RestoreLeavesOver(lots: seq<Lot>, rows: seq<Redemption>, listed: seq<nat>, amount: nat, now: Moment, c: CustomerRef, sale: int)
    requires forall k :: 0 <= k < |rows| ==> rows[k].lot < |lots| && 0 <= rows[k].restored <= rows[k].redeemed
    requires forall k, m :: 0 <= k < m < |listed| ==> listed[k] != listed[m]
    requires forall k: nat :: k in listed <==> k < |rows| && rows[k].owner == c && rows[k].sale == Some(sale) && rows[k].restored < rows[k].redeemed
    ensures InRange(listed, |rows|)
    ensures var open := Sum(rows, (x: Redemption) => if x.owner == c && x.sale == Some(sale) then x.redeemed - x.restored else 0);
      RestoreFrom(lots, rows, listed, amount, now).left == if amount <= open then 0 else amount - open
  {
    forall k | 0 <= k < |listed| ensures listed[k] < |rows| && Reversible(rows[listed[k]], c, sale) { assert listed[k] in listed; }
    forall k | 0 <= k < |rows| && Reversible(rows[k], c, sale) ensures k in listed {}
    RestoreLeft(lots, rows, listed, amount, now, c, sale);
    ListedIsWhole(lots, rows, listed, c, sale);
    SumSame(rows, rows, (x: Redemption) => if x.owner == c && x.sale == Some(sale) then x.redeemed - x.restored else 0, ReversibleOf(c, sale));
  }

  /** The tables after the restoring half of a refund. */
  ghost predicate GivenBack(b: Book, t: Book, c: CustomerRef, amount: int, key: Key, listed: seq<nat>, now: Moment) {
    && c in b.points && t.points == b.points[c := b.points[c] + amount]
    && t.entries == b.entries + [Entry(c, Credit, amount, b.points[c] + amount, Some(key))]
    && InRange(listed, |b.redemptions|) && (forall k :: 0 <= k < |b.redemptions| ==> b.redemptions[k].lot < |b.lots|)
    && (var r := RestoreFrom(b.lots, b.redemptions, listed, amount, now);
        && t.redemptions == r.rows
        && t.lots == r.lots + (if r.left > 0 then [Lot(c, Some(|b.entries|), r.left, r.left, r.left as real, now, now, None, Active)] else []))
    && t.archived == b.archived && t.loyaltyEvents == b.loyaltyEvents
  }

  /** What a refund takes back of the points the sale earned. */
  function TakenBack(b: Book, c: CustomerRef, reversed: int): int {
    if c in b.points && b.points[c] < reversed then b.points[c] else reversed
  }

  ghost predicate OpenRows(b: Book, listed: seq<nat>, c: CustomerRef, sale: int) {
    && (forall k, m :: 0 <= k < m < |listed| ==> listed[k] != listed[m])
    && (forall k :: 0 <= k < |listed| ==> listed[k] < |b.redemptions|)
    && (forall k :: 0 <= k < |listed| ==> var x := b.redemptions[listed[k]]; x.owner == c && x.sale == Some(sale) && x.restored < x.redeemed)
    && (forall k :: 0 <= k < |b.redemptions| ==> b.redemptions[k].lot < |b.lots|)
  }

  lemma GivesBackAfterTaking(b: Book, taken: Book, c: CustomerRef, back: nat, restored: nat, sale: int, refund: int, listed: seq<nat>, now: Moment)
    requires c in b.points && restored > 0
    requires if back == 0 then taken == b else Debited(b, taken, c, back, Some(ReceiptKey(refund, false)), Some(refund), now)
    ensures MayRestore(taken, c, restored, Some(ReceiptKey(refund, true)), sale, listed)
      <==> && b.points[c] - back + restored <= 2147483647 && Unused(b.entries, c.company, ReceiptKey(refund, true))
           && OpenRows(taken, listed, c, sale)
    ensures MayRestore(taken, c, restored, Some(ReceiptKey(refund, true)), sale, listed) ==>
      GivenBack(taken, PostRestore(taken, c, restored, Some(ReceiptKey(refund, true)), sale, listed, now), c, restored, ReceiptKey(refund, true), listed, now)
  {
    CreditGoesThrough(taken, c, restored, Some(ReceiptKey(refund, true)), now);
    OtherKeyUnused(b, taken, c, ReceiptKey(refund, true));
    assert OpenRows(taken, listed, c, sale) <==> ReversibleListing(taken.lots, taken.redemptions, listed, c, sale);
  }

  /** A refund takes back what was earned, as far as the balance goes, then gives back
      what was spent, and does both or neither. */
  lemma RefundEffect(b: Book, c: CustomerRef, reversed: int, restored: int, sale: int, refund: int, listed: seq<nat>, now: Moment)
    ensures var t, back := Next(b, PosRefund(c, reversed, restored, sale, refund, listed, now)), TakenBack(b, c, reversed);
      if c !in b.points || reversed < 0 || restored < 0 || (back > 0 && !DebitFits(b, c, back, Some(ReceiptKey(refund, false)), now)) then t == b
      else exists taken ::
        && (if back <= 0 then taken == b else Debited(b, taken, c, back, Some(ReceiptKey(refund, false)), Some(refund), now))
        && RefundSecondHalf(b, taken, t, c, restored, sale, refund, listed, now)
  {
    var back := TakenBack(b, c, reversed);
    if c in b.points && reversed >= 0 && restored >= 0 {
      DebitGoesThrough(b, c, back, Some(ReceiptKey(refund, false)), Some(refund), now);
      if back <= 0 || MayDebit(b, c, back, Some(ReceiptKey(refund, false)), now) {
        var taken := if back > 0 then PostDebit(b, c, back, Some(ReceiptKey(refund, false)), Some(refund), now) else b;
        if restored > 0 { GivesBackAfterTaking(b, taken, c, Max(0, back), restored, sale, refund, listed, now); }
        assert RefundSecondHalf(b, taken, Next(b, PosRefund(c, reversed, restored, sale, refund, listed, now)), c, restored, sale, refund, listed, now);
      }
    }
  }

  /** The restoring half goes through, or undoes the first half as well. */
  ghost predicate RefundSecondHalf(b: Book, taken: Book, t: Book, c: CustomerRef, restored: int, sale: int, refund: int, listed: seq<nat>, now: Moment) {
    if restored == 0 then t == taken
    else if && c in taken.points && taken.points[c] + restored <= 2147483647 && Unused(b.entries, c.company, ReceiptKey(refund, true))
            && OpenRows(taken, listed, c, sale)
    then GivenBack(taken, t, c, restored, ReceiptKey(refund, true), listed, now)
    else t == b
  }

  // ---------------------------------------------------------------- the sweep

  /** The customer's points in lots past their date. */
  function Lapsing(lots: seq<Lot>, c: CustomerRef, now: Moment): int {
    Sum(lots, (l: Lot) =>
      if && l.owner == c && (l.status == Pending || l.status == Active) && l.remaining > 0
         && l.expiresAt.Some? && l.expiresAt.value <= now
      then l.remaining else 0)
  }

  lemma LapsingIs(b: Book, c: CustomerRef, tenant: Option<int>, now: Moment)
    requires tenant.None? || tenant.value == c.company
    ensures Lapsing(b.lots, c, now) == DueTotal(b, c, tenant, now) == Sum(b.lots, DueOf(c, now))
  {
    SumSame(b.lots, b.lots, (l: Lot) =>
      if && l.owner == c && (l.status == Pending || l.status == Active) && l.remaining > 0
         && l.expiresAt.Some? && l.expiresAt.value <= now
      then l.remaining else 0, DueOf(c, now));
  }

  /** The sweep empties and expires the lots of the tenant that are pending or active,
      hold points and are past their date, and leaves every other lot alone. */
  lemma SweepLots(b: Book, tenant: Option<int>, now: Moment, i: nat)
    requires i < |b.lots|
    ensures var t, l := Next(b, ExpirySweep(tenant, now)), b.lots[i];
      && |t.lots| == |b.lots| && t.redemptions == b.redemptions && t.archived == b.archived && t.loyaltyEvents == b.loyaltyEvents
      && t.lots[i] ==
        if && (l.status == Pending || l.status == Active) && l.remaining > 0 && l.expiresAt.Some? && l.expiresAt.value <= now
           && (tenant.None? || tenant.value == l.owner.company)
        then l.(remaining := 0, status := Expired) else l
  {}

  /** Each balance of the tenant falls by exactly what was past its date. */
  lemma SweepBalances(b: Book, tenant: Option<int>, now: Moment, c: CustomerRef)
    requires Accounts(b) && c in b.points
    ensures var t := Next(b, ExpirySweep(tenant, now));
      && t.points.Keys == b.points.Keys
      && t.points[c] == b.points[c] - (if tenant.None? || tenant.value == c.company then Lapsing(b.lots, c, now) else 0)
      && t.points[c] >= 0
  {
    SweepTakesWhatIsDue(b, c, tenant, now);
    if InTenant(c, tenant) { LapsingIs(b, c, tenant, now); }
  }

  lemma {:induction false} SweepRowColumns(b: Book, owners: seq<CustomerRef>, tenant: Option<int>, now: Moment, k: nat)
    requires k < |SweepRows(b, owners, tenant, now)|
    ensures var e := SweepRows(b, owners, tenant, now)[k];
      && e.owner in b.points
      && e == Entry(e.owner, Expire, RecordedAmount(b, e.owner, tenant, now), SweptPoints(b, tenant, now)[e.owner], SweepKey(e.owner, now))
    decreases |owners|
  {
    var rest := SweepRows(b, owners[..|owners| - 1], tenant, now);
    if k < |rest| {
      SweepRowColumns(b, owners[..|owners| - 1], tenant, now, k);
      assert SweepRows(b, owners, tenant, now)[k] == rest[k];
    }
  }

  lemma UnusedMeans(entries: seq<Entry>, company: int, key: Key)
    ensures Unused(entries, company, key) <==> !KeyUsed(entries, company, Some(key))
  {}

  lemma SweepAppends(b: Book, tenant: Option<int>, now: Moment)
    ensures var t, rows := Next(b, ExpirySweep(tenant, now)), SweepRows(b, DueOwners(b.lots, tenant, now), tenant, now);
      && t.entries == b.entries + rows && t.points == SweptPoints(b, tenant, now)
      && b.entries <= t.entries && |t.entries| == |b.entries| + |rows|
      && forall k :: |b.entries| <= k < |t.entries| ==> t.entries[k] == rows[k - |b.entries|]
  {}

  lemma ListedRow(b: Book, tenant: Option<int>, now: Moment, k: nat)
    requires Accounts(b) && k < |SweepRows(b, DueOwners(b.lots, tenant, now), tenant, now)|
    ensures var e, c := SweepRows(b, DueOwners(b.lots, tenant, now), tenant, now)[k], SweepRows(b, DueOwners(b.lots, tenant, now), tenant, now)[k].owner;
      && c in b.points && (tenant.None? || tenant.value == c.company)
      && e == Entry(c, Expire, Lapsing(b.lots, c, now), SweptPoints(b, tenant, now)[c], Some(ExpiryKey(c, now / 86_400_000_000)))
      && e.amount > 0 && !KeyUsed(b.entries, c.company, Some(ExpiryKey(c, now / 86_400_000_000)))
  {
    var owners := DueOwners(b.lots, tenant, now);
    var c := SweepRows(b, owners, tenant, now)[k].owner;
    SweepRowColumns(b, owners, tenant, now, k);
    SweepRowsHave(b, owners, tenant, now);
    DueOwnersAre(b.lots, tenant, now);
    LapsingIs(b, c, tenant, now);
    SweepTakesWhatIsDue(b, c, tenant, now);
  }

  lemma RowMeans(b: Book, tenant: Option<int>, now: Moment, k: nat, e: Entry)
    requires Accounts(b) && k < |SweepRows(b, DueOwners(b.lots, tenant, now), tenant, now)|
    requires e == SweepRows(b, DueOwners(b.lots, tenant, now), tenant, now)[k]
    ensures var key := ExpiryKey(e.owner, now / 86_400_000_000);
      && e.owner in b.points && (tenant.None? || tenant.value == e.owner.company)
      && e == Entry(e.owner, Expire, Lapsing(b.lots, e.owner, now), SweptPoints(b, tenant, now)[e.owner], Some(key))
      && e.amount > 0 && Unused(b.entries, e.owner.company, key)
  {
    ListedRow(b, tenant, now, k);
    UnusedMeans(b.entries, e.owner.company, ExpiryKey(e.owner, now / 86_400_000_000));
  }

  /** Every row a sweep appends is an `expire` row of a customer of the tenant, of just the
      points that were past their date and with the new balance, under the customer's key
      of that day, which the company's ledger did not have yet. */
  lemma SweepRowIs(b: Book, t: Book, tenant: Option<int>, now: Moment, k: nat)
    requires Accounts(b) && t == Next(b, ExpirySweep(tenant, now)) && |b.entries| <= k < |t.entries|
    ensures var e := t.entries[k];
      var key := ExpiryKey(e.owner, now / 86_400_000_000);
      && b.entries <= t.entries
      && e.owner in t.points && (tenant.None? || tenant.value == e.owner.company)
      && e == Entry(e.owner, Expire, Lapsing(b.lots, e.owner, now), t.points[e.owner], Some(key))
      && e.amount > 0 && Unused(b.entries, e.owner.company, key)
  {
    SweepAppends(b, tenant, now);
    RowMeans(b, tenant, now, k - |b.entries|, t.entries[k]);
  }

  lemma LosersAreListed(b: Book, tenant: Option<int>, now: Moment, c: CustomerRef)
    requires Accounts(b) && c in b.points && (tenant.None? || tenant.value == c.company) && Lapsing(b.lots, c, now) > 0
    requires !KeyUsed(b.entries, c.company, Some(ExpiryKey(c, now / 86_400_000_000)))
    ensures c in DueOwners(b.lots, tenant, now) && Inserted(b, c, tenant, now)
  {
    LapsingIs(b, c, tenant, now);
    DueOwnersHaveDue(b, c, tenant, now);
    SweepTakesWhatIsDue(b, c, tenant, now);
  }

  lemma SweptOnce(b: Book, t: Book, tenant: Option<int>, now: Moment, k: nat, m: nat)
    requires t == Next(b, ExpirySweep(tenant, now)) && |b.entries| <= k < m < |t.entries|
    ensures t.entries[k].owner != t.entries[m].owner
  {
    var owners := DueOwners(b.lots, tenant, now);
    SweepAppends(b, tenant, now);
    DueOwnersAre(b.lots, tenant, now);
    SweepRowsUnique(b, owners, tenant, now);
    assert SweepRows(b, owners, tenant, now)[k - |b.entries|].owner != SweepRows(b, owners, tenant, now)[m - |b.entries|].owner;
  }

  /** And each customer of the tenant who loses points gets such a row, and one only,
      unless the ledger has the key of that day. */
  lemma SweepRowFor(b: Book, t: Book, tenant: Option<int>, now: Moment, c: CustomerRef)
    requires Accounts(b) && t == Next(b, ExpirySweep(tenant, now))
    requires c in b.points && (tenant.None? || tenant.value == c.company) && Lapsing(b.lots, c, now) > 0
    requires Unused(b.entries, c.company, ExpiryKey(c, now / 86_400_000_000))
    ensures exists k :: |b.entries| <= k < |t.entries| && t.entries[k].owner == c
    ensures forall k, m :: |b.entries| <= k < |t.entries| && |b.entries| <= m < |t.entries| && t.entries[k].owner == c == t.entries[m].owner ==> k == m
  {
    var rows := SweepRows(b, DueOwners(b.lots, tenant, now), tenant, now);
    UnusedMeans(b.entries, c.company, ExpiryKey(c, now / 86_400_000_000));
    LosersAreListed(b, tenant, now, c);
    SweepAppends(b, tenant, now);
    SweepRowsHave(b, DueOwners(b.lots, tenant, now), tenant, now);
    var k :| 0 <= k < |rows| && rows[k].owner == c;
    assert t.entries[|b.entries| + k] == rows[k];
    forall i, j | |b.entries| <= i < j < |t.entries| ensures t.entries[i].owner != t.entries[j].owner { SweptOnce(b, t, tenant, now, i, j); }
  }

  /** Archiving and setting a lot's date change nothing else; a date must be later than
      the lot's issue. */
  lemma OtherEffects(b: Book, c: CustomerRef, lot: nat, at: Moment)
    ensures Next(b, Archive(c)) == Book(b.points, b.archived + {c}, b.entries, b.lots, b.redemptions, b.loyaltyEvents)
    ensures var t := Next(b, SetExpiry(lot, at));
      if lot < |b.lots| && b.lots[lot].issuedAt < at
      then && |t.lots| == |b.lots| && t.lots[lot] == b.lots[lot].(expiresAt := Some(at))
           && (forall i :: 0 <= i < |b.lots| && i != lot ==> t.lots[i] == b.lots[i])
           && t.points == b.points && t.entries == b.entries && t.redemptions == b.redemptions
           && t.archived == b.archived && t.loyaltyEvents == b.loyaltyEvents
      else t == b
  {}
}
