/** What every committed transaction keeps true of the bonus tables. */
module BonusInvariants {
  import opened Prelude
  import opened BonusLots
  import opened BonusRestore
  import opened BonusBook

  /** The CHECKs and foreign keys of bonus_lots. */
  ghost predicate LotsOk(b: Book) {
    forall i :: 0 <= i < |b.lots| ==>
      var l := b.lots[i];
      && l.issued > 0 && 0 <= l.remaining <= l.issued && l.owner in b.points
      && (!Live(l) ==> l.remaining == 0)
  }

  /** total_points is what the customer's live lots still hold. */
  ghost predicate PointsOk(b: Book) {
    forall c :: c in b.points ==> 0 <= b.points[c] <= INT4_MAX && b.points[c] == Sum(b.lots, LiveOf(c))
  }

  ghost predicate RedemptionsOk(b: Book) {
    forall k :: 0 <= k < |b.redemptions| ==>
      var r := b.redemptions[k];
      && r.lot < |b.lots| && b.lots[r.lot].owner == r.owner
      && 0 <= r.restored <= r.redeemed && r.redeemed > 0
  }

  /** No lot holds, together with what is out on redemptions, more than it issued. */
  ghost predicate LotsBacked(b: Book) {
    forall i :: 0 <= i < |b.lots| ==>
      b.lots[i].remaining + Sum(b.redemptions, OutstandingOn(i)) <= b.lots[i].issued
  }

  ghost predicate Accounts(b: Book) {
    LotsOk(b) && PointsOk(b) && RedemptionsOk(b) && LotsBacked(b)
  }

  // ---------------------------------------------------------------- credit

  lemma CreditKeepsPoints(b: Book, c: CustomerRef, amount: int, key: Option<Key>, now: Moment)
    requires MayCredit(b, c, amount, key) && PointsOk(b)
    ensures PointsOk(PostCredit(b, c, amount, key, now))
  {
    var b' := PostCredit(b, c, amount, key, now);
    forall d | d in b'.points ensures b'.points[d] == Sum(b'.lots, LiveOf(d)) {
      SumAppend(b.lots, IssuedLot(c, |b.entries|, amount, now), LiveOf(d));
    }
  }

  lemma {:induction false} NothingOutstanding(rows: seq<Redemption>, i: nat)
    requires forall k :: 0 <= k < |rows| ==> rows[k].lot < i
    ensures Sum(rows, OutstandingOn(i)) == 0
  {
    SumZero(rows, OutstandingOn(i));
  }

  lemma CreditKeepsRest(b: Book, c: CustomerRef, amount: int, key: Option<Key>, now: Moment)
    requires MayCredit(b, c, amount, key) && Accounts(b)
    ensures var b' := PostCredit(b, c, amount, key, now); LotsOk(b') && RedemptionsOk(b') && LotsBacked(b')
  {
    NothingOutstanding(b.redemptions, |b.lots|);
  }

  lemma CreditKeeps(b: Book, c: CustomerRef, amount: int, key: Option<Key>, now: Moment)
    requires MayCredit(b, c, amount, key) && Accounts(b)
    ensures Accounts(PostCredit(b, c, amount, key, now))
  {
    CreditKeepsPoints(b, c, amount, key, now);
    CreditKeepsRest(b, c, amount, key, now);
  }

  // ---------------------------------------------------------------- debit

  /** A drawn lot keeps its issue terms and loses no more than it held. */
  lemma {:induction false} DrawKeepsLot(lots: seq<Lot>, order: seq<nat>, left: nat, c: CustomerRef, now: Moment, i: nat)
    requires AllSpendable(lots, order, c, now) && i < |lots|
    ensures var l := DrawFrom(lots, order, left).lots[i];
            && l.owner == lots[i].owner && l.issued == lots[i].issued && l.source == lots[i].source && l.monetaryValue == lots[i].monetaryValue
            && (l == lots[i] || (0 <= l.remaining <= lots[i].remaining && (Live(l) || l.remaining == 0)))
    decreases |order|
  {
    if order == [] || left == 0 {
    } else {
      var h := order[0];
      var used := Min(left, lots[h].remaining);
      SpendStep(lots, order, used, c, now);
      DrawKeepsLot(lots[h := SpendFrom(lots[h], used)], order[1..], left - used, c, now, i);
    }
  }

  lemma ConsumeKeepsLot(lots: seq<Lot>, c: CustomerRef, amount: nat, now: Moment, i: nat)
    requires Consume(lots, c, amount, now).Some? && i < |lots|
    ensures |Consume(lots, c, amount, now).value.lots| == |lots|
    ensures var l := Consume(lots, c, amount, now).value.lots[i];
            && l.owner == lots[i].owner && l.issued == lots[i].issued && l.source == lots[i].source && l.monetaryValue == lots[i].monetaryValue
            && (l == lots[i] || (0 <= l.remaining <= lots[i].remaining && (Live(l) || l.remaining == 0)))
  {
    ListedSpendable(lots, FifoOrder(lots, |lots|, c, now), c, now);
    DrawKeepsLot(lots, FifoOrder(lots, |lots|, c, now), amount, c, now, i);
  }

  lemma DebitKeepsLots(b: Book, c: CustomerRef, amount: int, key: Option<Key>, sale: Option<int>, now: Moment)
    requires MayDebit(b, c, amount, key, now) && LotsOk(b)
    ensures LotsOk(PostDebit(b, c, amount, key, sale, now))
  {
    forall i | 0 <= i < |b.lots|
      ensures var l := Consume(b.lots, c, amount, now).value.lots[i];
              l.owner == b.lots[i].owner && l.issued == b.lots[i].issued && 0 <= l.remaining <= l.issued && (!Live(l) ==> l.remaining == 0)
    {
      ConsumeKeepsLot(b.lots, c, amount, now, i);
    }
  }

  lemma DebitKeepsPoints(b: Book, c: CustomerRef, amount: int, key: Option<Key>, sale: Option<int>, now: Moment)
    requires MayDebit(b, c, amount, key, now) && PointsOk(b)
    ensures PointsOk(PostDebit(b, c, amount, key, sale, now))
  {
    var b' := PostDebit(b, c, amount, key, sale, now);
    forall d | d in b'.points ensures b'.points[d] == Sum(b'.lots, LiveOf(d)) {
      if d == c {
        ConsumeExact(b.lots, c, amount, now);
      } else {
        ConsumeOthers(b.lots, c, amount, now, d);
      }
    }
  }

  lemma DebitKeepsRedemptions(b: Book, c: CustomerRef, amount: int, key: Option<Key>, sale: Option<int>, now: Moment)
    requires MayDebit(b, c, amount, key, now) && RedemptionsOk(b)
    ensures RedemptionsOk(PostDebit(b, c, amount, key, sale, now))
  {
    var b' := PostDebit(b, c, amount, key, sale, now);
    ConsumeDraws(b.lots, c, amount, now);
    forall k | 0 <= k < |b'.redemptions|
      ensures var r := b'.redemptions[k];
              r.lot < |b'.lots| && b'.lots[r.lot].owner == r.owner && 0 <= r.restored <= r.redeemed && r.redeemed > 0
    {
      ConsumeKeepsLot(b.lots, c, amount, now, b'.redemptions[k].lot);
    }
  }

  lemma DebitKeepsBacking(b: Book, c: CustomerRef, amount: int, key: Option<Key>, sale: Option<int>, now: Moment)
    requires MayDebit(b, c, amount, key, now) && LotsBacked(b)
    ensures LotsBacked(PostDebit(b, c, amount, key, sale, now))
  {
    forall i | 0 <= i < |b.lots|
      ensures var b' := PostDebit(b, c, amount, key, sale, now);
              |b'.lots| == |b.lots| && b'.lots[i].remaining + Sum(b'.redemptions, OutstandingOn(i)) <= b'.lots[i].issued
    {
      ConsumeKeepsLot(b.lots, c, amount, now, i);
      ConsumeBalancesLot(b.lots, b.redemptions, c, amount, now, |b.entries|, sale, i);
    }
  }

  lemma DebitKeeps(b: Book, c: CustomerRef, amount: int, key: Option<Key>, sale: Option<int>, now: Moment)
    requires MayDebit(b, c, amount, key, now) && Accounts(b)
    ensures Accounts(PostDebit(b, c, amount, key, sale, now))
  {
    DebitKeepsLots(b, c, amount, key, sale, now);
    DebitKeepsPoints(b, c, amount, key, sale, now);
    DebitKeepsRedemptions(b, c, amount, key, sale, now);
    DebitKeepsBacking(b, c, amount, key, sale, now);
  }

  // ---------------------------------------------------------------- restore

  ghost predicate RowsMatch(lots: seq<Lot>, rows: seq<Redemption>) {
    forall k :: 0 <= k < |rows| ==>
      rows[k].lot < |lots| && lots[rows[k].lot].owner == rows[k].owner
      && 0 <= rows[k].restored <= rows[k].redeemed && rows[k].redeemed > 0
  }

  /** Restoration changes balances and statuses, never owners, terms or row targets. */
  lemma {:induction false} RestoreKeepsRows(
    lots: seq<Lot>, rows: seq<Redemption>, listed: seq<nat>, left: nat, now: Moment, c: CustomerRef, sale: int)
    requires ReversibleListing(lots, rows, listed, c, sale) && RowsMatch(lots, rows)
    ensures var r := RestoreFrom(lots, rows, listed, left, now);
            && RowsMatch(r.lots, r.rows)
            && 0 <= r.left <= left
    decreases |listed|
  {
    if listed == [] || left == 0 {
    } else {
      var k := listed[0];
      var back := Min(left, Outstanding(rows[k]));
      var lots' := lots[rows[k].lot := ReturnTo(lots[rows[k].lot], back, now)];
      var rows' := rows[k := rows[k].(restored := rows[k].restored + back)];
      RestoreKeepsRows(lots', rows', listed[1..], left - back, now, c, sale);
    }
  }

  lemma {:induction false} RestoreKeepsLot(
    lots: seq<Lot>, rows: seq<Redemption>, listed: seq<nat>, left: nat, now: Moment, c: CustomerRef, sale: int, i: nat)
    requires ReversibleListing(lots, rows, listed, c, sale) && i < |lots|
    ensures var l := RestoreFrom(lots, rows, listed, left, now).lots[i];
            && l.owner == lots[i].owner && l.issued == lots[i].issued && l.source == lots[i].source && l.monetaryValue == lots[i].monetaryValue
            && l.remaining >= lots[i].remaining
            && (l == lots[i] || Live(l))
    decreases |listed|
  {
    if listed == [] || left == 0 {
    } else {
      var k := listed[0];
      var back := Min(left, Outstanding(rows[k]));
      var lots' := lots[rows[k].lot := ReturnTo(lots[rows[k].lot], back, now)];
      var rows' := rows[k := rows[k].(restored := rows[k].restored + back)];
      RestoreKeepsLot(lots', rows', listed[1..], left - back, now, c, sale, i);
    }
  }

  /** The book between the two halves of a refund's lot work: rows restored, the
      uncovered rest not yet in a lot of its own. */
  lemma RestoredLotsOk(b: Book, c: CustomerRef, amount: nat, sale: int, listed: seq<nat>, now: Moment, i: nat)
    requires Accounts(b) && ReversibleListing(b.lots, b.redemptions, listed, c, sale) && i < |b.lots|
    ensures var r := RestoreFrom(b.lots, b.redemptions, listed, amount, now);
            && r.lots[i].issued > 0 && 0 <= r.lots[i].remaining <= r.lots[i].issued && r.lots[i].owner in b.points
            && (!Live(r.lots[i]) ==> r.lots[i].remaining == 0)
            && r.lots[i].remaining + Sum(r.rows, OutstandingOn(i)) <= r.lots[i].issued
  {
    var r := RestoreFrom(b.lots, b.redemptions, listed, amount, now);
    RestoreKeepsLot(b.lots, b.redemptions, listed, amount, now, c, sale, i);
    RestoreBalancesLot(b.lots, b.redemptions, listed, amount, now, i);
    RestoreKeepsRows(b.lots, b.redemptions, listed, amount, now, c, sale);
    SumNonNegative(r.rows, OutstandingOn(i));
  }

  lemma RestoreKeepsPoints(b: Book, c: CustomerRef, amount: int, key: Option<Key>, sale: int, listed: seq<nat>, now: Moment)
    requires MayRestore(b, c, amount, key, sale, listed) && Accounts(b)
    ensures PointsOk(PostRestore(b, c, amount, key, sale, listed, now))
  {
    var b' := PostRestore(b, c, amount, key, sale, listed, now);
    var r := RestoreFrom(b.lots, b.redemptions, listed, amount, now);
    forall d | d in b'.points ensures b'.points[d] == Sum(b'.lots, LiveOf(d)) {
      RestoreConserves(b.lots, b.redemptions, listed, amount, now, c, sale, d);
      SumAppend(r.lots, IssuedLot(c, |b.entries|, r.left, now), LiveOf(d));
    }
  }

  lemma RestoreKeepsLots(b: Book, c: CustomerRef, amount: int, key: Option<Key>, sale: int, listed: seq<nat>, now: Moment)
    requires MayRestore(b, c, amount, key, sale, listed) && Accounts(b)
    ensures LotsOk(PostRestore(b, c, amount, key, sale, listed, now))
  {
    RestoreKeepsRows(b.lots, b.redemptions, listed, amount, now, c, sale);
    forall i | 0 <= i < |b.lots|
      ensures var l := RestoreFrom(b.lots, b.redemptions, listed, amount, now).lots[i];
              l.issued > 0 && 0 <= l.remaining <= l.issued && l.owner in b.points && (!Live(l) ==> l.remaining == 0)
    {
      RestoredLotsOk(b, c, amount, sale, listed, now, i);
    }
  }

  lemma RestoreKeepsRedemptions(b: Book, c: CustomerRef, amount: int, key: Option<Key>, sale: int, listed: seq<nat>, now: Moment)
    requires MayRestore(b, c, amount, key, sale, listed) && Accounts(b)
    ensures RedemptionsOk(PostRestore(b, c, amount, key, sale, listed, now))
  {
    RestoreKeepsRows(b.lots, b.redemptions, listed, amount, now, c, sale);
  }

  lemma RestoreKeepsBacking(b: Book, c: CustomerRef, amount: int, key: Option<Key>, sale: int, listed: seq<nat>, now: Moment)
    requires MayRestore(b, c, amount, key, sale, listed) && Accounts(b)
    ensures LotsBacked(PostRestore(b, c, amount, key, sale, listed, now))
  {
    var b' := PostRestore(b, c, amount, key, sale, listed, now);
    NothingOutstanding(b'.redemptions, |b.lots|);
    forall i | 0 <= i < |b'.lots|
      ensures b'.lots[i].remaining + Sum(b'.redemptions, OutstandingOn(i)) <= b'.lots[i].issued
    {
      if i < |b.lots| {
        RestoredLotsOk(b, c, amount, sale, listed, now, i);
      }
    }
  }

  lemma RestoreKeeps(b: Book, c: CustomerRef, amount: int, key: Option<Key>, sale: int, listed: seq<nat>, now: Moment)
    requires MayRestore(b, c, amount, key, sale, listed) && Accounts(b)
    ensures Accounts(PostRestore(b, c, amount, key, sale, listed, now))
  {
    RestoreKeepsPoints(b, c, amount, key, sale, listed, now);
    RestoreKeepsLots(b, c, amount, key, sale, listed, now);
    RestoreKeepsRedemptions(b, c, amount, key, sale, listed, now);
    RestoreKeepsBacking(b, c, amount, key, sale, listed, now);
  }

  // ---------------------------------------------------------------- sweep

  lemma {:induction false} DueOwnersAre(lots: seq<Lot>, tenant: Option<int>, now: Moment)
    ensures forall c :: c in DueOwners(lots, tenant, now) <==>
              InTenant(c, tenant) && exists i :: 0 <= i < |lots| && lots[i].owner == c && Due(lots[i], now)
    ensures forall i, j :: 0 <= i < j < |DueOwners(lots, tenant, now)| ==>
              DueOwners(lots, tenant, now)[i] != DueOwners(lots, tenant, now)[j]
    decreases |lots|
  {
    if lots != [] {
      var m := |lots| - 1;
      DueOwnersAre(lots[..m], tenant, now);
      var rest := DueOwners(lots[..m], tenant, now);
      forall c | c in DueOwners(lots, tenant, now)
        ensures InTenant(c, tenant) && exists i :: 0 <= i < |lots| && lots[i].owner == c && Due(lots[i], now)
      {
        if c in rest {
          var i :| 0 <= i < m && lots[..m][i].owner == c && Due(lots[..m][i], now);
          assert lots[i].owner == c && Due(lots[i], now);
        } else {
          assert lots[m].owner == c && Due(lots[m], now);
        }
      }
      forall c, i | InTenant(c, tenant) && 0 <= i < |lots| && lots[i].owner == c && Due(lots[i], now)
        ensures c in DueOwners(lots, tenant, now)
      {
        if i < m {
          assert lots[..m][i].owner == c && Due(lots[..m][i], now);
        }
      }
    }
  }

  /** A customer is listed exactly when the sweep has points to take. */
  lemma DueOwnersHaveDue(b: Book, c: CustomerRef, tenant: Option<int>, now: Moment)
    ensures c in DueOwners(b.lots, tenant, now) <==> DueTotal(b, c, tenant, now) > 0
  {
    DueOwnersAre(b.lots, tenant, now);
    SumNonNegative(b.lots, DueOf(c, now));
    if InTenant(c, tenant) && c !in DueOwners(b.lots, tenant, now) {
      SumZero(b.lots, DueOf(c, now));
    } else if c in DueOwners(b.lots, tenant, now) {
      var i :| 0 <= i < |b.lots| && b.lots[i].owner == c && Due(b.lots[i], now);
      assert DueOf(c, now)(b.lots[i]) > 0;
    }
  }

  /** Due points are part of the balance, so the clamp greatest(0, ...) never
      fires and the recorded least(...) is the amount really taken. */
  lemma SweepTakesWhatIsDue(b: Book, c: CustomerRef, tenant: Option<int>, now: Moment)
    requires LotsOk(b) && PointsOk(b) && c in b.points
    ensures 0 <= DueTotal(b, c, tenant, now) <= b.points[c]
    ensures SweptPoints(b, tenant, now)[c] == b.points[c] - DueTotal(b, c, tenant, now)
    ensures RecordedAmount(b, c, tenant, now) == DueTotal(b, c, tenant, now)
  {
    DueOwnersHaveDue(b, c, tenant, now);
    SumMono(b.lots, DueOf(c, now), LiveOf(c));
    SumNonNegative(b.lots, DueOf(c, now));
  }

  function SweptOf(c: CustomerRef, tenant: Option<int>, now: Moment): Lot -> int {
    (l: Lot) => if l.owner == c && Due(l, now) && InTenant(c, tenant) then l.remaining else 0
  }

  lemma {:induction false} SweptOfIsDue(lots: seq<Lot>, c: CustomerRef, tenant: Option<int>, now: Moment)
    ensures Sum(lots, SweptOf(c, tenant, now)) == if InTenant(c, tenant) then Sum(lots, DueOf(c, now)) else 0
    decreases |lots|
  {
    if lots != [] {
      SweptOfIsDue(lots[..|lots| - 1], c, tenant, now);
    }
  }

  lemma SweepKeepsPoints(b: Book, tenant: Option<int>, now: Moment)
    requires LotsOk(b) && PointsOk(b)
    ensures PointsOk(Sweep(b, tenant, now))
  {
    var b' := Sweep(b, tenant, now);
    forall c | c in b'.points ensures 0 <= b'.points[c] <= INT4_MAX && b'.points[c] == Sum(b'.lots, LiveOf(c)) {
      SweepTakesWhatIsDue(b, c, tenant, now);
      SumShift(b.lots, b'.lots, LiveOf(c), SweptOf(c, tenant, now));
      SweptOfIsDue(b.lots, c, tenant, now);
    }
  }

  lemma SweepKeeps(b: Book, tenant: Option<int>, now: Moment)
    requires Accounts(b)
    ensures Accounts(Sweep(b, tenant, now))
  {
    SweepKeepsPoints(b, tenant, now);
  }

  // ---------------------------------------------------------------- the rest

  lemma OpenCustomerKeeps(b: Book, c: CustomerRef)
    requires Accounts(b) && c !in b.points
    ensures Accounts(b.(points := b.points[c := 0]))
  {
    SumZero(b.lots, LiveOf(c));
  }

  lemma SetExpiryKeeps(b: Book, lot: nat, at: Moment)
    requires Accounts(b)
    ensures Accounts(AfterSetExpiry(b, lot, at))
  {
    if lot < |b.lots| && at > b.lots[lot].issuedAt {
      var l := b.lots[lot].(expiresAt := Some(at));
      forall c | c in b.points ensures Sum(b.lots[lot := l], LiveOf(c)) == Sum(b.lots, LiveOf(c)) {
        SumUpdate(b.lots, lot, l, LiveOf(c));
      }
    }
  }

  lemma SaleKeeps(b: Book, c: CustomerRef, spent: int, earned: int, sale: int, now: Moment)
    requires Accounts(b)
    ensures Accounts(AfterSale(b, c, spent, earned, sale, now))
  {
    if c !in b.points || spent < 0 || earned < 0 {
    } else if spent > 0 && !MayDebit(b, c, spent, Some(ReceiptKey(sale, false)), now) {
    } else {
      var paid := if spent > 0 then PostDebit(b, c, spent, Some(ReceiptKey(sale, false)), Some(sale), now) else b;
      if spent > 0 {
        DebitKeeps(b, c, spent, Some(ReceiptKey(sale, false)), Some(sale), now);
      }
      if earned > 0 && MayCredit(paid, c, earned, Some(ReceiptKey(sale, true))) {
        CreditKeeps(paid, c, earned, Some(ReceiptKey(sale, true)), now);
      }
    }
  }

  lemma RefundKeeps(b: Book, c: CustomerRef, reversed: int, restored: int, sale: int, refund: int, listed: seq<nat>, now: Moment)
    requires Accounts(b)
    ensures Accounts(AfterRefund(b, c, reversed, restored, sale, refund, listed, now))
  {
    if c in b.points && reversed >= 0 && restored >= 0 {
      var back := Min(reversed, b.points[c]);
      if back > 0 && !MayDebit(b, c, back, Some(ReceiptKey(refund, false)), now) {
      } else {
        var taken := if back > 0 then PostDebit(b, c, back, Some(ReceiptKey(refund, false)), Some(refund), now) else b;
        if back > 0 {
          DebitKeeps(b, c, back, Some(ReceiptKey(refund, false)), Some(refund), now);
        }
        if restored > 0 && MayRestore(taken, c, restored, Some(ReceiptKey(refund, true)), sale, listed) {
          RestoreKeeps(taken, c, restored, Some(ReceiptKey(refund, true)), sale, listed, now);
        }
      }
    }
  }

  lemma RegisterKeeps(b: Book, c: CustomerRef, welcome: int, now: Moment)
    requires Accounts(b)
    ensures Accounts(AfterRegister(b, c, welcome, now))
  {
    if c !in b.points && 0 <= welcome <= INT4_MAX {
      OpenCustomerKeeps(b, c);
      if welcome > 0 {
        CreditKeeps(b.(points := b.points[c := 0]), c, welcome, None, now);
      }
    }
  }

  lemma VisitKeeps(b: Book, c: CustomerRef, points: int, now: Moment)
    requires Accounts(b)
    ensures Accounts(AfterVisit(b, c, points, now))
  {
    if MayCredit(b, c, points, None) { CreditKeeps(b, c, points, None, now); }
  }

  lemma ManualDebitKeeps(b: Book, c: CustomerRef, amount: int, now: Moment)
    requires Accounts(b)
    ensures Accounts(AfterManualDebit(b, c, amount, now))
  {
    if MayDebit(b, c, amount, None, now) { DebitKeeps(b, c, amount, None, None, now); }
  }

  lemma WheelKeeps(b: Book, c: CustomerRef, prize: int, now: Moment)
    requires Accounts(b)
    ensures Accounts(AfterWheel(b, c, prize, now))
  {
    if MayCredit(b, c, prize, None) { CreditKeeps(b, c, prize, None, now); }
  }

  lemma BirthdayKeeps(b: Book, c: CustomerRef, amount: int, year: int, now: Moment)
    requires Accounts(b)
    ensures Accounts(AfterBirthday(b, c, amount, year, now))
  {
    var key := Some(BirthdayKey(c, year));
    if MayCredit(b, c, amount, key) { CreditKeeps(b, c, amount, key, now); }
  }

  lemma KeyedCreditKeeps(b: Book, c: CustomerRef, amount: int, key: Key, now: Moment)
    requires Accounts(b)
    ensures Accounts(KeyedCredit(b, c, amount, key, now))
  {
    if MayCredit(b, c, amount, Some(key)) { CreditKeeps(b, c, amount, Some(key), now); }
  }

  lemma KeyedDebitKeeps(b: Book, c: CustomerRef, amount: int, key: Key, sale: Option<int>, now: Moment)
    requires Accounts(b)
    ensures Accounts(KeyedDebit(b, c, amount, key, sale, now))
  {
    if MayDebit(b, c, amount, Some(key), now) { DebitKeeps(b, c, amount, Some(key), sale, now); }
  }

  lemma ReferralKeeps(b: Book, c: CustomerRef, amount: int, reward: int, now: Moment)
    requires Accounts(b)
    ensures Accounts(AfterReferral(b, c, amount, reward, now))
  {
    KeyedCreditKeeps(b, c, amount, ReferralKey(c.company, reward), now);
  }

  lemma ApprovalKeeps(b: Book, c: CustomerRef, credit: bool, amount: int, request: int, now: Moment)
    requires Accounts(b)
    ensures Accounts(AfterApproval(b, c, credit, amount, request, now))
  {
    if credit {
      KeyedCreditKeeps(b, c, amount, ApprovalKey(c.company, request), now);
    } else {
      KeyedDebitKeeps(b, c, amount, ApprovalKey(c.company, request), None, now);
    }
  }

  lemma ReversalKeeps(b: Book, c: CustomerRef, amount: int, reward: int, refund: int, now: Moment)
    requires Accounts(b)
    ensures Accounts(AfterReversal(b, c, amount, reward, refund, now))
  {
    if c in b.points { KeyedDebitKeeps(b, c, Min(b.points[c], amount), ReversalKey(c.company, reward), Some(refund), now); }
  }

  /** Every committed transaction keeps the accounts. */
  lemma StepKeepsAccounts(b: Book, a: Action)
    requires Accounts(b)
    ensures Accounts(Next(b, a))
  {
    match a
    case Register(c, welcome, now) => RegisterKeeps(b, c, welcome, now);
    case Archive(c) =>
    case Visit(c, points, now) => VisitKeeps(b, c, points, now);
    case ManualCredit(c, amount, now) => VisitKeeps(b, c, amount, now);
    case ManualDebit(c, amount, now) => ManualDebitKeeps(b, c, amount, now);
    case WheelSpin(c, prize, now) => WheelKeeps(b, c, prize, now);
    case BirthdayBonus(c, amount, year, now) => BirthdayKeeps(b, c, amount, year, now);
    case ReferralBonus(c, amount, reward, now) => ReferralKeeps(b, c, amount, reward, now);
    case Approval(c, credit, amount, request, now) => ApprovalKeeps(b, c, credit, amount, request, now);
    case PartnerBonus(c, amount, offer, token, now) => KeyedCreditKeeps(b, c, amount, PartnerKey(c.company, offer, token), now);
    case ReferralReversal(c, amount, reward, refund, now) => ReversalKeeps(b, c, amount, reward, refund, now);
    case PosSale(c, spent, earned, sale, now) => SaleKeeps(b, c, spent, earned, sale, now);
    case PosRefund(c, reversed, restored, sale, refund, listed, now) => RefundKeeps(b, c, reversed, restored, sale, refund, listed, now);
    case SetExpiry(lot, at) => SetExpiryKeeps(b, lot, at);
    case ExpirySweep(tenant, now) => SweepKeeps(b, tenant, now);
  }

  /** Points conservation over whole runs: in any order, from an empty database,
      a balance is the sum of the customer's live lots and never negative. */
  lemma {:induction false} RunKeepsAccounts(actions: seq<Action>)
    ensures Accounts(Run(actions))
    decreases |actions|
  {
    if actions != [] {
      RunKeepsAccounts(actions[..|actions| - 1]);
      StepKeepsAccounts(Run(actions[..|actions| - 1]), actions[|actions| - 1]);
    }
  }
}
