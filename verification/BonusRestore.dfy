/** Redemption rows tie a debit to the lots it drew on; a refund gives the
    points back to those same lots. */
module BonusRestore {
  import opened Prelude
  import opened BonusLots

  datatype Redemption = Redemption(
    owner: CustomerRef,
    lot: nat,
    debit: nat,                 // row of the ledger that drew
    sale: Option<int>,
    redeemed: int,
    restored: int)

  function Outstanding(r: Redemption): int { r.redeemed - r.restored }

  function OutstandingOn(i: nat): Redemption -> int {
    (r: Redemption) => if r.lot == i then Outstanding(r) else 0
  }

  function DrawnFrom(i: nat): Draw -> int { (d: Draw) => if d.lot == i then d.amount else 0 }

  /** The rows ConsumeBonusLots inserts, one per draw. */
  function RedemptionRows(draws: seq<Draw>, c: CustomerRef, debit: nat, sale: Option<int>): (r: seq<Redemption>)
    ensures |r| == |draws|
    ensures forall k :: 0 <= k < |r| ==> r[k] == Redemption(c, draws[k].lot, debit, sale, draws[k].amount, 0)
  {
    seq(|draws|, k requires 0 <= k < |draws| => Redemption(c, draws[k].lot, debit, sale, draws[k].amount, 0))
  }

  lemma {:induction false} RowsCarryDraws(draws: seq<Draw>, c: CustomerRef, debit: nat, sale: Option<int>, i: nat)
    ensures Sum(RedemptionRows(draws, c, debit, sale), OutstandingOn(i)) == Sum(draws, DrawnFrom(i))
    decreases |draws|
  {
    if draws != [] {
      var m := |draws| - 1;
      RowsCarryDraws(draws[..m], c, debit, sale, i);
      assert RedemptionRows(draws, c, debit, sale)[..m] == RedemptionRows(draws[..m], c, debit, sale);
    }
  }

  /** Every point that left a lot is on a draw against that lot. */
  lemma {:induction false} DrawsAccountForLot(lots: seq<Lot>, order: seq<nat>, left: int, i: nat)
    requires InRange(order, |lots|) && i < |lots|
    ensures var r := DrawFrom(lots, order, left);
            r.lots[i].remaining == lots[i].remaining - Sum(r.draws, DrawnFrom(i))
    decreases |order|
  {
    if order == [] || left == 0 {
    } else {
      var used := Min(left, lots[order[0]].remaining);
      var lots' := lots[order[0] := SpendFrom(lots[order[0]], used)];
      DrawsAccountForLot(lots', order[1..], left - used, i);
      SumConcat([Draw(order[0], used)], DrawFrom(lots', order[1..], left - used).draws, DrawnFrom(i));
      assert [Draw(order[0], used)][..0] == [];
      assert Sum([Draw(order[0], used)], DrawnFrom(i)) == DrawnFrom(i)(Draw(order[0], used));
    }
  }

  /** A draw is never empty: the redemption row's CHECK (redeemed > 0) holds. */
  lemma {:induction false} DrawsPositive(lots: seq<Lot>, order: seq<nat>, left: nat, c: CustomerRef, now: Moment)
    requires AllSpendable(lots, order, c, now)
    ensures forall k :: 0 <= k < |DrawFrom(lots, order, left).draws| ==>
              var d := DrawFrom(lots, order, left).draws[k];
              d.amount > 0 && d.lot < |lots| && lots[d.lot].owner == c
    decreases |order|
  {
    if order == [] || left == 0 {
    } else {
      var used := Min(left, lots[order[0]].remaining);
      SpendStep(lots, order, used, c, now);
      DrawsPositive(lots[order[0] := SpendFrom(lots[order[0]], used)], order[1..], left - used, c, now);
    }
  }

  lemma ConsumeDraws(lots: seq<Lot>, c: CustomerRef, amount: nat, now: Moment)
    requires Consume(lots, c, amount, now).Some?
    ensures forall k :: 0 <= k < |Consume(lots, c, amount, now).value.draws| ==>
              var d := Consume(lots, c, amount, now).value.draws[k];
              d.amount > 0 && d.lot < |lots| && lots[d.lot].owner == c
  {
    ListedSpendable(lots, FifoOrder(lots, |lots|, c, now), c, now);
    DrawsPositive(lots, FifoOrder(lots, |lots|, c, now), amount, c, now);
  }

  /** What a lot holds plus what is out on redemptions is unchanged by a debit. */
  lemma ConsumeBalancesLot(
    lots: seq<Lot>, rows: seq<Redemption>, c: CustomerRef, amount: int, now: Moment,
    debit: nat, sale: Option<int>, i: nat)
    requires i < |lots| && Consume(lots, c, amount, now).Some?
    ensures var r := Consume(lots, c, amount, now).value;
            && r.lots[i].remaining + Sum(rows + RedemptionRows(r.draws, c, debit, sale), OutstandingOn(i))
               == lots[i].remaining + Sum(rows, OutstandingOn(i))
  {
    var order := FifoOrder(lots, |lots|, c, now);
    var r := Consume(lots, c, amount, now).value;
    DrawsAccountForLot(lots, order, amount, i);
    RowsCarryDraws(r.draws, c, debit, sale, i);
    SumConcat(rows, RedemptionRows(r.draws, c, debit, sale), OutstandingOn(i));
  }

  // ---------------------------------------------------------------- restoring

  datatype Restoration = Restoration(lots: seq<Lot>, rows: seq<Redemption>, left: int)

  function ReturnTo(l: Lot, back: int, now: Moment): Lot {
    l.(remaining := l.remaining + back, status := if l.activatesAt > now then Pending else Active)
  }

  /** The redemptions a refund may reverse: open rows of the original sale. */
  predicate Reversible(r: Redemption, c: CustomerRef, sale: int) {
    r.owner == c && r.sale == Some(sale) && r.redeemed > r.restored
  }

  ghost predicate ReversibleListing(lots: seq<Lot>, rows: seq<Redemption>, listed: seq<nat>, c: CustomerRef, sale: int) {
    && InRange(listed, |rows|)
    && (forall k, m :: 0 <= k < m < |listed| ==> listed[k] != listed[m])
    && (forall k :: 0 <= k < |listed| ==> Reversible(rows[listed[k]], c, sale))
    && (forall k :: 0 <= k < |rows| ==> rows[k].lot < |lots|)
  }

  /** The loop of restoreBonusLots over the listed rows, newest first in the
      source; nothing below depends on the order. */
  function RestoreFrom(lots: seq<Lot>, rows: seq<Redemption>, listed: seq<nat>, left: int, now: Moment): (r: Restoration)
    requires InRange(listed, |rows|) && forall k :: 0 <= k < |rows| ==> rows[k].lot < |lots|
    ensures |r.lots| == |lots| && |r.rows| == |rows|
    ensures forall k :: 0 <= k < |rows| ==> r.rows[k].lot < |lots|
    decreases |listed|
  {
    if listed == [] || left == 0 then Restoration(lots, rows, left)
    else
      var k := listed[0];
      var row := rows[k];
      var back := Min(left, Outstanding(row));
      RestoreFrom(lots[row.lot := ReturnTo(lots[row.lot], back, now)],
                  rows[k := row.(restored := row.restored + back)],
                  listed[1..], left - back, now)
  }

  function ListedOutstanding(rows: seq<Redemption>, listed: seq<nat>): int
    requires InRange(listed, |rows|)
  {
    if listed == [] then 0 else Outstanding(rows[listed[0]]) + ListedOutstanding(rows, listed[1..])
  }

  lemma {:induction false} ListedOutstandingUnchanged(a: seq<Redemption>, b: seq<Redemption>, listed: seq<nat>)
    requires |a| == |b| && InRange(listed, |a|)
    requires forall k :: 0 <= k < |listed| ==> a[listed[k]] == b[listed[k]]
    ensures ListedOutstanding(a, listed) == ListedOutstanding(b, listed)
  {
    if listed != [] {
      ListedOutstandingUnchanged(a, b, listed[1..]);
    }
  }

  lemma {:induction false} ListedOutstandingNonNegative(lots: seq<Lot>, rows: seq<Redemption>, listed: seq<nat>, c: CustomerRef, sale: int)
    requires ReversibleListing(lots, rows, listed, c, sale)
    ensures ListedOutstanding(rows, listed) >= 0
    decreases |listed|
  {
    if listed != [] {
      ListedOutstandingNonNegative(lots, rows, listed[1..], c, sale);
    }
  }

  /** What a lot holds plus what is out on redemptions is unchanged by a refund. */
  lemma {:induction false} RestoreBalancesLot(lots: seq<Lot>, rows: seq<Redemption>, listed: seq<nat>, left: int, now: Moment, i: nat)
    requires InRange(listed, |rows|) && (forall k :: 0 <= k < |rows| ==> rows[k].lot < |lots|) && i < |lots|
    ensures var r := RestoreFrom(lots, rows, listed, left, now);
            r.lots[i].remaining + Sum(r.rows, OutstandingOn(i)) == lots[i].remaining + Sum(rows, OutstandingOn(i))
    decreases |listed|
  {
    if listed == [] || left == 0 {
    } else {
      var k := listed[0];
      var back := Min(left, Outstanding(rows[k]));
      var row' := rows[k].(restored := rows[k].restored + back);
      SumUpdate(rows, k, row', OutstandingOn(i));
      RestoreBalancesLot(lots[rows[k].lot := ReturnTo(lots[rows[k].lot], back, now)], rows[k := row'], listed[1..], left - back, now, i);
    }
  }

  /** Points move into lots only; the owner of the lot gains them. */
  lemma {:induction false} RestoreConserves(
    lots: seq<Lot>, rows: seq<Redemption>, listed: seq<nat>, left: nat, now: Moment,
    c: CustomerRef, sale: int, d: CustomerRef)
    requires ReversibleListing(lots, rows, listed, c, sale)
    requires forall k :: 0 <= k < |rows| ==> lots[rows[k].lot].owner == rows[k].owner
    requires forall i :: 0 <= i < |lots| ==> !Live(lots[i]) ==> lots[i].remaining == 0
    ensures var r := RestoreFrom(lots, rows, listed, left, now);
            && 0 <= r.left
            && Sum(r.lots, LiveOf(d)) == Sum(lots, LiveOf(d)) + (if d == c then left - r.left else 0)
    decreases |listed|
  {
    if listed == [] || left == 0 {
    } else {
      var k := listed[0];
      var row := rows[k];
      var back := Min(left, Outstanding(row));
      var lots' := lots[row.lot := ReturnTo(lots[row.lot], back, now)];
      SumUpdate(lots, row.lot, ReturnTo(lots[row.lot], back, now), LiveOf(d));
      RestoreConserves(lots', rows[k := row.(restored := row.restored + back)], listed[1..], left - back, now, c, sale, d);
    }
  }

  /** Exactly the shortfall is left over. */
  lemma {:induction false} RestoreLeft(lots: seq<Lot>, rows: seq<Redemption>, listed: seq<nat>, left: nat, now: Moment, c: CustomerRef, sale: int)
    requires ReversibleListing(lots, rows, listed, c, sale)
    ensures ListedOutstanding(rows, listed) >= 0
    ensures RestoreFrom(lots, rows, listed, left, now).left == Max(0, left - ListedOutstanding(rows, listed))
    decreases |listed|
  {
    ListedOutstandingNonNegative(lots, rows, listed, c, sale);
    if listed != [] && left != 0 {
      var k := listed[0];
      var back := Min(left, Outstanding(rows[k]));
      var rows' := rows[k := rows[k].(restored := rows[k].restored + back)];
      ListedOutstandingUnchanged(rows, rows', listed[1..]);
      RestoreLeft(lots[rows[k].lot := ReturnTo(lots[rows[k].lot], back, now)], rows', listed[1..], left - back, now, c, sale);
    }
  }

  /** A refund of everything the listed rows hold closes every one of them and
      touches no other row. */
  lemma {:induction false} FullRestoreCloses(
    lots: seq<Lot>, rows: seq<Redemption>, listed: seq<nat>, left: nat, now: Moment, c: CustomerRef, sale: int, k: nat)
    requires ReversibleListing(lots, rows, listed, c, sale)
    requires left == ListedOutstanding(rows, listed) && k < |rows|
    ensures var r := RestoreFrom(lots, rows, listed, left, now);
            && r.left == 0
            && (k in listed ==> Outstanding(r.rows[k]) == 0)
            && (k !in listed ==> r.rows[k] == rows[k])
    decreases |listed|
  {
    if listed == [] {
    } else {
      var h := listed[0];
      var row := rows[h];
      var tail := listed[1..];
      ListedOutstandingNonNegative(lots, rows, tail, c, sale);
      var back := Min(left, Outstanding(row));
      var lots' := lots[row.lot := ReturnTo(lots[row.lot], back, now)];
      var rows' := rows[h := row.(restored := row.restored + back)];
      ListedOutstandingUnchanged(rows, rows', tail);
      FullRestoreCloses(lots', rows', tail, left - back, now, c, sale, k);
      assert k in listed <==> k == h || k in tail;
    }
  }

  function ReversibleOf(c: CustomerRef, sale: int): Redemption -> int {
    (r: Redemption) => if Reversible(r, c, sale) then Outstanding(r) else 0
  }

  /** A listing of all the reversible rows adds up to what they hold together. */
  lemma {:induction false} ListedIsWhole(lots: seq<Lot>, rows: seq<Redemption>, listed: seq<nat>, c: CustomerRef, sale: int)
    requires ReversibleListing(lots, rows, listed, c, sale)
    requires forall k :: 0 <= k < |rows| && Reversible(rows[k], c, sale) ==> k in listed
    ensures ListedOutstanding(rows, listed) == Sum(rows, ReversibleOf(c, sale))
    decreases |listed|
  {
    if listed == [] {
      SumZero(rows, ReversibleOf(c, sale));
    } else {
      var h := listed[0];
      var closed := rows[h].(restored := rows[h].redeemed);
      var rows' := rows[h := closed];
      SumUpdate(rows, h, closed, ReversibleOf(c, sale));
      ListedOutstandingUnchanged(rows, rows', listed[1..]);
      forall k | 0 <= k < |rows'| && Reversible(rows'[k], c, sale) ensures k in listed[1..] {
        assert k != h && k in listed;
      }
      ListedIsWhole(lots, rows', listed[1..], c, sale);
    }
  }

  lemma AddedWhole(rows: seq<Redemption>, draws: seq<Draw>, c: CustomerRef, debit: nat, sale: int)
    requires forall k :: 0 <= k < |rows| ==> !Reversible(rows[k], c, sale)
    requires forall k :: 0 <= k < |draws| ==> draws[k].amount >= 0
    ensures Sum(rows + RedemptionRows(draws, c, debit, Some(sale)), ReversibleOf(c, sale)) == Sum(draws, DrawnAmount())
  {
    var added := RedemptionRows(draws, c, debit, Some(sale));
    SumConcat(rows, added, ReversibleOf(c, sale));
    SumZero(rows, ReversibleOf(c, sale));
    AddedSum(draws, c, debit, sale);
  }

  lemma {:induction false} AddedSum(draws: seq<Draw>, c: CustomerRef, debit: nat, sale: int)
    requires forall k :: 0 <= k < |draws| ==> draws[k].amount >= 0
    ensures Sum(RedemptionRows(draws, c, debit, Some(sale)), ReversibleOf(c, sale)) == Sum(draws, DrawnAmount())
    decreases |draws|
  {
    if draws != [] {
      var m := |draws| - 1;
      AddedSum(draws[..m], c, debit, sale);
      assert RedemptionRows(draws, c, debit, Some(sale))[..m] == RedemptionRows(draws[..m], c, debit, Some(sale));
    }
  }

  /** All that the refund query finds. */
  ghost predicate WholeListing(lots: seq<Lot>, rows: seq<Redemption>, listed: seq<nat>, c: CustomerRef, sale: int) {
    && ReversibleListing(lots, rows, listed, c, sale)
    && (forall k :: 0 <= k < |rows| && Reversible(rows[k], c, sale) ==> k in listed)
  }

  /** After a debit for a sale with no other reversible rows, what the refund query
      lists adds up to the debit. */
  lemma ListedIsTheDebit(
    lots: seq<Lot>, rows: seq<Redemption>, draws: seq<Draw>, c: CustomerRef, debit: nat, sale: int, listed: seq<nat>)
    requires forall k :: 0 <= k < |rows| ==> !Reversible(rows[k], c, sale)
    requires forall k :: 0 <= k < |draws| ==> draws[k].amount >= 0
    requires WholeListing(lots, rows + RedemptionRows(draws, c, debit, Some(sale)), listed, c, sale)
    ensures ListedOutstanding(rows + RedemptionRows(draws, c, debit, Some(sale)), listed) == Sum(draws, DrawnAmount())
  {
    ListedIsWhole(lots, rows + RedemptionRows(draws, c, debit, Some(sale)), listed, c, sale);
    AddedWhole(rows, draws, c, debit, sale);
  }

  /** A lot that gave what the added rows say gets it back when they are restored. */
  lemma LotComesBack(
    before: seq<Lot>, lots: seq<Lot>, rows: seq<Redemption>, draws: seq<Draw>, listed: seq<nat>, later: Moment,
    c: CustomerRef, debit: nat, sale: int, i: nat)
    requires i < |lots| == |before|
    requires forall k :: 0 <= k < |rows| ==> !Reversible(rows[k], c, sale)
    requires forall k :: 0 <= k < |draws| ==> draws[k].amount >= 0
    requires WholeListing(lots, rows + RedemptionRows(draws, c, debit, Some(sale)), listed, c, sale)
    requires lots[i].remaining + Sum(rows + RedemptionRows(draws, c, debit, Some(sale)), OutstandingOn(i))
          == before[i].remaining + Sum(rows, OutstandingOn(i))
    requires Sum(draws, DrawnAmount()) >= 0
    ensures var back := RestoreFrom(lots, rows + RedemptionRows(draws, c, debit, Some(sale)), listed, Sum(draws, DrawnAmount()), later);
            back.left == 0 && |back.lots| == |lots| && back.lots[i].remaining == before[i].remaining
  {
    var added := RedemptionRows(draws, c, debit, Some(sale));
    var amount := Sum(draws, DrawnAmount());
    ListedIsTheDebit(lots, rows, draws, c, debit, sale, listed);
    RestoreBalancesLot(lots, rows + added, listed, amount, later, i);
    ClosedRows(lots, rows, added, listed, amount, later, c, sale, i);
    NothingLeftOver(lots, rows + added, listed, amount, later, c, sale);
  }

  /** Round trip: a debit for a sale followed by a full refund of that sale puts
      every lot back to the balance it had, whatever was on the table before. */
  lemma ConsumeThenRestore(
    lots: seq<Lot>, rows: seq<Redemption>, c: CustomerRef, amount: nat, now: Moment, later: Moment,
    debit: nat, sale: int, listed: seq<nat>, i: nat)
    requires Consume(lots, c, amount, now).Some? && i < |lots|
    requires forall k :: 0 <= k < |rows| && rows[k].owner == c && rows[k].sale == Some(sale) ==> rows[k].restored >= rows[k].redeemed
    requires forall k, m :: 0 <= k < m < |listed| ==> listed[k] != listed[m]
    requires var drawn := Consume(lots, c, amount, now).value;
             var open := rows + RedemptionRows(drawn.draws, c, debit, Some(sale));
             && (forall k :: 0 <= k < |open| ==> open[k].lot < |drawn.lots|)
             && (forall k :: 0 <= k < |listed| ==> listed[k] < |open|)
             && (forall k :: 0 <= k < |listed| ==>
                   open[listed[k]].owner == c && open[listed[k]].sale == Some(sale) && open[listed[k]].redeemed > open[listed[k]].restored)
             && (forall k :: 0 <= k < |open| && open[k].owner == c && open[k].sale == Some(sale) && open[k].redeemed > open[k].restored ==> k in listed)
    ensures var drawn := Consume(lots, c, amount, now).value;
            var open := rows + RedemptionRows(drawn.draws, c, debit, Some(sale));
            var back := RestoreFrom(drawn.lots, open, listed, amount, later);
            back.left == 0 && |back.lots| == |lots| && back.lots[i].remaining == lots[i].remaining
  {
    var drawn := Consume(lots, c, amount, now).value;
    ConsumeDraws(lots, c, amount, now);
    ConsumeExact(lots, c, amount, now);
    ConsumeBalancesLot(lots, rows, c, amount, now, debit, Some(sale), i);
    assert WholeListing(drawn.lots, rows + RedemptionRows(drawn.draws, c, debit, Some(sale)), listed, c, sale);
    LotComesBack(lots, drawn.lots, rows, drawn.draws, listed, later, c, debit, sale, i);
  }

  lemma NothingLeftOver(lots: seq<Lot>, rows: seq<Redemption>, listed: seq<nat>, left: nat, now: Moment, c: CustomerRef, sale: int)
    requires ReversibleListing(lots, rows, listed, c, sale) && left == ListedOutstanding(rows, listed)
    ensures RestoreFrom(lots, rows, listed, left, now).left == 0
  {
    if rows != [] {
      FullRestoreCloses(lots, rows, listed, left, now, c, sale, 0);
    }
  }

  lemma ClosedRows(
    lots: seq<Lot>, rows: seq<Redemption>, added: seq<Redemption>, listed: seq<nat>, amount: nat, now: Moment,
    c: CustomerRef, sale: int, i: nat)
    requires ReversibleListing(lots, rows + added, listed, c, sale)
    requires forall k :: 0 <= k < |rows| ==> !Reversible(rows[k], c, sale)
    requires forall k :: 0 <= k < |rows + added| && Reversible((rows + added)[k], c, sale) ==> k in listed
    requires forall k :: 0 <= k < |added| ==> added[k].owner == c && added[k].sale == Some(sale) && Outstanding(added[k]) >= 0
    requires ListedOutstanding(rows + added, listed) == amount
    ensures Sum(RestoreFrom(lots, rows + added, listed, amount, now).rows, OutstandingOn(i)) == Sum(rows, OutstandingOn(i))
  {
    var open := rows + added;
    var after := RestoreFrom(lots, open, listed, amount, now).rows;
    forall k | 0 <= k < |open|
      ensures k < |rows| ==> after[k] == rows[k]
      ensures k >= |rows| ==> Outstanding(after[k]) == 0
    {
      FullRestoreCloses(lots, open, listed, amount, now, c, sale, k);
      if k < |rows| {
        assert open[k] == rows[k];
      } else {
        assert open[k] == added[k - |rows|];
      }
    }
    var m := |rows|;
    assert after == after[..m] + after[m..];
    assert after[..m] == rows;
    SumConcat(after[..m], after[m..], OutstandingOn(i));
    SumZero(after[m..], OutstandingOn(i));
  }
}
