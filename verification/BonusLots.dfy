/** Bonus lots: issue, FIFO consumption, restoration and the expiry test.
    A table is a sequence of rows; a row's index stands for its id. */
module BonusLots {
  import opened Prelude

  type Moment = int

  /** The (company_id, customer_id) pair every bonus row carries. */
  datatype CustomerRef = CustomerRef(company: int, id: int)

  datatype LotStatus = Pending | Active | Redeemed | Expired | Cancelled

  datatype Lot = Lot(
    owner: CustomerRef,
    source: Option<nat>,        // row of the ledger that issued the lot
    issued: int,
    remaining: int,
    monetaryValue: real,
    issuedAt: Moment,
    activatesAt: Moment,
    expiresAt: Option<Moment>,
    status: LotStatus)

  predicate Live(l: Lot) { l.status == Pending || l.status == Active }

  predicate Lapsed(l: Lot, now: Moment) { l.expiresAt.Some? && l.expiresAt.value <= now }

  /** The lots a debit may draw on. */
  predicate Spendable(l: Lot, c: CustomerRef, now: Moment) {
    l.owner == c && Live(l) && l.activatesAt <= now && !Lapsed(l, now) && l.remaining > 0
  }

  /** The lots the expiry sweep takes. */
  predicate Due(l: Lot, now: Moment) { Live(l) && l.remaining > 0 && Lapsed(l, now) }

  function LiveOf(c: CustomerRef): Lot -> int {
    (l: Lot) => if l.owner == c && Live(l) then l.remaining else 0
  }

  function SpendableOf(c: CustomerRef, now: Moment): Lot -> int {
    (l: Lot) => if Spendable(l, c, now) then l.remaining else 0
  }

  function DueOf(c: CustomerRef, now: Moment): Lot -> int {
    (l: Lot) => if l.owner == c && Due(l, now) then l.remaining else 0
  }

  // ---------------------------------------------------------------- FIFO order

  predicate EarlierExpiry(a: Option<Moment>, b: Option<Moment>) {
    a.Some? && (b.None? || a.value < b.value)
  }

  /** ORDER BY activates_at, expires_at NULLS LAST, issued_at, id. */
  predicate Before(lots: seq<Lot>, i: nat, j: nat)
    requires i < |lots| && j < |lots|
  {
    var a, b := lots[i], lots[j];
    || a.activatesAt < b.activatesAt
    || (a.activatesAt == b.activatesAt && EarlierExpiry(a.expiresAt, b.expiresAt))
    || (a.activatesAt == b.activatesAt && a.expiresAt == b.expiresAt &&
        (a.issuedAt < b.issuedAt || (a.issuedAt == b.issuedAt && i < j)))
  }

  predicate InRange(order: seq<nat>, n: nat) {
    forall k :: 0 <= k < |order| ==> order[k] < n
  }

  ghost predicate Listing(lots: seq<Lot>, order: seq<nat>) {
    && InRange(order, |lots|)
    && (forall k, m :: 0 <= k < m < |order| ==> order[k] != order[m])
  }

  ghost predicate BeforeAll(lots: seq<Lot>, i: nat, order: seq<nat>) {
    i < |lots| && forall x: nat :: x in order ==> x < |lots| && Before(lots, i, x)
  }

  ghost predicate InFifoOrder(lots: seq<Lot>, order: seq<nat>) {
    order == [] || (BeforeAll(lots, order[0], order[1..]) && InFifoOrder(lots, order[1..]))
  }

  lemma {:induction false} FifoByPosition(lots: seq<Lot>, order: seq<nat>)
    requires InFifoOrder(lots, order)
    ensures Listing(lots, order)
    ensures forall k, m :: 0 <= k < m < |order| ==> Before(lots, order[k], order[m])
  {
    if order != [] {
      FifoByPosition(lots, order[1..]);
      forall k | 1 <= k < |order|
        ensures order[k] < |lots| && order[k] != order[0] && Before(lots, order[0], order[k])
      {
        assert order[k] == order[1..][k - 1] && order[k] in order[1..];
      }
      forall k, m | 1 <= k < m < |order| ensures order[k] != order[m] && Before(lots, order[k], order[m]) {
        assert order[k] == order[1..][k - 1] && order[m] == order[1..][m - 1];
      }
    }
  }

  function InsertByFifo(lots: seq<Lot>, order: seq<nat>, i: nat): (r: seq<nat>)
    requires i < |lots| && InRange(order, |lots|)
    ensures |r| == |order| + 1
    ensures InRange(r, |lots|)
    ensures forall x: nat :: x in r <==> x == i || x in order
  {
    if order == [] then [i]
    else if Before(lots, i, order[0]) then [i] + order
    else [order[0]] + InsertByFifo(lots, order[1..], i)
  }

  /** The spendable lots among the first `n`, oldest first. */
  function FifoOrder(lots: seq<Lot>, n: nat, c: CustomerRef, now: Moment): (r: seq<nat>)
    requires n <= |lots|
    ensures InRange(r, |lots|)
    ensures forall i: nat :: i in r <==> i < n && Spendable(lots[i], c, now)
  {
    if n == 0 then []
    else
      var rest := FifoOrder(lots, n - 1, c, now);
      if Spendable(lots[n - 1], c, now) then InsertByFifo(lots, rest, n - 1) else rest
  }

  lemma PrependKeepsOrder(lots: seq<Lot>, order: seq<nat>, i: nat)
    requires i < |lots| && order != [] && InRange(order, |lots|) && InFifoOrder(lots, order) && Before(lots, i, order[0])
    ensures InFifoOrder(lots, [i] + order)
  {
    forall x: nat | x in order ensures x < |lots| && Before(lots, i, x) {
      if x != order[0] {
        assert x in order[1..];
      }
    }
    assert ([i] + order)[1..] == order;
  }

  lemma KeepFirst(lots: seq<Lot>, order: seq<nat>, tail: seq<nat>)
    requires order != [] && InFifoOrder(lots, order) && InFifoOrder(lots, tail)
    requires forall x: nat :: x in tail ==> x < |lots| && order[0] < |lots| && Before(lots, order[0], x)
    requires order[0] < |lots|
    ensures InFifoOrder(lots, [order[0]] + tail)
  {
    assert ([order[0]] + tail)[1..] == tail;
  }

  lemma {:induction false} InsertKeepsOrder(lots: seq<Lot>, order: seq<nat>, i: nat)
    requires i < |lots| && i !in order && InRange(order, |lots|) && InFifoOrder(lots, order)
    ensures InFifoOrder(lots, InsertByFifo(lots, order, i))
  {
    if order == [] {
      assert InsertByFifo(lots, order, i)[1..] == [];
    } else if Before(lots, i, order[0]) {
      PrependKeepsOrder(lots, order, i);
    } else {
      InsertKeepsOrder(lots, order[1..], i);
      KeepFirst(lots, order, InsertByFifo(lots, order[1..], i));
    }
  }

  /** What the query promises: exactly the spendable lots, each once, in order. */
  lemma {:induction false} FifoOrderSorted(lots: seq<Lot>, n: nat, c: CustomerRef, now: Moment)
    requires n <= |lots|
    ensures InFifoOrder(lots, FifoOrder(lots, n, c, now))
  {
    if n > 0 {
      FifoOrderSorted(lots, n - 1, c, now);
      if Spendable(lots[n - 1], c, now) {
        InsertKeepsOrder(lots, FifoOrder(lots, n - 1, c, now), n - 1);
      }
    }
  }

  /** The listing as the drawing loop uses it. */
  lemma ListedSpendable(lots: seq<Lot>, order: seq<nat>, c: CustomerRef, now: Moment)
    requires order == FifoOrder(lots, |lots|, c, now)
    ensures AllSpendable(lots, order, c, now)
    ensures forall k, m :: 0 <= k < m < |order| ==> Before(lots, order[k], order[m])
  {
    FifoOrderSorted(lots, |lots|, c, now);
    FifoByPosition(lots, order);
    forall k | 0 <= k < |order| ensures Spendable(lots[order[k]], c, now) {
      assert order[k] in order;
    }
  }

  // ---------------------------------------------------------------- drawing

  datatype Draw = Draw(lot: nat, amount: int)
  datatype Drawing = Drawing(lots: seq<Lot>, draws: seq<Draw>, left: int)

  function SpendFrom(l: Lot, used: int): Lot {
    l.(remaining := l.remaining - used, status := if l.remaining == used then Redeemed else Active)
  }

  /** The loop of ConsumeBonusLots: walk the listed lots, take what each can give. */
  function DrawFrom(lots: seq<Lot>, order: seq<nat>, left: int): (r: Drawing)
    requires InRange(order, |lots|)
    ensures |r.lots| == |lots|
    decreases |order|
  {
    if order == [] || left == 0 then Drawing(lots, [], left)
    else
      var i := order[0];
      var used := Min(left, lots[i].remaining);
      var rest := DrawFrom(lots[i := SpendFrom(lots[i], used)], order[1..], left - used);
      Drawing(rest.lots, [Draw(i, used)] + rest.draws, rest.left)
  }

  /** One turn of the loop at position `k`. */
  lemma DrawTurn(lots: seq<Lot>, order: seq<nat>, k: nat, left: int)
    requires InRange(order, |lots|) && k < |order| && left != 0
    ensures var i := order[k];
      var used := Min(left, lots[i].remaining);
      var rest := DrawFrom(lots[i := SpendFrom(lots[i], used)], order[k + 1..], left - used);
      DrawFrom(lots, order[k..], left) == Drawing(rest.lots, [Draw(i, used)] + rest.draws, rest.left)
  {
    assert order[k..][1..] == order[k + 1..];
  }

  function OrderTotal(lots: seq<Lot>, order: seq<nat>): int
    requires InRange(order, |lots|)
  {
    if order == [] then 0 else lots[order[0]].remaining + OrderTotal(lots, order[1..])
  }

  lemma {:induction false} OrderTotalInsert(lots: seq<Lot>, order: seq<nat>, i: nat)
    requires i < |lots| && InRange(order, |lots|)
    ensures OrderTotal(lots, InsertByFifo(lots, order, i)) == OrderTotal(lots, order) + lots[i].remaining
  {
    if order == [] {
      assert InsertByFifo(lots, order, i)[1..] == [];
    } else if Before(lots, i, order[0]) {
      assert ([i] + order)[1..] == order;
    } else {
      var tail := InsertByFifo(lots, order[1..], i);
      OrderTotalInsert(lots, order[1..], i);
      assert ([order[0]] + tail)[1..] == tail;
    }
  }

  lemma {:induction false} FifoTotal(lots: seq<Lot>, n: nat, c: CustomerRef, now: Moment)
    requires n <= |lots|
    ensures OrderTotal(lots, FifoOrder(lots, n, c, now)) == Sum(lots[..n], SpendableOf(c, now))
  {
    if n > 0 {
      FifoTotal(lots, n - 1, c, now);
      assert lots[..n][..n - 1] == lots[..n - 1];
      if Spendable(lots[n - 1], c, now) {
        OrderTotalInsert(lots, FifoOrder(lots, n - 1, c, now), n - 1);
      }
    }
  }

  lemma {:induction false} OrderTotalUnchanged(a: seq<Lot>, b: seq<Lot>, order: seq<nat>)
    requires |a| == |b| && InRange(order, |a|)
    requires forall k :: 0 <= k < |order| ==> a[order[k]] == b[order[k]]
    ensures OrderTotal(a, order) == OrderTotal(b, order)
  {
    if order != [] {
      OrderTotalUnchanged(a, b, order[1..]);
    }
  }

  function DrawnAmount(): Draw -> int { (d: Draw) => d.amount }

  ghost predicate AllSpendable(lots: seq<Lot>, order: seq<nat>, c: CustomerRef, now: Moment) {
    Listing(lots, order) && forall k :: 0 <= k < |order| ==> Spendable(lots[order[k]], c, now)
  }

  /** One step of the loop leaves the rest of the listing spendable. */
  lemma SpendStep(lots: seq<Lot>, order: seq<nat>, used: int, c: CustomerRef, now: Moment)
    requires order != [] && AllSpendable(lots, order, c, now)
    ensures AllSpendable(lots[order[0] := SpendFrom(lots[order[0]], used)], order[1..], c, now)
    ensures OrderTotal(lots[order[0] := SpendFrom(lots[order[0]], used)], order[1..]) == OrderTotal(lots, order[1..])
  {
    var lots' := lots[order[0] := SpendFrom(lots[order[0]], used)];
    OrderTotalUnchanged(lots, lots', order[1..]);
  }

  /** Exactly the shortfall is left undrawn. */
  lemma {:induction false} DrawLeft(lots: seq<Lot>, order: seq<nat>, left: nat, c: CustomerRef, now: Moment)
    requires AllSpendable(lots, order, c, now)
    ensures OrderTotal(lots, order) >= 0
    ensures DrawFrom(lots, order, left).left == Max(0, left - OrderTotal(lots, order))
    decreases |order|
  {
    if order != [] {
      var used := Min(left, lots[order[0]].remaining);
      SpendStep(lots, order, used, c, now);
      DrawLeft(lots[order[0] := SpendFrom(lots[order[0]], used)], order[1..], left - used, c, now);
    }
  }

  lemma DrawnCons(d: Draw, draws: seq<Draw>)
    ensures Sum([d] + draws, DrawnAmount()) == d.amount + Sum(draws, DrawnAmount())
  {
    SumConcat([d], draws, DrawnAmount());
    assert [d][..0] == [];
  }

  lemma {:induction false} DrawnSum(lots: seq<Lot>, order: seq<nat>, left: int)
    requires InRange(order, |lots|)
    ensures Sum(DrawFrom(lots, order, left).draws, DrawnAmount()) == left - DrawFrom(lots, order, left).left
    decreases |order|
  {
    if order != [] && left != 0 {
      var i := order[0];
      var used := Min(left, lots[i].remaining);
      var lots' := lots[i := SpendFrom(lots[i], used)];
      DrawnSum(lots', order[1..], left - used);
      DrawnCons(Draw(i, used), DrawFrom(lots', order[1..], left - used).draws);
    }
  }

  /** Spending from one spendable lot moves that much out of its owner's live lots. */
  lemma SpendMoves(lots: seq<Lot>, i: nat, used: int, c: CustomerRef, now: Moment, d: CustomerRef)
    requires i < |lots| && Spendable(lots[i], c, now) && used <= lots[i].remaining
    ensures Sum(lots[i := SpendFrom(lots[i], used)], LiveOf(d)) == Sum(lots, LiveOf(d)) - (if d == c then used else 0)
  {
    SumUpdate(lots, i, SpendFrom(lots[i], used), LiveOf(d));
  }

  /** Drawing moves points out of the owner's live lots and out of nobody else's. */
  lemma {:induction false} DrawMoves(lots: seq<Lot>, order: seq<nat>, left: nat, c: CustomerRef, now: Moment, d: CustomerRef)
    requires AllSpendable(lots, order, c, now)
    ensures Sum(DrawFrom(lots, order, left).lots, LiveOf(d))
         == Sum(lots, LiveOf(d)) - (if d == c then left - DrawFrom(lots, order, left).left else 0)
    decreases |order|
  {
    if order != [] && left != 0 {
      var i := order[0];
      var used := Min(left, lots[i].remaining);
      assert Spendable(lots[i], c, now);
      SpendStep(lots, order, used, c, now);
      SpendMoves(lots, i, used, c, now, d);
      DrawMoves(lots[i := SpendFrom(lots[i], used)], order[1..], left - used, c, now, d);
    }
  }

  /** What leaves the owner's live lots is what is drawn, and nobody else's change. */
  lemma DrawConserves(lots: seq<Lot>, order: seq<nat>, left: nat, c: CustomerRef, now: Moment, d: CustomerRef)
    requires AllSpendable(lots, order, c, now)
    ensures var r := DrawFrom(lots, order, left);
      && Sum(r.lots, LiveOf(d)) == Sum(lots, LiveOf(d)) - (if d == c then left - r.left else 0)
      && Sum(r.draws, DrawnAmount()) == left - r.left
  {
    DrawMoves(lots, order, left, c, now, d);
    DrawnSum(lots, order, left);
  }

  /** The part of the request that reaches position `k` of the listing. */
  function Reaching(lots: seq<Lot>, order: seq<nat>, amount: int, k: nat): int
    requires k <= |order| && InRange(order, |lots|)
  {
    Max(0, amount - OrderTotal(lots, order[..k]))
  }

  /** FIFO in closed form: each listed lot gives the smaller of what it holds and
      what the older lots could not cover; a lot off the list keeps its row. */
  lemma {:induction false} DrawIsFifo(lots: seq<Lot>, order: seq<nat>, amount: nat, c: CustomerRef, now: Moment, k: nat)
    requires AllSpendable(lots, order, c, now) && k < |order|
    ensures DrawFrom(lots, order, amount).lots[order[k]].remaining
         == lots[order[k]].remaining - Min(lots[order[k]].remaining, Reaching(lots, order, amount, k))
    decreases |order|
  {
    var i := order[0];
    var used := Min(amount, lots[i].remaining);
    var lots' := lots[i := SpendFrom(lots[i], used)];
    SpendStep(lots, order, used, c, now);
    if k == 0 {
      assert order[..0] == [];
      if amount > 0 {
        DrawElsewhere(lots', order[1..], amount - used, i);
      }
    } else if amount == 0 {
      PrefixNonNegative(lots, order, k, c, now);
    } else {
      DrawIsFifo(lots', order[1..], amount - used, c, now, k - 1);
      var older := order[1..][..k - 1];
      assert order[..k][1..] == older;
      assert forall m :: 0 <= m < |older| ==> older[m] == order[m + 1];
      OrderTotalUnchanged(lots, lots', older);
      PrefixNonNegative(lots', order[1..], k - 1, c, now);
    }
  }

  lemma {:induction false} PrefixNonNegative(lots: seq<Lot>, order: seq<nat>, k: nat, c: CustomerRef, now: Moment)
    requires AllSpendable(lots, order, c, now) && k <= |order|
    ensures OrderTotal(lots, order[..k]) >= 0
    decreases k
  {
    if k > 0 {
      PrefixNonNegative(lots, order[1..], k - 1, c, now);
      assert order[..k][1..] == order[1..][..k - 1];
    }
  }

  lemma {:induction false} DrawElsewhere(lots: seq<Lot>, order: seq<nat>, left: int, i: nat)
    requires InRange(order, |lots|) && i < |lots| && i !in order
    ensures DrawFrom(lots, order, left).lots[i] == lots[i]
    decreases |order|
  {
    if order == [] || left == 0 {
    } else {
      var used := Min(left, lots[order[0]].remaining);
      DrawElsewhere(lots[order[0] := SpendFrom(lots[order[0]], used)], order[1..], left - used, i);
    }
  }

  /** ConsumeBonusLots: None is the "active bonus lots are insufficient" rollback. */
  function Consume(lots: seq<Lot>, c: CustomerRef, amount: int, now: Moment): Option<Drawing> {
    var r := DrawFrom(lots, FifoOrder(lots, |lots|, c, now), amount);
    if r.left > 0 then None else Some(r)
  }

  /** Consumption succeeds exactly when the spendable lots cover the amount, and
      then takes exactly the amount from the owner's live lots. */
  lemma ConsumeExact(lots: seq<Lot>, c: CustomerRef, amount: nat, now: Moment)
    ensures Consume(lots, c, amount, now).Some? <==> amount <= Sum(lots, SpendableOf(c, now))
    ensures Consume(lots, c, amount, now).Some? ==>
              var r := Consume(lots, c, amount, now).value;
              && r.left == 0
              && |r.lots| == |lots|
              && Sum(r.draws, DrawnAmount()) == amount
              && Sum(r.lots, LiveOf(c)) == Sum(lots, LiveOf(c)) - amount
  {
    var order := FifoOrder(lots, |lots|, c, now);
    ListedSpendable(lots, order, c, now);
    DrawLeft(lots, order, amount, c, now);
    FifoTotal(lots, |lots|, c, now);
    assert lots[..|lots|] == lots;
    DrawConserves(lots, order, amount, c, now, c);
  }

  lemma ConsumeOthers(lots: seq<Lot>, c: CustomerRef, amount: nat, now: Moment, d: CustomerRef)
    requires Consume(lots, c, amount, now).Some? && d != c
    ensures Sum(Consume(lots, c, amount, now).value.lots, LiveOf(d)) == Sum(lots, LiveOf(d))
  {
    var order := FifoOrder(lots, |lots|, c, now);
    ListedSpendable(lots, order, c, now);
    DrawConserves(lots, order, amount, c, now, d);
  }

  /** No lot gives a point while an older spendable lot still has one. */
  lemma ConsumeOldestFirst(lots: seq<Lot>, c: CustomerRef, amount: nat, now: Moment, i: nat, j: nat)
    requires Consume(lots, c, amount, now).Some?
    requires i < |lots| && j < |lots| && Spendable(lots[i], c, now) && Spendable(lots[j], c, now)
    requires Before(lots, i, j)
    ensures var after := Consume(lots, c, amount, now).value.lots;
            after[j].remaining < lots[j].remaining ==> after[i].remaining == 0
  {
    var order := FifoOrder(lots, |lots|, c, now);
    ListedSpendable(lots, order, c, now);
    assert i in order && j in order;
    var p :| 0 <= p < |order| && order[p] == i;
    var q :| 0 <= q < |order| && order[q] == j;
    assert p < q;
    DrawIsFifo(lots, order, amount, c, now, p);
    DrawIsFifo(lots, order, amount, c, now, q);
    PrefixGrows(lots, order, p, q, c, now);
  }

  lemma {:induction false} PrefixGrows(lots: seq<Lot>, order: seq<nat>, p: nat, q: nat, c: CustomerRef, now: Moment)
    requires AllSpendable(lots, order, c, now) && p < q <= |order|
    ensures OrderTotal(lots, order[..q]) >= OrderTotal(lots, order[..p]) + lots[order[p]].remaining
    decreases p
  {
    assert order[..q][1..] == order[1..][..q - 1];
    if p == 0 {
      PrefixNonNegative(lots, order[1..], q - 1, c, now);
    } else {
      assert order[..p][1..] == order[1..][..p - 1];
      PrefixGrows(lots, order[1..], p - 1, q - 1, c, now);
    }
  }
}
