/** What the owner and the customer are shown: company liability, expected
    redemption cost and the value of one wallet. */
module BonusReports {
  import opened Prelude
  import opened BonusLots
  import opened BonusRestore
  import opened BonusBook
  import opened BonusInvariants

  function RealSum<T>(rows: seq<T>, f: T -> real): real {
    if rows == [] then 0.0 else RealSum(rows[..|rows| - 1], f) + f(rows[|rows| - 1])
  }

  /** monetary_value * remaining / issued. */
  function LotValue(l: Lot): real {
    if l.issued > 0 then l.monetaryValue * l.remaining as real / l.issued as real else 0.0
  }

  function IssuedIn(company: int): Lot -> int {
    (l: Lot) => if l.owner.company == company then l.issued else 0
  }

  function ActiveIn(company: int, now: Moment): Lot -> int {
    (l: Lot) => if l.owner.company == company && l.status == Active && l.activatesAt <= now && !Lapsed(l, now) then l.remaining else 0
  }

  function OwedIn(company: int, now: Moment): Lot -> real {
    (l: Lot) => if l.owner.company == company && Live(l) && !Lapsed(l, now) then LotValue(l) else 0.0
  }

  function OwedTo(c: CustomerRef, now: Moment): Lot -> real {
    (l: Lot) => if l.owner == c && Live(l) && l.remaining > 0 && !Lapsed(l, now) then LotValue(l) else 0.0
  }

  function OutstandingIn(company: int): Redemption -> int {
    (r: Redemption) => if r.owner.company == company then Outstanding(r) else 0
  }

  function Issued(b: Book, company: int): int { Sum(b.lots, IssuedIn(company)) }

  function ActivePoints(b: Book, company: int, now: Moment): int { Sum(b.lots, ActiveIn(company, now)) }

  function Liability(b: Book, company: int, now: Moment): real { RealSum(b.lots, OwedIn(company, now)) }

  function Redeemed(b: Book, company: int): int { Sum(b.redemptions, OutstandingIn(company)) }

  function RedemptionRate(b: Book, company: int): real
    requires Issued(b, company) != 0
  {
    var rate := Redeemed(b, company) as real / Issued(b, company) as real;
    if rate > 1.0 then 1.0 else rate
  }

  function ExpectedCost(b: Book, company: int, now: Moment): real {
    if Issued(b, company) == 0 then 0.0 else Liability(b, company, now) * RedemptionRate(b, company)
  }

  /** The "bonusValue" of customerWallet. */
  function WalletValue(b: Book, c: CustomerRef, now: Moment): real { RealSum(b.lots, OwedTo(c, now)) }

  lemma RealSumAppend<T>(rows: seq<T>, row: T, f: T -> real)
    ensures RealSum(rows + [row], f) == RealSum(rows, f) + f(row)
  {
    assert (rows + [row])[..|rows|] == rows;
  }

  /** What one more lot adds to each figure at a time: issued points whatever its status;
      points that are `active`, begun and not past their date; and, of what is pending or
      active and not past its date, the share of its value that is still on it. */
  lemma OneMoreLot(b: Book, l: Lot, company: int, now: Moment)
    requires l.issued > 0
    ensures var t, own := b.(lots := b.lots + [l]), l.owner.company == company;
      var current := l.expiresAt.None? || now < l.expiresAt.value;
      var value := l.monetaryValue * l.remaining as real / l.issued as real;
      && Issued(t, company) == Issued(b, company) + (if own then l.issued else 0)
      && ActivePoints(t, company, now)
         == ActivePoints(b, company, now) + (if own && l.status == Active && l.activatesAt <= now && current then l.remaining else 0)
      && Liability(t, company, now)
         == Liability(b, company, now) + (if own && (l.status == Pending || l.status == Active) && current then value else 0.0)
      && WalletValue(t, l.owner, now)
         == WalletValue(b, l.owner, now) + (if (l.status == Pending || l.status == Active) && l.remaining > 0 && current then value else 0.0)
  {
    SumAppend(b.lots, l, IssuedIn(company));
    SumAppend(b.lots, l, ActiveIn(company, now));
    RealSumAppend(b.lots, l, OwedIn(company, now));
    RealSumAppend(b.lots, l, OwedTo(l.owner, now));
  }

  // ---------------------------------------------------------------- lazy and eager expiry

  lemma {:induction false} RealSumSame<T>(a: seq<T>, b: seq<T>, f: T -> real, g: T -> real)
    requires |a| == |b| && forall i :: 0 <= i < |a| ==> f(a[i]) == g(b[i])
    ensures RealSum(a, f) == RealSum(b, g)
    decreases |a|
  {
    if a != [] {
      RealSumSame(a[..|a| - 1], b[..|b| - 1], f, g);
    }
  }

  /** Whether the sweep has run or not, the report at that moment reads the same. */
  lemma SweepLeavesReport(b: Book, tenant: Option<int>, now: Moment, company: int)
    ensures var swept := Sweep(b, tenant, now);
            && Issued(swept, company) == Issued(b, company)
            && ActivePoints(swept, company, now) == ActivePoints(b, company, now)
            && Liability(swept, company, now) == Liability(b, company, now)
            && ExpectedCost(swept, company, now) == ExpectedCost(b, company, now)
  {
    var lots' := SweptLots(b.lots, tenant, now);
    SumSame(b.lots, lots', IssuedIn(company), IssuedIn(company));
    SumSame(b.lots, lots', ActiveIn(company, now), ActiveIn(company, now));
    RealSumSame(b.lots, lots', OwedIn(company, now), OwedIn(company, now));
  }

  /** A wallet, too, shows the same value before and after the sweep. */
  lemma SweepLeavesWallet(b: Book, tenant: Option<int>, now: Moment, c: CustomerRef)
    ensures WalletValue(Sweep(b, tenant, now), c, now) == WalletValue(b, c, now)
  {
    RealSumSame(b.lots, SweptLots(b.lots, tenant, now), OwedTo(c, now), OwedTo(c, now));
  }

  // ---------------------------------------------------------------- wallets against liability

  function WalletTotal(b: Book, customers: seq<CustomerRef>, now: Moment): real {
    if customers == [] then 0.0
    else WalletTotal(b, customers[..|customers| - 1], now) + WalletValue(b, customers[|customers| - 1], now)
  }

  /** The company's customers, each once. */
  ghost predicate Roster(customers: seq<CustomerRef>, company: int, lots: seq<Lot>) {
    && (forall i :: 0 <= i < |customers| ==> customers[i].company == company)
    && (forall i, j :: 0 <= i < j < |customers| ==> customers[i] != customers[j])
    && (forall i :: 0 <= i < |lots| && lots[i].owner.company == company ==> lots[i].owner in customers)
  }

  function OwedToAny(customers: seq<CustomerRef>, now: Moment): Lot -> real {
    (l: Lot) => if l.owner in customers && Live(l) && l.remaining > 0 && !Lapsed(l, now) then LotValue(l) else 0.0
  }

  lemma {:induction false} RealSumAdd<T>(rows: seq<T>, f: T -> real, g: T -> real, h: T -> real)
    requires forall i :: 0 <= i < |rows| ==> f(rows[i]) == g(rows[i]) + h(rows[i])
    ensures RealSum(rows, f) == RealSum(rows, g) + RealSum(rows, h)
    decreases |rows|
  {
    if rows != [] {
      RealSumAdd(rows[..|rows| - 1], f, g, h);
    }
  }

  lemma {:induction false} RealSumZero<T>(rows: seq<T>, f: T -> real)
    requires forall i :: 0 <= i < |rows| ==> f(rows[i]) == 0.0
    ensures RealSum(rows, f) == 0.0
    decreases |rows|
  {
    if rows != [] {
      RealSumZero(rows[..|rows| - 1], f);
    }
  }

  lemma {:induction false} WalletsByOwner(b: Book, customers: seq<CustomerRef>, now: Moment)
    requires forall i, j :: 0 <= i < j < |customers| ==> customers[i] != customers[j]
    ensures WalletTotal(b, customers, now) == RealSum(b.lots, OwedToAny(customers, now))
    decreases |customers|
  {
    if customers == [] {
      RealSumZero(b.lots, OwedToAny(customers, now));
    } else {
      var m := |customers| - 1;
      WalletsByOwner(b, customers[..m], now);
      forall i | 0 <= i < |b.lots|
        ensures OwedToAny(customers, now)(b.lots[i]) == OwedToAny(customers[..m], now)(b.lots[i]) + OwedTo(customers[m], now)(b.lots[i])
      {
        assert customers == customers[..m] + [customers[m]];
      }
      RealSumAdd(b.lots, OwedToAny(customers, now), OwedToAny(customers[..m], now), OwedTo(customers[m], now));
    }
  }

  /** The wallets of all customers add up to the company's liability. */
  lemma WalletsAddUpToLiability(b: Book, customers: seq<CustomerRef>, company: int, now: Moment)
    requires LotsOk(b) && Roster(customers, company, b.lots)
    ensures WalletTotal(b, customers, now) == Liability(b, company, now)
  {
    WalletsByOwner(b, customers, now);
    forall i | 0 <= i < |b.lots| ensures OwedToAny(customers, now)(b.lots[i]) == OwedIn(company, now)(b.lots[i]) {
      NothingLeftNoValue(b.lots[i]);
    }
    RealSumSame(b.lots, b.lots, OwedToAny(customers, now), OwedIn(company, now));
  }

  lemma NothingLeftNoValue(l: Lot)
    requires l.remaining >= 0
    ensures l.remaining == 0 ==> LotValue(l) == 0.0
  {}

  // ---------------------------------------------------------------- bounds

  function IssuedBelow(lots: seq<Lot>, n: nat, company: int): int
    requires n <= |lots|
  {
    Sum(lots[..n], IssuedIn(company))
  }

  function OutBelow(n: nat, company: int): Redemption -> int {
    (r: Redemption) => if r.lot < n && r.owner.company == company then Outstanding(r) else 0
  }

  function OutAt(n: nat, company: int): Redemption -> int {
    (r: Redemption) => if r.lot == n && r.owner.company == company then Outstanding(r) else 0
  }

  lemma {:induction false} RedeemedBelow(b: Book, n: nat, company: int)
    requires Accounts(b) && n <= |b.lots|
    ensures Sum(b.redemptions, OutBelow(n, company)) <= IssuedBelow(b.lots, n, company)
    decreases n
  {
    if n == 0 {
      SumZero(b.redemptions, OutBelow(0, company));
      assert b.lots[..0] == [];
    } else {
      var m := n - 1;
      RedeemedBelow(b, m, company);
      SumAdd(b.redemptions, OutBelow(n, company), OutBelow(m, company), OutAt(m, company));
      assert b.lots[..n][..m] == b.lots[..m];
      if b.lots[m].owner.company == company {
        SumMono(b.redemptions, OutAt(m, company), OutstandingOn(m));
      } else {
        SumZero(b.redemptions, OutAt(m, company));
      }
    }
  }

  /** Redemptions never exceed issues, so the cap least(1, ...) is never reached
      from above. */
  lemma RedeemedWithinIssued(b: Book, company: int)
    requires Accounts(b)
    ensures 0 <= Redeemed(b, company) <= Issued(b, company)
  {
    RedeemedBelow(b, |b.lots|, company);
    assert b.lots[..|b.lots|] == b.lots;
    SumMono(b.redemptions, OutstandingIn(company), OutBelow(|b.lots|, company));
    SumNonNegative(b.redemptions, OutstandingIn(company));
  }

  lemma {:induction false} LiabilityNonNegative(lots: seq<Lot>, company: int, now: Moment)
    requires forall i :: 0 <= i < |lots| ==> lots[i].remaining >= 0 && lots[i].monetaryValue >= 0.0
    ensures RealSum(lots, OwedIn(company, now)) >= 0.0
    decreases |lots|
  {
    if lots != [] {
      LiabilityNonNegative(lots[..|lots| - 1], company, now);
      ValueNonNegative(lots[|lots| - 1]);
    }
  }

  lemma ValueNonNegative(l: Lot)
    requires l.remaining >= 0 && l.monetaryValue >= 0.0
    ensures LotValue(l) >= 0.0
  {
    if l.issued > 0 {
      assert l.monetaryValue * l.remaining as real >= 0.0;
    }
  }

  lemma ScaledWithin(x: real, rate: real)
    requires x >= 0.0 && 0.0 <= rate <= 1.0
    ensures 0.0 <= x * rate <= x
  {}

  /** 0 <= expected <= liability, and expected is exactly liability times the
      share of issued points redeemed so far. */
  lemma ExpectedWithinLiability(b: Book, company: int, now: Moment)
    requires Accounts(b) && forall i :: 0 <= i < |b.lots| ==> b.lots[i].monetaryValue >= 0.0
    ensures 0.0 <= ExpectedCost(b, company, now) <= Liability(b, company, now)
    ensures Issued(b, company) != 0 ==>
              ExpectedCost(b, company, now) == Liability(b, company, now) * (Redeemed(b, company) as real / Issued(b, company) as real)
  {
    RedeemedWithinIssued(b, company);
    LiabilityNonNegative(b.lots, company, now);
    if Issued(b, company) != 0 {
      RateWithinOne(Redeemed(b, company), Issued(b, company));
      ScaledWithin(Liability(b, company, now), RedemptionRate(b, company));
    }
  }

  lemma RateWithinOne(part: int, whole: int)
    requires 0 <= part <= whole && whole > 0
    ensures 0.0 <= part as real / whole as real <= 1.0
  {}

  // ---------------------------------------------------------------- liability against balances

  /** Every lot the code issues is worth one unit a point. */
  ghost predicate FacePriced(b: Book) {
    forall i :: 0 <= i < |b.lots| ==> b.lots[i].monetaryValue == b.lots[i].issued as real
  }

  lemma FaceValue(l: Lot)
    requires l.issued > 0 && l.monetaryValue == l.issued as real
    ensures LotValue(l) == l.remaining as real
  {}

  /** A wallet's value is the balance less what the next sweep would take. */
  lemma WalletIsBalanceLessDue(b: Book, c: CustomerRef, now: Moment)
    requires Accounts(b) && FacePriced(b) && c in b.points
    ensures WalletValue(b, c, now) == (b.points[c] - DueTotal(b, c, None, now)) as real
  {
    WalletByLots(b.lots, c, now);
  }

  lemma {:induction false} WalletByLots(lots: seq<Lot>, c: CustomerRef, now: Moment)
    requires forall i :: 0 <= i < |lots| ==>
               lots[i].issued > 0 && lots[i].remaining >= 0 && lots[i].monetaryValue == lots[i].issued as real
    ensures RealSum(lots, OwedTo(c, now)) == (Sum(lots, LiveOf(c)) - Sum(lots, DueOf(c, now))) as real
    decreases |lots|
  {
    if lots != [] {
      WalletByLots(lots[..|lots| - 1], c, now);
      FaceValue(lots[|lots| - 1]);
    }
  }
}
