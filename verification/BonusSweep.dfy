/** The expiry statement part by part: grouping what is due, lowering the balances
    with their ledger rows, and closing the lots. */
module BonusSweep {
  import opened Prelude
  import opened BonusLots
  import opened BonusBook
  import opened BonusInvariants
  import opened BonusLedger

  lemma DueSumStep(lots: seq<Lot>, i: nat, c: CustomerRef, now: Moment)
    requires i < |lots|
    ensures Sum(lots[..i + 1], DueOf(c, now)) == Sum(lots[..i], DueOf(c, now)) + DueOf(c, now)(lots[i])
  {
    assert lots[..i + 1] == lots[..i] + [lots[i]];
    SumAppend(lots[..i], lots[i], DueOf(c, now));
  }

  lemma UnlistedHasNone(lots: seq<Lot>, c: CustomerRef, tenant: Option<int>, now: Moment)
    requires InTenant(c, tenant) && c !in DueOwners(lots, tenant, now)
    ensures Sum(lots, DueOf(c, now)) == 0
  {
    DueOwnersHaveDue(EmptyBook.(lots := lots), c, tenant, now);
    SumNonNegative(lots, DueOf(c, now));
  }

  /** The "expired" CTE: GROUP BY customer, with the sum of each group. */
  method GroupDue(lots: seq<Lot>, tenant: Option<int>, now: Moment) returns (owners: seq<CustomerRef>, due: map<CustomerRef, int>)
    ensures owners == DueOwners(lots, tenant, now)
    ensures forall c :: c in due <==> c in owners
    ensures forall c :: c in due ==> due[c] == Sum(lots, DueOf(c, now))
  {
    owners, due := [], map[];
    for i := 0 to |lots|
      invariant owners == DueOwners(lots[..i], tenant, now)
      invariant forall c :: c in due <==> c in owners
      invariant forall c :: c in due ==> due[c] == Sum(lots[..i], DueOf(c, now))
    {
      var l := lots[i];
      assert lots[..i + 1][..i] == lots[..i];
      DueOwnersAre(lots[..i], tenant, now);
      forall c | c in due ensures Sum(lots[..i + 1], DueOf(c, now)) == due[c] + DueOf(c, now)(l) { DueSumStep(lots, i, c, now); }
      if Due(l, now) && InTenant(l.owner, tenant) {
        if l.owner in due {
          due := due[l.owner := due[l.owner] + l.remaining];
        } else {
          UnlistedHasNone(lots[..i], l.owner, tenant, now);
          DueSumStep(lots, i, l.owner, now);
          owners, due := owners + [l.owner], due[l.owner := l.remaining];
        }
      }
    }
    assert lots[..|lots|] == lots;
  }

  /** Rows written for other customers leave a customer's day key as it was. */
  lemma OthersLeaveKeyFree(b: Book, owners: seq<CustomerRef>, c: CustomerRef, tenant: Option<int>, now: Moment)
    requires c !in owners
    ensures KeyUsed(b.entries + SweepRows(b, owners, tenant, now), c.company, SweepKey(c, now)) <==> KeyUsed(b.entries, c.company, SweepKey(c, now))
  {
    var rows := SweepRows(b, owners, tenant, now);
    SweepRowsHave(b, owners, tenant, now);
    if i :| 0 <= i < |b.entries| && b.entries[i].key == SweepKey(c, now) && b.entries[i].owner.company == c.company {
      assert (b.entries + rows)[i] == b.entries[i];
    }
  }

  function LoweredRows(entries: seq<Entry>, c: CustomerRef, balance: int, amount: int, now: Moment): seq<Entry> {
    if amount > 0 && !KeyUsed(entries, c.company, SweepKey(c, now)) then [Entry(c, Expire, amount, balance, SweepKey(c, now))] else []
  }

  /** What one listed customer adds to the ledger. */
  lemma OneOwnersRow(b: Book, owners: seq<CustomerRef>, k: nat, tenant: Option<int>, now: Moment)
    requires k < |owners| && owners[k] !in owners[..k]
    ensures var c, rows := owners[k], SweepRows(b, owners[..k], tenant, now);
      SweepRows(b, owners[..k + 1], tenant, now)
        == rows + (if c in b.points
                   then LoweredRows(b.entries + rows, c, SweptPoints(b, tenant, now)[c], RecordedAmount(b, c, tenant, now), now) else [])
  {
    assert owners[..k + 1][..k] == owners[..k];
    OthersLeaveKeyFree(b, owners[..k], owners[k], tenant, now);
  }

  /** Balances with the customers of a listing lowered. */
  function Lowered(b: Book, listed: seq<CustomerRef>, tenant: Option<int>, now: Moment): map<CustomerRef, int> {
    map c | c in b.points :: if c in listed then Max(0, b.points[c] - DueTotal(b, c, tenant, now)) else b.points[c]
  }

  lemma LowerOneMore(b: Book, listed: seq<CustomerRef>, c: CustomerRef, tenant: Option<int>, now: Moment)
    requires c !in listed
    ensures Lowered(b, listed + [c], tenant, now)
         == if c in b.points then Lowered(b, listed, tenant, now)[c := Max(0, b.points[c] - DueTotal(b, c, tenant, now))]
            else Lowered(b, listed, tenant, now)
    ensures c in b.points ==> Lowered(b, listed, tenant, now)[c] == b.points[c]
  {}

  lemma ListedOnce(lots: seq<Lot>, k: nat, tenant: Option<int>, now: Moment)
    requires k < |DueOwners(lots, tenant, now)|
    ensures DueOwners(lots, tenant, now)[k] !in DueOwners(lots, tenant, now)[..k]
  {
    DueOwnersAre(lots, tenant, now);
  }

  lemma BalanceLowered(b: Book, owners: seq<CustomerRef>, k: nat, tenant: Option<int>, now: Moment)
    requires owners == DueOwners(b.lots, tenant, now) && k < |owners|
    ensures var c, before, after := owners[k], Lowered(b, owners[..k], tenant, now), Lowered(b, owners[..k + 1], tenant, now);
      && (c in before <==> c in b.points)
      && after == if c in before then before[c := Max(0, before[c] - DueTotal(b, c, tenant, now))] else before
  {
    ListedOnce(b.lots, k, tenant, now);
    LowerOneMore(b, owners[..k], owners[k], tenant, now);
    assert owners[..k + 1] == owners[..k] + [owners[k]];
  }

  lemma RowLowered(b: Book, owners: seq<CustomerRef>, k: nat, tenant: Option<int>, now: Moment)
    requires owners == DueOwners(b.lots, tenant, now) && k < |owners|
    ensures var c, entries := owners[k], b.entries + SweepRows(b, owners[..k], tenant, now);
      var due := DueTotal(b, c, tenant, now);
      b.entries + SweepRows(b, owners[..k + 1], tenant, now) ==
        if c in b.points
        then var balance := Max(0, b.points[c] - due); entries + LoweredRows(entries, c, balance, Min(due, balance + due), now)
        else entries
  {
    ListedOnce(b.lots, k, tenant, now);
    OneOwnersRow(b, owners, k, tenant, now);
    var c, rows := owners[k], SweepRows(b, owners[..k], tenant, now);
    assert c in owners;
    if c in b.points {
      var due := DueTotal(b, c, tenant, now);
      var balance := Max(0, b.points[c] - due);
      assert b.entries + (rows + LoweredRows(b.entries + rows, c, balance, Min(due, balance + due), now))
          == b.entries + rows + LoweredRows(b.entries + rows, c, balance, Min(due, balance + due), now);
    } else {
      assert rows + [] == rows;
    }
  }

  lemma KeepsBalance(b: Book, owners: seq<CustomerRef>, k: nat, tenant: Option<int>, now: Moment)
    requires owners == DueOwners(b.lots, tenant, now) && k < |owners| && owners[k] in b.points
    ensures Lowered(b, owners[..k], tenant, now)[owners[k]] == b.points[owners[k]]
  {
    ListedOnce(b.lots, k, tenant, now);
  }

  /** One turn of the loop over the listed customers. */
  method LowerOne(ghost b: Book, points: map<CustomerRef, int>, entries: seq<Entry>, ghost owners: seq<CustomerRef>, ghost k: nat,
                  c: CustomerRef, due: int, tenant: Option<int>, now: Moment)
    returns (points': map<CustomerRef, int>, entries': seq<Entry>)
    requires owners == DueOwners(b.lots, tenant, now) && k < |owners| && c == owners[k] && due == DueTotal(b, c, tenant, now)
    requires points == Lowered(b, owners[..k], tenant, now)
    requires entries == b.entries + SweepRows(b, owners[..k], tenant, now)
    ensures points' == Lowered(b, owners[..k + 1], tenant, now)
    ensures entries' == b.entries + SweepRows(b, owners[..k + 1], tenant, now)
  {
    BalanceLowered(b, owners, k, tenant, now);
    RowLowered(b, owners, k, tenant, now);
    if c in points { KeepsBalance(b, owners, k, tenant, now); }
    points', entries' := points, entries;
    if c in points {
      var balance := Max(0, points[c] - due);
      var amount := Min(due, balance + due);
      points' := points[c := balance];
      entries' := entries + LoweredRows(entries, c, balance, amount, now);
    }
  }

  /** The "adjusted" and "ledger" CTEs: each listed balance is lowered, no further than
      to zero, and leaves a row unless its amount is not positive or its key is taken. */
  method LowerBalances(ghost b: Book, points: map<CustomerRef, int>, entries: seq<Entry>, owners: seq<CustomerRef>,
                       due: map<CustomerRef, int>, tenant: Option<int>, now: Moment)
    returns (points': map<CustomerRef, int>, entries': seq<Entry>)
    requires points == b.points && entries == b.entries && owners == DueOwners(b.lots, tenant, now)
    requires forall c :: c in owners ==> c in due && due[c] == DueTotal(b, c, tenant, now)
    ensures points' == SweptPoints(b, tenant, now)
    ensures entries' == entries + SweepRows(b, owners, tenant, now)
  {
    points', entries' := points, entries;
    for k := 0 to |owners|
      invariant points' == Lowered(b, owners[..k], tenant, now)
      invariant entries' == entries + SweepRows(b, owners[..k], tenant, now)
    {
      points', entries' := LowerOne(b, points', entries', owners, k, owners[k], due[owners[k]], tenant, now);
    }
    assert owners[..|owners|] == owners;
  }

  function DueRows(lots: seq<Lot>, n: nat, tenant: Option<int>, now: Moment): set<nat>
    requires n <= |lots|
  {
    set i: nat | i < n && Due(lots[i], now) && InTenant(lots[i].owner, tenant)
  }

  lemma OneMoreDue(lots: seq<Lot>, n: nat, tenant: Option<int>, now: Moment)
    requires n < |lots|
    ensures |DueRows(lots, n + 1, tenant, now)|
         == |DueRows(lots, n, tenant, now)| + (if Due(lots[n], now) && InTenant(lots[n].owner, tenant) then 1 else 0)
  {
    if Due(lots[n], now) && InTenant(lots[n].owner, tenant) {
      assert DueRows(lots, n + 1, tenant, now) == DueRows(lots, n, tenant, now) + {n};
    } else {
      assert DueRows(lots, n + 1, tenant, now) == DueRows(lots, n, tenant, now);
    }
  }

  /** The closing UPDATE: due lots of the tenant are emptied and expired, and counted. */
  method CloseDue(lots: seq<Lot>, tenant: Option<int>, now: Moment) returns (lots': seq<Lot>, count: nat)
    ensures lots' == SweptLots(lots, tenant, now)
    ensures count == |set i: nat | i < |lots| && Due(lots[i], now) && InTenant(lots[i].owner, tenant)|
  {
    lots', count := lots, 0;
    for i := 0 to |lots|
      invariant |lots'| == |lots|
      invariant forall j :: 0 <= j < i ==> lots'[j] == SweptLot(lots[j], tenant, now)
      invariant forall j :: i <= j < |lots| ==> lots'[j] == lots[j]
      invariant count == |DueRows(lots, i, tenant, now)|
    {
      OneMoreDue(lots, i, tenant, now);
      if Due(lots'[i], now) && InTenant(lots'[i].owner, tenant) {
        lots', count := lots'[i := lots'[i].(remaining := 0, status := Expired)], count + 1;
      }
    }
    assert lots' == SweptLots(lots, tenant, now);
  }

  /** The rows a sweep changes are the due rows of the tenant. */
  lemma ChangedAreDue(lots: seq<Lot>, tenant: Option<int>, now: Moment)
    ensures (set i | 0 <= i < |lots| && lots[i] != SweptLots(lots, tenant, now)[i])
         == (set i: nat | i < |lots| && Due(lots[i], now) && InTenant(lots[i].owner, tenant))
  {}
}
