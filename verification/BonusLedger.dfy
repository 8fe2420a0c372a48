/** The ledger against the balance: what replaying it gives, and how often one
    idempotency key may pay. */
module BonusLedger {
  import opened Prelude
  import opened BonusLots
  import opened BonusRestore
  import opened BonusBook
  import opened BonusInvariants

  function SignedOf(c: CustomerRef): Entry -> int {
    (e: Entry) => if e.owner != c then 0 else if e.operation == Credit then e.amount else -e.amount
  }

  /** Credits minus debits minus expiries. */
  function Replay(entries: seq<Entry>, c: CustomerRef): int { Sum(entries, SignedOf(c)) }

  function Balance(b: Book, c: CustomerRef): int { if c in b.points then b.points[c] else 0 }

  // ---------------------------------------------------------------- sweep rows

  predicate Inserted(b: Book, c: CustomerRef, tenant: Option<int>, now: Moment) {
    c in b.points && RecordedAmount(b, c, tenant, now) > 0 && !KeyUsed(b.entries, c.company, SweepKey(c, now))
  }

  lemma {:induction false} SweepRowsReplay(b: Book, owners: seq<CustomerRef>, tenant: Option<int>, now: Moment, c: CustomerRef)
    requires forall i, j :: 0 <= i < j < |owners| ==> owners[i] != owners[j]
    ensures Replay(SweepRows(b, owners, tenant, now), c)
         == if c in owners && Inserted(b, c, tenant, now) then -RecordedAmount(b, c, tenant, now) else 0
    decreases |owners|
  {
    if owners != [] {
      var m := |owners| - 1;
      var rest := SweepRows(b, owners[..m], tenant, now);
      SweepRowsReplay(b, owners[..m], tenant, now, c);
      assert c in owners <==> c in owners[..m] || c == owners[m];
      if Inserted(b, owners[m], tenant, now) {
        SumAppend(rest, SweepRows(b, owners, tenant, now)[|rest|], SignedOf(c));
      }
    }
  }

  lemma {:induction false} SweepRowsHave(b: Book, owners: seq<CustomerRef>, tenant: Option<int>, now: Moment)
    ensures var rows := SweepRows(b, owners, tenant, now);
            && |rows| <= |owners|
            && (forall k :: 0 <= k < |rows| ==>
                  rows[k].owner in owners && Inserted(b, rows[k].owner, tenant, now) && rows[k].key == SweepKey(rows[k].owner, now))
            && (forall c :: c in owners && Inserted(b, c, tenant, now) ==> exists k :: 0 <= k < |rows| && rows[k].owner == c)
    decreases |owners|
  {
    if owners != [] {
      var m := |owners| - 1;
      SweepRowsHave(b, owners[..m], tenant, now);
      var rest, rows := SweepRows(b, owners[..m], tenant, now), SweepRows(b, owners, tenant, now);
      forall c | c in owners && Inserted(b, c, tenant, now) ensures exists k :: 0 <= k < |rows| && rows[k].owner == c {
        if c == owners[m] {
          assert rows[|rest|].owner == c;
        } else {
          assert c in owners[..m];
          var k :| 0 <= k < |rest| && rest[k].owner == c;
          assert rows[k].owner == c;
        }
      }
    }
  }

  // ---------------------------------------------------------------- drift

  /** Points a step takes from `c` without leaving a ledger row: a sweep whose
      (customer, day) key is already taken. */
  function Dropped(b: Book, a: Action, c: CustomerRef): int {
    if a.ExpirySweep? && c in b.points && KeyUsed(b.entries, c.company, SweepKey(c, a.now))
    then DueTotal(b, c, a.tenant, a.now) else 0
  }

  ghost function Drift(actions: seq<Action>, c: CustomerRef): int {
    if actions == [] then 0
    else
      var before := actions[..|actions| - 1];
      Drift(before, c) + Dropped(Run(before), actions[|actions| - 1], c)
  }

  lemma CreditReplay(b: Book, c: CustomerRef, amount: int, key: Option<Key>, now: Moment, d: CustomerRef)
    requires MayCredit(b, c, amount, key)
    ensures var b' := PostCredit(b, c, amount, key, now);
            Replay(b'.entries, d) - Balance(b', d) == Replay(b.entries, d) - Balance(b, d)
  {
    SumAppend(b.entries, Entry(c, Credit, amount, b.points[c] + amount, key), SignedOf(d));
  }

  lemma DebitReplay(b: Book, c: CustomerRef, amount: int, key: Option<Key>, sale: Option<int>, now: Moment, d: CustomerRef)
    requires MayDebit(b, c, amount, key, now)
    ensures var b' := PostDebit(b, c, amount, key, sale, now);
            Replay(b'.entries, d) - Balance(b', d) == Replay(b.entries, d) - Balance(b, d)
  {
    SumAppend(b.entries, Entry(c, Debit, amount, b.points[c] - amount, key), SignedOf(d));
  }

  lemma RestoreReplay(b: Book, c: CustomerRef, amount: int, key: Option<Key>, sale: int, listed: seq<nat>, now: Moment, d: CustomerRef)
    requires MayRestore(b, c, amount, key, sale, listed)
    ensures var b' := PostRestore(b, c, amount, key, sale, listed, now);
            Replay(b'.entries, d) - Balance(b', d) == Replay(b.entries, d) - Balance(b, d)
  {
    SumAppend(b.entries, Entry(c, Credit, amount, b.points[c] + amount, key), SignedOf(d));
  }

  lemma SweepReplay(b: Book, tenant: Option<int>, now: Moment, d: CustomerRef)
    requires Accounts(b)
    ensures var b' := Sweep(b, tenant, now);
            && Replay(b'.entries, d) - Balance(b', d)
               == Replay(b.entries, d) - Balance(b, d) + Dropped(b, ExpirySweep(tenant, now), d)
  {
    var owners := DueOwners(b.lots, tenant, now);
    DueOwnersAre(b.lots, tenant, now);
    DueOwnersHaveDue(b, d, tenant, now);
    SweepRowsReplay(b, owners, tenant, now, d);
    SumConcat(b.entries, SweepRows(b, owners, tenant, now), SignedOf(d));
    if d in b.points {
      SweepTakesWhatIsDue(b, d, tenant, now);
    }
  }

  lemma SaleReplay(b: Book, c: CustomerRef, spent: int, earned: int, sale: int, now: Moment, d: CustomerRef)
    ensures var b' := AfterSale(b, c, spent, earned, sale, now);
            Replay(b'.entries, d) - Balance(b', d) == Replay(b.entries, d) - Balance(b, d)
  {
    if c !in b.points || spent < 0 || earned < 0 || (spent > 0 && !MayDebit(b, c, spent, Some(ReceiptKey(sale, false)), now)) {
    } else {
      var paid := if spent > 0 then PostDebit(b, c, spent, Some(ReceiptKey(sale, false)), Some(sale), now) else b;
      if spent > 0 {
        DebitReplay(b, c, spent, Some(ReceiptKey(sale, false)), Some(sale), now, d);
      }
      if earned > 0 && MayCredit(paid, c, earned, Some(ReceiptKey(sale, true))) {
        CreditReplay(paid, c, earned, Some(ReceiptKey(sale, true)), now, d);
      }
    }
  }

  lemma RefundReplay(b: Book, c: CustomerRef, reversed: int, restored: int, sale: int, refund: int, listed: seq<nat>, now: Moment, d: CustomerRef)
    ensures var b' := AfterRefund(b, c, reversed, restored, sale, refund, listed, now);
            Replay(b'.entries, d) - Balance(b', d) == Replay(b.entries, d) - Balance(b, d)
  {
    if c in b.points && reversed >= 0 && restored >= 0 {
      var back := Min(reversed, b.points[c]);
      if back > 0 && !MayDebit(b, c, back, Some(ReceiptKey(refund, false)), now) {
      } else {
        var taken := if back > 0 then PostDebit(b, c, back, Some(ReceiptKey(refund, false)), Some(refund), now) else b;
        if back > 0 {
          DebitReplay(b, c, back, Some(ReceiptKey(refund, false)), Some(refund), now, d);
        }
        if restored > 0 && MayRestore(taken, c, restored, Some(ReceiptKey(refund, true)), sale, listed) {
          RestoreReplay(taken, c, restored, Some(ReceiptKey(refund, true)), sale, listed, now, d);
        }
      }
    }
  }

  lemma RegisterReplay(b: Book, c: CustomerRef, welcome: int, now: Moment, d: CustomerRef)
    ensures var b' := AfterRegister(b, c, welcome, now);
            Replay(b'.entries, d) - Balance(b', d) == Replay(b.entries, d) - Balance(b, d)
  {
    if c !in b.points && 0 < welcome <= INT4_MAX {
      CreditReplay(b.(points := b.points[c := 0]), c, welcome, None, now, d);
    }
  }

  lemma BirthdayReplay(b: Book, c: CustomerRef, amount: int, year: int, now: Moment, d: CustomerRef)
    ensures var b' := AfterBirthday(b, c, amount, year, now);
            Replay(b'.entries, d) - Balance(b', d) == Replay(b.entries, d) - Balance(b, d)
  {
    if MayCredit(b, c, amount, Some(BirthdayKey(c, year))) { CreditReplay(b, c, amount, Some(BirthdayKey(c, year)), now, d); }
  }

  lemma KeyedCreditReplay(b: Book, c: CustomerRef, amount: int, key: Key, now: Moment, d: CustomerRef)
    ensures var b' := KeyedCredit(b, c, amount, key, now);
            Replay(b'.entries, d) - Balance(b', d) == Replay(b.entries, d) - Balance(b, d)
  {
    if MayCredit(b, c, amount, Some(key)) { CreditReplay(b, c, amount, Some(key), now, d); }
  }

  lemma KeyedDebitReplay(b: Book, c: CustomerRef, amount: int, key: Key, sale: Option<int>, now: Moment, d: CustomerRef)
    ensures var b' := KeyedDebit(b, c, amount, key, sale, now);
            Replay(b'.entries, d) - Balance(b', d) == Replay(b.entries, d) - Balance(b, d)
  {
    if MayDebit(b, c, amount, Some(key), now) { DebitReplay(b, c, amount, Some(key), sale, now, d); }
  }

  lemma CreditActionReplay(b: Book, a: Action, d: CustomerRef)
    requires Credits(a)
    ensures var b' := Next(b, a);
            Replay(b'.entries, d) - Balance(b', d) == Replay(b.entries, d) - Balance(b, d)
  {
    match a
    case Register(c, welcome, now) => RegisterReplay(b, c, welcome, now, d);
    case Visit(c, points, now) => if MayCredit(b, c, points, None) { CreditReplay(b, c, points, None, now, d); }
    case ManualCredit(c, amount, now) => if MayCredit(b, c, amount, None) { CreditReplay(b, c, amount, None, now, d); }
    case WheelSpin(c, prize, now) => if MayCredit(b, c, prize, None) { CreditReplay(b, c, prize, None, now, d); }
    case BirthdayBonus(c, amount, year, now) => BirthdayReplay(b, c, amount, year, now, d);
    case ReferralBonus(c, amount, reward, now) => KeyedCreditReplay(b, c, amount, ReferralKey(c.company, reward), now, d);
    case PartnerBonus(c, amount, offer, token, now) => KeyedCreditReplay(b, c, amount, PartnerKey(c.company, offer, token), now, d);
  }

  lemma DebitActionReplay(b: Book, a: Action, d: CustomerRef)
    requires Debits(a)
    ensures var b' := Next(b, a);
            Replay(b'.entries, d) - Balance(b', d) == Replay(b.entries, d) - Balance(b, d)
  {
    match a
    case ManualDebit(c, amount, now) => if MayDebit(b, c, amount, None, now) { DebitReplay(b, c, amount, None, None, now, d); }
    case Approval(c, credit, amount, request, now) =>
      KeyedCreditReplay(b, c, amount, ApprovalKey(c.company, request), now, d);
      KeyedDebitReplay(b, c, amount, ApprovalKey(c.company, request), None, now, d);
    case ReferralReversal(c, amount, reward, refund, now) =>
      if c in b.points { KeyedDebitReplay(b, c, Min(b.points[c], amount), ReversalKey(c.company, reward), Some(refund), now, d); }
    case PosSale(c, spent, earned, sale, now) => SaleReplay(b, c, spent, earned, sale, now, d);
    case PosRefund(c, reversed, restored, sale, refund, listed, now) => RefundReplay(b, c, reversed, restored, sale, refund, listed, now, d);
  }

  lemma StepReplay(b: Book, a: Action, d: CustomerRef)
    requires Accounts(b)
    ensures var b' := Next(b, a);
            Replay(b'.entries, d) - Balance(b', d) == Replay(b.entries, d) - Balance(b, d) + Dropped(b, a, d)
  {
    if Credits(a) {
      CreditActionReplay(b, a, d);
    } else if Debits(a) {
      DebitActionReplay(b, a, d);
    } else if a.ExpirySweep? {
      SweepReplay(b, a.tenant, a.now, d);
    }
  }

  /** Exact ledger drift: replay overstates the balance by exactly the sweeps
      whose row the per-day key dropped. */
  lemma {:induction false} ReplayIsBalancePlusDrift(actions: seq<Action>, c: CustomerRef)
    ensures Replay(Run(actions).entries, c) == Balance(Run(actions), c) + Drift(actions, c)
    decreases |actions|
  {
    if actions != [] {
      var before := actions[..|actions| - 1];
      RunKeepsAccounts(before);
      ReplayIsBalancePlusDrift(before, c);
      StepReplay(Run(before), actions[|actions| - 1], c);
    }
  }

  // ---------------------------------------------------------------- when there is no drift

  /** The sweep takes points from `c` on the given day. */
  predicate Hit(b: Book, a: Action, c: CustomerRef, day: int) {
    a.ExpirySweep? && DayOf(a.now) == day && c in b.points && DueTotal(b, c, a.tenant, a.now) > 0
  }

  ghost function Hits(actions: seq<Action>, c: CustomerRef, day: int): nat {
    if actions == [] then 0
    else
      var before := actions[..|actions| - 1];
      Hits(before, c, day) + if Hit(Run(before), actions[|actions| - 1], c, day) then 1 else 0
  }

  lemma KeyUsedAppend(entries: seq<Entry>, e: Entry, company: int, key: Option<Key>)
    ensures KeyUsed(entries + [e], company, key) <==>
              KeyUsed(entries, company, key) || (key.Some? && e.key == key && e.owner.company == company)
  {
    var longer := entries + [e];
    if KeyUsed(entries, company, key) {
      var i :| 0 <= i < |entries| && entries[i].key == key && entries[i].owner.company == company;
      assert longer[i].key == key;
    }
    assert longer[|entries|] == e;
  }

  /** Only a sweep writes an expiry key. */
  lemma OnlySweepsTakeExpiryKeys(b: Book, a: Action, c: CustomerRef, day: int)
    requires !a.ExpirySweep?
    ensures KeyUsed(Next(b, a).entries, c.company, Some(ExpiryKey(c, day))) <==> KeyUsed(b.entries, c.company, Some(ExpiryKey(c, day)))
  {
    var key := Some(ExpiryKey(c, day));
    var b' := Next(b, a);
    AppendedRows(b, a);
    if |b'.entries| > |b.entries| {
      KeyUsedAppend(b.entries, b'.entries[|b.entries|], c.company, key);
      if |b'.entries| > |b.entries| + 1 {
        KeyUsedAppend(b.entries + [b'.entries[|b.entries|]], b'.entries[|b.entries| + 1], c.company, key);
      }
    }
  }

  /** The cause a worker's credit is keyed by. */
  function CauseOf(a: Action): Option<Key> {
    match a
    case BirthdayBonus(c, _, year, _) => Some(BirthdayKey(c, year))
    case ReferralBonus(c, _, reward, _) => Some(ReferralKey(c.company, reward))
    case Approval(c, _, _, request, _) => Some(ApprovalKey(c.company, request))
    case PartnerBonus(c, _, offer, token, _) => Some(PartnerKey(c.company, offer, token))
    case ReferralReversal(c, _, reward, _, _) => Some(ReversalKey(c.company, reward))
    case _ => None
  }

  predicate OwnRow(cause: Option<Key>, e: Entry) { e.key.Some? ==> e.key.value.ReceiptKey? || e.key == cause }

  /** At most two rows more, keyed by nothing, by the receipt or by the cause. */
  ghost predicate AppendsOwnRows(entries: seq<Entry>, rows: seq<Entry>, cause: Option<Key>) {
    || rows == entries
    || (exists e: Entry :: OwnRow(cause, e) && rows == entries + [e])
    || (exists e: Entry, f: Entry :: OwnRow(cause, e) && OwnRow(cause, f) && rows == entries + [e] + [f])
  }

  lemma CreditActionRows(b: Book, a: Action)
    requires Credits(a)
    ensures AppendsOwnRows(b.entries, Next(b, a).entries, CauseOf(a))
  {
    match a
    case Register(c, welcome, now) =>
      assert Next(b, a).entries == b.entries || Next(b, a).entries == b.entries + [Entry(c, Credit, welcome, welcome, None)];
    case Visit(c, points, now) => CreditRow(b, c, points, None, now);
    case ManualCredit(c, amount, now) => CreditRow(b, c, amount, None, now);
    case WheelSpin(c, prize, now) => CreditRow(b, c, prize, None, now);
    case BirthdayBonus(c, amount, year, now) => CreditRow(b, c, amount, Some(BirthdayKey(c, year)), now);
    case ReferralBonus(c, amount, reward, now) => CreditRow(b, c, amount, Some(ReferralKey(c.company, reward)), now);
    case PartnerBonus(c, amount, offer, token, now) => CreditRow(b, c, amount, Some(PartnerKey(c.company, offer, token)), now);
  }

  lemma DebitActionRows(b: Book, a: Action)
    requires Debits(a)
    ensures AppendsOwnRows(b.entries, Next(b, a).entries, CauseOf(a))
  {
    match a
    case ManualDebit(c, amount, now) => DebitRow(b, c, amount, None, None, now);
    case Approval(c, credit, amount, request, now) =>
      CreditRow(b, c, amount, Some(ApprovalKey(c.company, request)), now);
      DebitRow(b, c, amount, Some(ApprovalKey(c.company, request)), None, now);
    case ReferralReversal(c, amount, reward, refund, now) =>
      if c in b.points { DebitRow(b, c, Min(b.points[c], amount), Some(ReversalKey(c.company, reward)), Some(refund), now); }
    case PosSale(c, spent, earned, sale, now) => SaleRows(b, c, spent, earned, sale, now);
    case PosRefund(c, reversed, restored, sale, refund, listed, now) => RefundRows(b, c, reversed, restored, sale, refund, listed, now);
  }

  /** Every transaction but a sweep appends at most two rows of its own. */
  lemma AppendedRows(b: Book, a: Action)
    requires !a.ExpirySweep?
    ensures AppendsOwnRows(b.entries, Next(b, a).entries, CauseOf(a))
  {
    if Credits(a) { CreditActionRows(b, a); } else if Debits(a) { DebitActionRows(b, a); }
  }

  lemma CreditRow(b: Book, c: CustomerRef, amount: int, key: Option<Key>, now: Moment)
    ensures MayCredit(b, c, amount, key) ==>
              exists e: Entry :: OwnRow(key, e) && PostCredit(b, c, amount, key, now).entries == b.entries + [e]
  {
    if MayCredit(b, c, amount, key) {
      assert OwnRow(key, Entry(c, Credit, amount, b.points[c] + amount, key));
    }
  }

  lemma DebitRow(b: Book, c: CustomerRef, amount: int, key: Option<Key>, sale: Option<int>, now: Moment)
    ensures MayDebit(b, c, amount, key, now) ==>
              exists e: Entry :: e.key == key && PostDebit(b, c, amount, key, sale, now).entries == b.entries + [e]
  {
    if MayDebit(b, c, amount, key, now) {
      var e := Entry(c, Debit, amount, b.points[c] - amount, key);
      assert PostDebit(b, c, amount, key, sale, now).entries == b.entries + [e];
    }
  }

  lemma SaleRows(b: Book, c: CustomerRef, spent: int, earned: int, sale: int, now: Moment)
    ensures var rows := AfterSale(b, c, spent, earned, sale, now).entries;
            || rows == b.entries
            || (exists e: Entry :: OwnRow(None, e) && rows == b.entries + [e])
            || (exists e: Entry, f: Entry :: OwnRow(None, e) && OwnRow(None, f) && rows == b.entries + [e] + [f])
  {
    if c in b.points && spent >= 0 && earned >= 0 {
      var e := Entry(c, Debit, spent, b.points[c] - spent, Some(ReceiptKey(sale, false)));
      var f := Entry(c, Credit, earned, b.points[c] - spent + earned, Some(ReceiptKey(sale, true)));
      assert OwnRow(None, e) && OwnRow(None, f);
      var rows := AfterSale(b, c, spent, earned, sale, now).entries;
      assert rows == b.entries || rows == b.entries + [e] || rows == b.entries + [f] || rows == b.entries + [e] + [f];
    }
  }

  lemma RefundRows(b: Book, c: CustomerRef, reversed: int, restored: int, sale: int, refund: int, listed: seq<nat>, now: Moment)
    ensures var rows := AfterRefund(b, c, reversed, restored, sale, refund, listed, now).entries;
            || rows == b.entries
            || (exists e: Entry :: OwnRow(None, e) && rows == b.entries + [e])
            || (exists e: Entry, f: Entry :: OwnRow(None, e) && OwnRow(None, f) && rows == b.entries + [e] + [f])
  {
    if c in b.points && reversed >= 0 && restored >= 0 {
      var back := Min(reversed, b.points[c]);
      var e := Entry(c, Debit, back, b.points[c] - back, Some(ReceiptKey(refund, false)));
      var left := if back > 0 then b.points[c] - back else b.points[c];
      var f := Entry(c, Credit, restored, left + restored, Some(ReceiptKey(refund, true)));
      assert OwnRow(None, e) && OwnRow(None, f);
      var rows := AfterRefund(b, c, reversed, restored, sale, refund, listed, now).entries;
      assert rows == b.entries || rows == b.entries + [e] || rows == b.entries + [f] || rows == b.entries + [e] + [f];
    }
  }

  lemma SweepTakesKey(b: Book, tenant: Option<int>, now: Moment, c: CustomerRef, day: int)
    requires Accounts(b)
    ensures KeyUsed(Sweep(b, tenant, now).entries, c.company, Some(ExpiryKey(c, day)))
       <==> KeyUsed(b.entries, c.company, Some(ExpiryKey(c, day))) || Hit(b, ExpirySweep(tenant, now), c, day)
  {
    var owners := DueOwners(b.lots, tenant, now);
    var rows := SweepRows(b, owners, tenant, now);
    var all := b.entries + rows;
    var key := Some(ExpiryKey(c, day));
    SweepRowsHave(b, owners, tenant, now);
    DueOwnersHaveDue(b, c, tenant, now);
    if c in b.points { SweepTakesWhatIsDue(b, c, tenant, now); }
    if KeyUsed(b.entries, c.company, key) {
      var i :| 0 <= i < |b.entries| && b.entries[i].key == key && b.entries[i].owner.company == c.company;
      assert all[i] == b.entries[i];
    } else if Hit(b, ExpirySweep(tenant, now), c, day) {
      var k :| 0 <= k < |rows| && rows[k].owner == c;
      assert all[|b.entries| + k] == rows[k];
    }
  }

  lemma {:induction false} KeyUsedMeansHit(actions: seq<Action>, c: CustomerRef, day: int)
    ensures KeyUsed(Run(actions).entries, c.company, Some(ExpiryKey(c, day))) <==> Hits(actions, c, day) > 0
    decreases |actions|
  {
    if actions != [] {
      var before := actions[..|actions| - 1];
      var a := actions[|actions| - 1];
      KeyUsedMeansHit(before, c, day);
      RunKeepsAccounts(before);
      if a.ExpirySweep? {
        SweepTakesKey(Run(before), a.tenant, a.now, c, day);
      } else {
        OnlySweepsTakeExpiryKeys(Run(before), a, c, day);
      }
    }
  }

  lemma {:induction false} DriftNonNegative(actions: seq<Action>, c: CustomerRef)
    ensures Drift(actions, c) >= 0
    decreases |actions|
  {
    if actions != [] {
      var before := actions[..|actions| - 1];
      DriftNonNegative(before, c);
      RunKeepsAccounts(before);
      if actions[|actions| - 1].ExpirySweep? {
        SumNonNegative(Run(before).lots, DueOf(c, actions[|actions| - 1].now));
      }
    }
  }

  ghost predicate SweptOnceADay(actions: seq<Action>, c: CustomerRef) {
    forall day :: Hits(actions, c, day) <= 1
  }

  lemma SweptTwice(actions: seq<Action>, c: CustomerRef, day: int)
    requires Hits(actions, c, day) > 1
    ensures !SweptOnceADay(actions, c)
  {}

  /** Replaying the ledger gives the balance exactly when no day swept the
      customer's points twice. */
  lemma {:induction false} NoDriftIffSweptOnceADay(actions: seq<Action>, c: CustomerRef)
    ensures Replay(Run(actions).entries, c) == Balance(Run(actions), c) <==> SweptOnceADay(actions, c)
    decreases |actions|
  {
    ReplayIsBalancePlusDrift(actions, c);
    if actions != [] {
      var before := actions[..|actions| - 1];
      var a := actions[|actions| - 1];
      NoDriftIffSweptOnceADay(before, c);
      ReplayIsBalancePlusDrift(before, c);
      DriftNonNegative(before, c);
      RunKeepsAccounts(before);
      if a.ExpirySweep? {
        DropMeansSecondHit(before, a, c);
      }
      if day :| Hits(before, c, day) > 1 {
        SweptTwice(before, c, day);
        SweptTwice(actions, c, day);
      } else {
        assert SweptOnceADay(before, c);
        if a.ExpirySweep? && Hit(Run(before), a, c, DayOf(a.now)) && Hits(before, c, DayOf(a.now)) > 0 {
          SweptTwice(actions, c, DayOf(a.now));
        } else {
          forall day ensures Hits(actions, c, day) <= 1 {
            assert Hits(before, c, day) <= 1;
          }
        }
      }
    }
  }

  lemma DropMeansSecondHit(before: seq<Action>, a: Action, c: CustomerRef)
    requires a.ExpirySweep?
    ensures Dropped(Run(before), a, c) >= 0
    ensures Dropped(Run(before), a, c) > 0 <==> Hit(Run(before), a, c, DayOf(a.now)) && Hits(before, c, DayOf(a.now)) > 0
  {
    RunKeepsAccounts(before);
    KeyUsedMeansHit(before, c, DayOf(a.now));
    SumNonNegative(Run(before).lots, DueOf(c, a.now));
  }

  // ---------------------------------------------------------------- balance_after

  /** The balance_after of the customer's last row. */
  function LastBalance(entries: seq<Entry>, c: CustomerRef): int {
    if entries == [] then 0
    else if entries[|entries| - 1].owner == c then entries[|entries| - 1].balanceAfter
    else LastBalance(entries[..|entries| - 1], c)
  }

  /** By how much the last row overstates the balance. */
  function Overstated(b: Book, c: CustomerRef): int { LastBalance(b.entries, c) - Balance(b, c) }

  lemma LastAppend(entries: seq<Entry>, e: Entry, c: CustomerRef)
    ensures LastBalance(entries + [e], c) == if e.owner == c then e.balanceAfter else LastBalance(entries, c)
  {
    assert (entries + [e])[..|entries|] == entries;
  }

  lemma CreditShows(b: Book, c: CustomerRef, amount: int, key: Option<Key>, now: Moment, d: CustomerRef)
    requires MayCredit(b, c, amount, key)
    ensures Overstated(PostCredit(b, c, amount, key, now), d) == if d == c then 0 else Overstated(b, d)
  {
    LastAppend(b.entries, Entry(c, Credit, amount, b.points[c] + amount, key), d);
  }

  lemma DebitShows(b: Book, c: CustomerRef, amount: int, key: Option<Key>, sale: Option<int>, now: Moment, d: CustomerRef)
    requires MayDebit(b, c, amount, key, now)
    ensures Overstated(PostDebit(b, c, amount, key, sale, now), d) == if d == c then 0 else Overstated(b, d)
  {
    LastAppend(b.entries, Entry(c, Debit, amount, b.points[c] - amount, key), d);
  }

  lemma RestoreShows(b: Book, c: CustomerRef, amount: int, key: Option<Key>, sale: int, listed: seq<nat>, now: Moment, d: CustomerRef)
    requires MayRestore(b, c, amount, key, sale, listed)
    ensures Overstated(PostRestore(b, c, amount, key, sale, listed, now), d) == if d == c then 0 else Overstated(b, d)
  {
    LastAppend(b.entries, Entry(c, Credit, amount, b.points[c] + amount, key), d);
  }

  lemma {:induction false} SweepRowsShow(b: Book, owners: seq<CustomerRef>, tenant: Option<int>, now: Moment, c: CustomerRef)
    requires forall i, j :: 0 <= i < j < |owners| ==> owners[i] != owners[j]
    ensures LastBalance(b.entries + SweepRows(b, owners, tenant, now), c)
         == if c in owners && Inserted(b, c, tenant, now) then SweptPoints(b, tenant, now)[c] else LastBalance(b.entries, c)
    decreases |owners|
  {
    var rows := SweepRows(b, owners, tenant, now);
    if owners == [] {
      assert b.entries + rows == b.entries;
    } else {
      var m := |owners| - 1;
      var rest := SweepRows(b, owners[..m], tenant, now);
      SweepRowsShow(b, owners[..m], tenant, now, c);
      assert c in owners <==> c in owners[..m] || c == owners[m];
      if Inserted(b, owners[m], tenant, now) {
        assert b.entries + rows == b.entries + rest + [rows[|rest|]];
        LastAppend(b.entries + rest, rows[|rest|], c);
      }
    }
  }

  lemma SweepShows(b: Book, tenant: Option<int>, now: Moment, c: CustomerRef)
    requires Accounts(b)
    ensures var after := Overstated(Sweep(b, tenant, now), c);
            after == 0 || after == Overstated(b, c) + Dropped(b, ExpirySweep(tenant, now), c)
  {
    var owners := DueOwners(b.lots, tenant, now);
    DueOwnersAre(b.lots, tenant, now);
    DueOwnersHaveDue(b, c, tenant, now);
    SweepRowsShow(b, owners, tenant, now, c);
    if c in b.points {
      SweepTakesWhatIsDue(b, c, tenant, now);
    }
  }

  lemma SaleShows(b: Book, c: CustomerRef, spent: int, earned: int, sale: int, now: Moment, d: CustomerRef)
    ensures var after := Overstated(AfterSale(b, c, spent, earned, sale, now), d); after == 0 || after == Overstated(b, d)
  {
    if c !in b.points || spent < 0 || earned < 0 || (spent > 0 && !MayDebit(b, c, spent, Some(ReceiptKey(sale, false)), now)) {
    } else {
      var paid := if spent > 0 then PostDebit(b, c, spent, Some(ReceiptKey(sale, false)), Some(sale), now) else b;
      if spent > 0 {
        DebitShows(b, c, spent, Some(ReceiptKey(sale, false)), Some(sale), now, d);
      }
      if earned > 0 && MayCredit(paid, c, earned, Some(ReceiptKey(sale, true))) {
        CreditShows(paid, c, earned, Some(ReceiptKey(sale, true)), now, d);
      }
    }
  }

  lemma RefundShows(b: Book, c: CustomerRef, reversed: int, restored: int, sale: int, refund: int, listed: seq<nat>, now: Moment, d: CustomerRef)
    ensures var after := Overstated(AfterRefund(b, c, reversed, restored, sale, refund, listed, now), d); after == 0 || after == Overstated(b, d)
  {
    if c in b.points && reversed >= 0 && restored >= 0 {
      var back := Min(reversed, b.points[c]);
      if back > 0 && !MayDebit(b, c, back, Some(ReceiptKey(refund, false)), now) {
      } else {
        var taken := if back > 0 then PostDebit(b, c, back, Some(ReceiptKey(refund, false)), Some(refund), now) else b;
        if back > 0 {
          DebitShows(b, c, back, Some(ReceiptKey(refund, false)), Some(refund), now, d);
        }
        if restored > 0 && MayRestore(taken, c, restored, Some(ReceiptKey(refund, true)), sale, listed) {
          RestoreShows(taken, c, restored, Some(ReceiptKey(refund, true)), sale, listed, now, d);
        }
      }
    }
  }

  lemma RegisterShows(b: Book, c: CustomerRef, welcome: int, now: Moment, d: CustomerRef)
    ensures var after := Overstated(AfterRegister(b, c, welcome, now), d); after == 0 || after == Overstated(b, d)
  {
    if c !in b.points && 0 < welcome <= INT4_MAX {
      CreditShows(b.(points := b.points[c := 0]), c, welcome, None, now, d);
    }
  }

  lemma CreditStepShows(b: Book, c: CustomerRef, amount: int, key: Option<Key>, now: Moment, d: CustomerRef)
    ensures MayCredit(b, c, amount, key) ==>
              var after := Overstated(PostCredit(b, c, amount, key, now), d); after == 0 || after == Overstated(b, d)
  {
    if MayCredit(b, c, amount, key) { CreditShows(b, c, amount, key, now, d); }
  }

  lemma DebitStepShows(b: Book, c: CustomerRef, amount: int, key: Option<Key>, sale: Option<int>, now: Moment, d: CustomerRef)
    ensures MayDebit(b, c, amount, key, now) ==>
              var after := Overstated(PostDebit(b, c, amount, key, sale, now), d); after == 0 || after == Overstated(b, d)
  {
    if MayDebit(b, c, amount, key, now) { DebitShows(b, c, amount, key, sale, now, d); }
  }

  lemma CreditActionShows(b: Book, a: Action, d: CustomerRef)
    requires Credits(a)
    ensures var after := Overstated(Next(b, a), d); after == 0 || after == Overstated(b, d)
  {
    match a
    case Register(c, welcome, now) => RegisterShows(b, c, welcome, now, d);
    case Visit(c, points, now) => CreditStepShows(b, c, points, None, now, d);
    case ManualCredit(c, amount, now) => CreditStepShows(b, c, amount, None, now, d);
    case WheelSpin(c, prize, now) => CreditStepShows(b, c, prize, None, now, d);
    case BirthdayBonus(c, amount, year, now) => CreditStepShows(b, c, amount, Some(BirthdayKey(c, year)), now, d);
    case ReferralBonus(c, amount, reward, now) => CreditStepShows(b, c, amount, Some(ReferralKey(c.company, reward)), now, d);
    case PartnerBonus(c, amount, offer, token, now) => CreditStepShows(b, c, amount, Some(PartnerKey(c.company, offer, token)), now, d);
  }

  lemma DebitActionShows(b: Book, a: Action, d: CustomerRef)
    requires Debits(a)
    ensures var after := Overstated(Next(b, a), d); after == 0 || after == Overstated(b, d)
  {
    match a
    case ManualDebit(c, amount, now) => if MayDebit(b, c, amount, None, now) { DebitShows(b, c, amount, None, None, now, d); }
    case Approval(c, credit, amount, request, now) =>
      CreditStepShows(b, c, amount, Some(ApprovalKey(c.company, request)), now, d);
      DebitStepShows(b, c, amount, Some(ApprovalKey(c.company, request)), None, now, d);
    case ReferralReversal(c, amount, reward, refund, now) =>
      if c in b.points { DebitStepShows(b, c, Min(b.points[c], amount), Some(ReversalKey(c.company, reward)), Some(refund), now, d); }
    case PosSale(c, spent, earned, sale, now) => SaleShows(b, c, spent, earned, sale, now, d);
    case PosRefund(c, reversed, restored, sale, refund, listed, now) => RefundShows(b, c, reversed, restored, sale, refund, listed, now, d);
  }

  lemma StepShows(b: Book, a: Action, d: CustomerRef)
    requires Accounts(b)
    ensures var after := Overstated(Next(b, a), d); after == 0 || after == Overstated(b, d) + Dropped(b, a, d)
  {
    if Credits(a) {
      CreditActionShows(b, a, d);
    } else if Debits(a) {
      DebitActionShows(b, a, d);
    } else if a.ExpirySweep? {
      SweepShows(b, a.tenant, a.now, d);
    }
  }

  /** The last balance_after of a customer is the balance, overstated by no more
      than the drift; so it is exact whenever the ledger has not drifted. */
  lemma {:induction false} LastRowWithinDrift(actions: seq<Action>, c: CustomerRef)
    ensures 0 <= Overstated(Run(actions), c) <= Drift(actions, c)
    decreases |actions|
  {
    DriftNonNegative(actions, c);
    if actions != [] {
      var before := actions[..|actions| - 1];
      var a := actions[|actions| - 1];
      LastRowWithinDrift(before, c);
      RunKeepsAccounts(before);
      StepShows(Run(before), a, c);
      if a.ExpirySweep? {
        SumNonNegative(Run(before).lots, DueOf(c, a.now));
      }
    }
  }
}
