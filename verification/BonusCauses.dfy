/** One cause, one payment: ledger rows, lots and idempotency keys. */
module BonusCauses {
  import opened Prelude
  import opened BonusLots
  import opened BonusRestore
  import opened BonusBook
  import opened BonusInvariants
  import opened BonusLedger
  import opened BonusReports

  /** Causes the background workers pay once. */
  predicate Paid(key: Key) { key.BirthdayKey? || key.ReferralKey? }

  function KeyCompany(key: Key): int
    requires Paid(key)
  {
    match key case BirthdayKey(c, _) => c.company case ReferralKey(company, _) => company
  }

  ghost predicate KeysUnique(entries: seq<Entry>) {
    forall i, j :: 0 <= i < j < |entries| && entries[i].key.Some? && entries[i].key == entries[j].key
      ==> entries[i].owner.company != entries[j].owner.company
  }

  /** source_ledger_id is UNIQUE and names a credit of the same customer. */
  ghost predicate SourcesOk(b: Book) {
    && (forall i :: 0 <= i < |b.lots| && b.lots[i].source.Some? ==>
          var e := b.lots[i].source.value;
          e < |b.entries| && b.entries[e].operation == Credit && b.entries[e].owner == b.lots[i].owner
          && b.lots[i].issued <= b.entries[e].amount)
    && (forall i, j :: 0 <= i < j < |b.lots| && b.lots[i].source.Some? ==> b.lots[i].source != b.lots[j].source)
  }

  /** The lot a paid ledger row stands on. */
  predicate BackedBy(b: Book, e: nat, i: nat) {
    && e < |b.entries| && i < |b.lots|
    && b.lots[i].source == Some(e) && b.lots[i].issued == b.entries[e].amount && b.lots[i].owner == b.entries[e].owner
  }

  ghost predicate CausesBacked(b: Book) {
    forall e :: 0 <= e < |b.entries| && b.entries[e].key.Some? && Paid(b.entries[e].key.value) ==>
      b.entries[e].operation == Credit && exists i :: BackedBy(b, e, i)
  }

  ghost predicate Causes(b: Book) { KeysUnique(b.entries) && SourcesOk(b) && CausesBacked(b) && FacePriced(b) }

  // ---------------------------------------------------------------- shapes of a step

  /** `b'` has the lots of `b` with the same terms, in the same places. */
  ghost predicate LotsPersist(b: Book, b': Book) {
    && |b.lots| <= |b'.lots|
    && forall i :: 0 <= i < |b.lots| ==>
         b'.lots[i].source == b.lots[i].source && b'.lots[i].issued == b.lots[i].issued
         && b'.lots[i].owner == b.lots[i].owner && b'.lots[i].monetaryValue == b.lots[i].monetaryValue
  }

  /** One row appended, at most one lot, issued by that row. */
  ghost predicate Appends(b: Book, b': Book, e: Entry) {
    && b'.entries == b.entries + [e]
    && !KeyUsed(b.entries, e.owner.company, e.key)
    && LotsPersist(b, b')
    && |b'.lots| <= |b.lots| + 1
    && (|b'.lots| > |b.lots| ==>
          var l := b'.lots[|b.lots|];
          l.source == Some(|b.entries|) && l.owner == e.owner && 0 < l.issued <= e.amount
          && e.operation == Credit && l.monetaryValue == l.issued as real)
    && (e.key.Some? && Paid(e.key.value) ==> |b'.lots| > |b.lots| && b'.lots[|b.lots|].issued == e.amount)
  }

  lemma AppendKeepsKeys(b: Book, b': Book, e: Entry)
    requires KeysUnique(b.entries) && Appends(b, b', e)
    ensures KeysUnique(b'.entries)
  {}

  lemma AppendKeepsSources(b: Book, b': Book, e: Entry)
    requires SourcesOk(b) && FacePriced(b) && Appends(b, b', e)
    ensures SourcesOk(b') && FacePriced(b')
  {}

  lemma AppendKeepsBacking(b: Book, b': Book, e: Entry)
    requires CausesBacked(b) && Appends(b, b', e)
    ensures CausesBacked(b')
  {
    forall k | 0 <= k < |b'.entries| && b'.entries[k].key.Some? && Paid(b'.entries[k].key.value)
      ensures b'.entries[k].operation == Credit && exists i :: BackedBy(b', k, i)
    {
      if k < |b.entries| {
        assert b'.entries[k] == b.entries[k];
        var i :| BackedBy(b, k, i);
        assert BackedBy(b', k, i);
      } else {
        assert BackedBy(b', k, |b.lots|);
      }
    }
  }

  lemma AppendKeeps(b: Book, b': Book, e: Entry)
    requires Causes(b) && Appends(b, b', e)
    ensures Causes(b')
  {
    AppendKeepsKeys(b, b', e);
    AppendKeepsSources(b, b', e);
    AppendKeepsBacking(b, b', e);
  }

  lemma CreditAppends(b: Book, c: CustomerRef, amount: int, key: Option<Key>, now: Moment)
    requires MayCredit(b, c, amount, key)
    ensures Appends(b, PostCredit(b, c, amount, key, now), Entry(c, Credit, amount, b.points[c] + amount, key))
  {}

  lemma DebitAppends(b: Book, c: CustomerRef, amount: int, key: Option<Key>, sale: Option<int>, now: Moment)
    requires MayDebit(b, c, amount, key, now) && (key.Some? ==> !Paid(key.value))
    ensures Appends(b, PostDebit(b, c, amount, key, sale, now), Entry(c, Debit, amount, b.points[c] - amount, key))
  {
    forall i | 0 <= i < |b.lots|
      ensures var l := Consume(b.lots, c, amount, now).value.lots[i];
              l.source == b.lots[i].source && l.issued == b.lots[i].issued && l.owner == b.lots[i].owner && l.monetaryValue == b.lots[i].monetaryValue
    {
      ConsumeKeepsLot(b.lots, c, amount, now, i);
    }
    ConsumeExact(b.lots, c, amount, now);
  }

  lemma RestoreAppends(b: Book, c: CustomerRef, amount: int, key: Option<Key>, sale: int, listed: seq<nat>, now: Moment)
    requires MayRestore(b, c, amount, key, sale, listed) && RedemptionsOk(b) && (key.Some? ==> !Paid(key.value))
    ensures Appends(b, PostRestore(b, c, amount, key, sale, listed, now), Entry(c, Credit, amount, b.points[c] + amount, key))
  {
    forall i | 0 <= i < |b.lots|
      ensures var l := RestoreFrom(b.lots, b.redemptions, listed, amount, now).lots[i];
              l.source == b.lots[i].source && l.issued == b.lots[i].issued && l.owner == b.lots[i].owner && l.monetaryValue == b.lots[i].monetaryValue
    {
      RestoreKeepsLot(b.lots, b.redemptions, listed, amount, now, c, sale, i);
    }
    RestoreKeepsRows(b.lots, b.redemptions, listed, amount, now, c, sale);
  }

  // ---------------------------------------------------------------- sweep

  lemma {:induction false} SweepRowsUnique(b: Book, owners: seq<CustomerRef>, tenant: Option<int>, now: Moment)
    requires forall i, j :: 0 <= i < j < |owners| ==> owners[i] != owners[j]
    ensures var rows := SweepRows(b, owners, tenant, now);
            forall i, j :: 0 <= i < j < |rows| ==> rows[i].owner != rows[j].owner
    decreases |owners|
  {
    if owners != [] {
      var m := |owners| - 1;
      SweepRowsUnique(b, owners[..m], tenant, now);
      SweepRowsHave(b, owners[..m], tenant, now);
      var rest := SweepRows(b, owners[..m], tenant, now);
      forall i | 0 <= i < |rest| ensures rest[i].owner != owners[m] {
        assert rest[i].owner in owners[..m];
      }
    }
  }

  /** A sweep's own row has a key that no earlier row of the company has. */
  lemma SweepRowIsNew(b: Book, tenant: Option<int>, now: Moment, q: nat, i: nat)
    requires q < |SweepRows(b, DueOwners(b.lots, tenant, now), tenant, now)| && i < |b.entries|
    ensures var row := SweepRows(b, DueOwners(b.lots, tenant, now), tenant, now)[q];
      b.entries[i].key == row.key && row.key.Some? ==> b.entries[i].owner.company != row.owner.company
  {
    SweepRowsHave(b, DueOwners(b.lots, tenant, now), tenant, now);
    var row := SweepRows(b, DueOwners(b.lots, tenant, now), tenant, now)[q];
    assert Inserted(b, row.owner, tenant, now);
  }

  lemma SweepKeepsKeys(b: Book, tenant: Option<int>, now: Moment)
    requires KeysUnique(b.entries)
    ensures KeysUnique(Sweep(b, tenant, now).entries)
  {
    var owners := DueOwners(b.lots, tenant, now);
    var rows := SweepRows(b, owners, tenant, now);
    DueOwnersAre(b.lots, tenant, now);
    SweepRowsUnique(b, owners, tenant, now);
    SweepRowsHave(b, owners, tenant, now);
    var all := b.entries + rows;
    forall i, j | 0 <= i < j < |all| && all[i].key.Some? && all[i].key == all[j].key
      ensures all[i].owner.company != all[j].owner.company
    {
      if i < |b.entries| <= j {
        SweepRowIsNew(b, tenant, now, j - |b.entries|, i);
      }
    }
  }

  lemma SweepKeepsBacking(b: Book, tenant: Option<int>, now: Moment)
    requires SourcesOk(b) && CausesBacked(b)
    ensures SourcesOk(Sweep(b, tenant, now)) && CausesBacked(Sweep(b, tenant, now))
  {
    var b' := Sweep(b, tenant, now);
    var owners := DueOwners(b.lots, tenant, now);
    SweepRowsHave(b, owners, tenant, now);
    forall k | 0 <= k < |b'.entries| && b'.entries[k].key.Some? && Paid(b'.entries[k].key.value)
      ensures b'.entries[k].operation == Credit && exists i :: BackedBy(b', k, i)
    {
      if k < |b.entries| {
        assert b'.entries[k] == b.entries[k];
        var i :| BackedBy(b, k, i);
        assert BackedBy(b', k, i);
      }
    }
  }

  lemma SweepKeepsCauses(b: Book, tenant: Option<int>, now: Moment)
    requires Causes(b)
    ensures Causes(Sweep(b, tenant, now))
  {
    SweepKeepsKeys(b, tenant, now);
    SweepKeepsBacking(b, tenant, now);
  }

  // ---------------------------------------------------------------- every step

  /** A change that leaves ledger rows and lot terms alone. */
  lemma TermsKeep(b: Book, b': Book)
    requires Causes(b) && b'.entries == b.entries && LotsPersist(b, b') && |b'.lots| == |b.lots|
    ensures Causes(b')
  {
    forall k | 0 <= k < |b'.entries| && b'.entries[k].key.Some? && Paid(b'.entries[k].key.value)
      ensures exists i :: BackedBy(b', k, i)
    {
      var i :| BackedBy(b, k, i);
      assert BackedBy(b', k, i);
    }
  }

  lemma CreditKeepsCauses(b: Book, c: CustomerRef, amount: int, key: Option<Key>, now: Moment)
    requires Causes(b) && MayCredit(b, c, amount, key)
    ensures Causes(PostCredit(b, c, amount, key, now))
  {
    CreditAppends(b, c, amount, key, now);
    AppendKeeps(b, PostCredit(b, c, amount, key, now), Entry(c, Credit, amount, b.points[c] + amount, key));
  }

  lemma DebitKeepsCauses(b: Book, c: CustomerRef, amount: int, key: Option<Key>, sale: Option<int>, now: Moment)
    requires Causes(b) && MayDebit(b, c, amount, key, now) && (key.Some? ==> !Paid(key.value))
    ensures Causes(PostDebit(b, c, amount, key, sale, now))
  {
    DebitAppends(b, c, amount, key, sale, now);
    AppendKeeps(b, PostDebit(b, c, amount, key, sale, now), Entry(c, Debit, amount, b.points[c] - amount, key));
  }

  lemma SaleKeepsCauses(b: Book, c: CustomerRef, spent: int, earned: int, sale: int, now: Moment)
    requires Causes(b)
    ensures Causes(AfterSale(b, c, spent, earned, sale, now))
  {
    if c !in b.points || spent < 0 || earned < 0 || (spent > 0 && !MayDebit(b, c, spent, Some(ReceiptKey(sale, false)), now)) {
    } else {
      var paid := if spent > 0 then PostDebit(b, c, spent, Some(ReceiptKey(sale, false)), Some(sale), now) else b;
      if spent > 0 {
        DebitKeepsCauses(b, c, spent, Some(ReceiptKey(sale, false)), Some(sale), now);
      }
      if earned > 0 && MayCredit(paid, c, earned, Some(ReceiptKey(sale, true))) {
        CreditKeepsCauses(paid, c, earned, Some(ReceiptKey(sale, true)), now);
      }
    }
  }

  lemma RefundKeepsCauses(b: Book, c: CustomerRef, reversed: int, restored: int, sale: int, refund: int, listed: seq<nat>, now: Moment)
    requires Causes(b) && Accounts(b)
    ensures Causes(AfterRefund(b, c, reversed, restored, sale, refund, listed, now))
  {
    if c in b.points && reversed >= 0 && restored >= 0 {
      var back := Min(reversed, b.points[c]);
      if back > 0 && !MayDebit(b, c, back, Some(ReceiptKey(refund, false)), now) {
      } else {
        var taken := if back > 0 then PostDebit(b, c, back, Some(ReceiptKey(refund, false)), Some(refund), now) else b;
        if back > 0 {
          DebitKeepsCauses(b, c, back, Some(ReceiptKey(refund, false)), Some(refund), now);
          DebitKeeps(b, c, back, Some(ReceiptKey(refund, false)), Some(refund), now);
        }
        if restored > 0 && MayRestore(taken, c, restored, Some(ReceiptKey(refund, true)), sale, listed) {
          RestoreAppends(taken, c, restored, Some(ReceiptKey(refund, true)), sale, listed, now);
          AppendKeeps(taken, PostRestore(taken, c, restored, Some(ReceiptKey(refund, true)), sale, listed, now),
                      Entry(c, Credit, restored, taken.points[c] + restored, Some(ReceiptKey(refund, true))));
        }
      }
    }
  }

  lemma RegisterKeepsCauses(b: Book, c: CustomerRef, welcome: int, now: Moment)
    requires Causes(b)
    ensures Causes(AfterRegister(b, c, welcome, now))
  {
    if c !in b.points && 0 <= welcome <= INT4_MAX {
      var open := b.(points := b.points[c := 0]);
      TermsKeep(b, open);
      if welcome > 0 {
        CreditKeepsCauses(open, c, welcome, None, now);
      }
    }
  }

  lemma CreditStepKeepsCauses(b: Book, c: CustomerRef, amount: int, key: Option<Key>, now: Moment)
    requires Causes(b)
    ensures MayCredit(b, c, amount, key) ==> Causes(PostCredit(b, c, amount, key, now))
  {
    if MayCredit(b, c, amount, key) { CreditKeepsCauses(b, c, amount, key, now); }
  }

  lemma BirthdayKeepsCauses(b: Book, c: CustomerRef, amount: int, year: int, now: Moment)
    requires Causes(b)
    ensures Causes(AfterBirthday(b, c, amount, year, now))
  {
    var key := BirthdayKey(c, year);
    CreditStepKeepsCauses(b, c, amount, Some(key), now);
    if key !in b.loyaltyEvents && MayCredit(b, c, amount, Some(key)) {
      TermsKeep(PostCredit(b, c, amount, Some(key), now), AfterBirthday(b, c, amount, year, now));
    }
  }

  lemma DebitStepKeepsCauses(b: Book, c: CustomerRef, amount: int, key: Key, sale: Option<int>, now: Moment)
    requires Causes(b) && !Paid(key)
    ensures MayDebit(b, c, amount, Some(key), now) ==> Causes(PostDebit(b, c, amount, Some(key), sale, now))
  {
    if MayDebit(b, c, amount, Some(key), now) { DebitKeepsCauses(b, c, amount, Some(key), sale, now); }
  }

  lemma CreditActionKeepsCauses(b: Book, a: Action)
    requires Causes(b) && Credits(a)
    ensures Causes(Next(b, a))
  {
    match a
    case Register(c, welcome, now) => RegisterKeepsCauses(b, c, welcome, now);
    case Visit(c, points, now) => CreditStepKeepsCauses(b, c, points, None, now);
    case ManualCredit(c, amount, now) => CreditStepKeepsCauses(b, c, amount, None, now);
    case WheelSpin(c, prize, now) => CreditStepKeepsCauses(b, c, prize, None, now);
    case BirthdayBonus(c, amount, year, now) => BirthdayKeepsCauses(b, c, amount, year, now);
    case ReferralBonus(c, amount, reward, now) => CreditStepKeepsCauses(b, c, amount, Some(ReferralKey(c.company, reward)), now);
    case PartnerBonus(c, amount, offer, token, now) => CreditStepKeepsCauses(b, c, amount, Some(PartnerKey(c.company, offer, token)), now);
  }

  lemma DebitActionKeepsCauses(b: Book, a: Action)
    requires Causes(b) && Accounts(b) && Debits(a)
    ensures Causes(Next(b, a))
  {
    match a
    case ManualDebit(c, amount, now) => if MayDebit(b, c, amount, None, now) { DebitKeepsCauses(b, c, amount, None, None, now); }
    case Approval(c, credit, amount, request, now) =>
      CreditStepKeepsCauses(b, c, amount, Some(ApprovalKey(c.company, request)), now);
      DebitStepKeepsCauses(b, c, amount, ApprovalKey(c.company, request), None, now);
    case ReferralReversal(c, amount, reward, refund, now) =>
      if c in b.points { DebitStepKeepsCauses(b, c, Min(b.points[c], amount), ReversalKey(c.company, reward), Some(refund), now); }
    case PosSale(c, spent, earned, sale, now) => SaleKeepsCauses(b, c, spent, earned, sale, now);
    case PosRefund(c, reversed, restored, sale, refund, listed, now) => RefundKeepsCauses(b, c, reversed, restored, sale, refund, listed, now);
  }

  lemma StepKeepsCauses(b: Book, a: Action)
    requires Causes(b) && Accounts(b)
    ensures Causes(Next(b, a))
  {
    if Credits(a) {
      CreditActionKeepsCauses(b, a);
    } else if Debits(a) {
      DebitActionKeepsCauses(b, a);
    } else if a.ExpirySweep? {
      SweepKeepsCauses(b, a.tenant, a.now);
    } else {
      TermsKeep(b, Next(b, a));
    }
  }

  lemma EmptyBookCauses()
    ensures Causes(EmptyBook)
  {}

  lemma RunStepKeepsCauses(b: Book, a: Action, t: Book)
    requires Causes(b) && Accounts(b) && t == Next(b, a)
    ensures Causes(t)
  {
    StepKeepsCauses(b, a);
  }

  /** In every reachable book keys are unique, every lot names its own credit row,
      and every birthday or referral row stands on a lot of its full amount. */
  lemma {:induction false} RunKeepsCauses(actions: seq<Action>)
    ensures Causes(Run(actions))
    decreases |actions|
  {
    if actions == [] {
      EmptyBookCauses();
    } else {
      var before := actions[..|actions| - 1];
      RunKeepsCauses(before);
      RunKeepsAccounts(before);
      RunStepKeepsCauses(Run(before), actions[|actions| - 1], Run(actions));
    }
  }

  // ---------------------------------------------------------------- payments

  /** The step pays the cause `key`. */
  ghost predicate Pays(b: Book, a: Action, key: Key) { CauseOf(a) == Some(key) && Next(b, a).entries != b.entries }

  ghost function Payments(actions: seq<Action>, key: Key): nat {
    if actions == [] then 0
    else
      var before := actions[..|actions| - 1];
      Payments(before, key) + if Pays(Run(before), actions[|actions| - 1], key) then 1 else 0
  }

  /** A cause's key enters the ledger exactly in the step that pays it. */
  lemma CauseStep(b: Book, a: Action, key: Key)
    requires Paid(key)
    ensures KeyUsed(Next(b, a).entries, KeyCompany(key), Some(key))
       <==> KeyUsed(b.entries, KeyCompany(key), Some(key)) || Pays(b, a, key)
    ensures Pays(b, a, key) ==> !KeyUsed(b.entries, KeyCompany(key), Some(key))
  {
    match a
    case BirthdayBonus(c, amount, year, now) => CreditCause(b, c, amount, BirthdayKey(c, year), now, key);
    case ReferralBonus(c, amount, reward, now) => CreditCause(b, c, amount, ReferralKey(c.company, reward), now, key);
    case ExpirySweep(tenant, now) => SweepCause(b, tenant, now, key);
    case _ => OtherCause(b, a, key);
  }

  lemma CreditCause(b: Book, c: CustomerRef, amount: int, own: Key, now: Moment, key: Key)
    requires Paid(key) && Paid(own) && KeyCompany(own) == c.company
    ensures MayCredit(b, c, amount, Some(own)) ==>
              && (KeyUsed(PostCredit(b, c, amount, Some(own), now).entries, KeyCompany(key), Some(key))
                  <==> KeyUsed(b.entries, KeyCompany(key), Some(key)) || own == key)
              && !KeyUsed(b.entries, KeyCompany(own), Some(own))
  {
    if MayCredit(b, c, amount, Some(own)) {
      KeyUsedAppend(b.entries, Entry(c, Credit, amount, b.points[c] + amount, Some(own)), KeyCompany(key), Some(key));
    }
  }

  lemma SweepCause(b: Book, tenant: Option<int>, now: Moment, key: Key)
    requires Paid(key)
    ensures KeyUsed(Sweep(b, tenant, now).entries, KeyCompany(key), Some(key)) <==> KeyUsed(b.entries, KeyCompany(key), Some(key))
  {
    var rows := SweepRows(b, DueOwners(b.lots, tenant, now), tenant, now);
    SweepRowsHave(b, DueOwners(b.lots, tenant, now), tenant, now);
    if KeyUsed(b.entries, KeyCompany(key), Some(key)) {
      var i :| 0 <= i < |b.entries| && b.entries[i].key == Some(key) && b.entries[i].owner.company == KeyCompany(key);
      assert (b.entries + rows)[i] == b.entries[i];
    }
  }

  lemma OtherCause(b: Book, a: Action, key: Key)
    requires Paid(key) && (CauseOf(a).None? || !Paid(CauseOf(a).value)) && !a.ExpirySweep?
    ensures KeyUsed(Next(b, a).entries, KeyCompany(key), Some(key)) <==> KeyUsed(b.entries, KeyCompany(key), Some(key))
  {
    AppendedRows(b, a);
    var b' := Next(b, a);
    if |b'.entries| > |b.entries| {
      KeyUsedAppend(b.entries, b'.entries[|b.entries|], KeyCompany(key), Some(key));
      if |b'.entries| > |b.entries| + 1 {
        KeyUsedAppend(b.entries + [b'.entries[|b.entries|]], b'.entries[|b.entries| + 1], KeyCompany(key), Some(key));
      }
    }
  }

  lemma {:induction false} PaidAtMostOnce(actions: seq<Action>, key: Key)
    requires Paid(key)
    ensures Payments(actions, key) == if KeyUsed(Run(actions).entries, KeyCompany(key), Some(key)) then 1 else 0
    decreases |actions|
  {
    if actions != [] {
      PaidAtMostOnce(actions[..|actions| - 1], key);
      CauseStep(Run(actions[..|actions| - 1]), actions[|actions| - 1], key);
    }
  }

  /** Single credit per cause: over any run a cause pays never or once; when it has
      paid there is one row under its key and one lot, and they agree on customer
      and amount. */
  lemma SingleCreditPerCause(actions: seq<Action>, key: Key)
    requires Paid(key)
    ensures Payments(actions, key) <= 1
    ensures Payments(actions, key) == 1 ==>
              exists e: nat, i: nat :: && BackedBy(Run(actions), e, i)
                             && Run(actions).entries[e].key == Some(key)
                             && Run(actions).entries[e].operation == Credit
                             && OnlyRow(Run(actions), e) && OnlyLot(Run(actions), i)
  {
    var b := Run(actions);
    PaidAtMostOnce(actions, key);
    RunKeepsCauses(actions);
    if KeyUsed(b.entries, KeyCompany(key), Some(key)) {
      var e :| 0 <= e < |b.entries| && b.entries[e].key == Some(key) && b.entries[e].owner.company == KeyCompany(key);
      var i :| BackedBy(b, e, i);
      assert OnlyRow(b, e) && OnlyLot(b, i);
    }
  }

  ghost predicate OnlyRow(b: Book, e: nat)
    requires e < |b.entries|
  {
    forall k :: 0 <= k < |b.entries| && b.entries[k].key == b.entries[e].key && b.entries[k].owner.company == b.entries[e].owner.company
      ==> k == e
  }

  ghost predicate OnlyLot(b: Book, i: nat)
    requires i < |b.lots|
  {
    forall k :: 0 <= k < |b.lots| && b.lots[k].source == b.lots[i].source ==> k == i
  }
}
