/** The customer balance, the append-only bonus ledger and the bonus lots,
    and the committed transactions that change them. A transaction that the
    database or the handler rolls back leaves the book as it was. */
module BonusBook {
  import opened Prelude
  import opened BonusLots
  import opened BonusRestore

  const INT4_MAX := 2147483647
  const DAY := 86_400_000_000   // microseconds

  datatype Operation = Credit | Debit | Expire

  /** Idempotency keys; the text formats are injective, so a key is a name. */
  datatype Key =
    | BirthdayKey(customer: CustomerRef, year: int)
    | ReferralKey(company: int, reward: int)
    | ExpiryKey(customer: CustomerRef, day: int)
    | ReceiptKey(receipt: int, credit: bool)
    | ApprovalKey(company: int, request: int)
    | PartnerKey(company: int, offer: int, token: int)
    | ReversalKey(company: int, reward: int)

  datatype Entry = Entry(owner: CustomerRef, operation: Operation, amount: int, balanceAfter: int, key: Option<Key>)

  datatype Book = Book(
    points: map<CustomerRef, int>,
    archived: set<CustomerRef>,
    entries: seq<Entry>,
    lots: seq<Lot>,
    redemptions: seq<Redemption>,
    loyaltyEvents: set<Key>)

  const EmptyBook := Book(map[], {}, [], [], [], {})

  /** UNIQUE (company_id, idempotency_key). */
  predicate KeyUsed(entries: seq<Entry>, company: int, key: Option<Key>) {
    key.Some? && exists i :: 0 <= i < |entries| && entries[i].key == key && entries[i].owner.company == company
  }

  function DayOf(now: Moment): int { now / DAY }

  // ---------------------------------------------------------------- credit

  function IssuedLot(c: CustomerRef, entry: nat, amount: int, now: Moment): Lot {
    Lot(c, Some(entry), amount, amount, amount as real, now, now, None, Active)
  }

  /** The constraints a credit meets: amount > 0, int4 balance, unused key. */
  predicate MayCredit(b: Book, c: CustomerRef, amount: int, key: Option<Key>) {
    c in b.points && amount > 0 && b.points[c] + amount <= INT4_MAX && !KeyUsed(b.entries, c.company, key)
  }

  /** Balance update, ledger row and IssueBonusLot, as every crediting handler does. */
  function PostCredit(b: Book, c: CustomerRef, amount: int, key: Option<Key>, now: Moment): Book
    requires MayCredit(b, c, amount, key)
  {
    var balance := b.points[c] + amount;
    b.(points := b.points[c := balance],
       entries := b.entries + [Entry(c, Credit, amount, balance, key)],
       lots := b.lots + [IssuedLot(c, |b.entries|, amount, now)])
  }

  // ---------------------------------------------------------------- debit

  predicate MayDebit(b: Book, c: CustomerRef, amount: int, key: Option<Key>, now: Moment) {
    && c in b.points && 0 < amount <= b.points[c] && !KeyUsed(b.entries, c.company, key)
    && Consume(b.lots, c, amount, now).Some?
  }

  function PostDebit(b: Book, c: CustomerRef, amount: int, key: Option<Key>, sale: Option<int>, now: Moment): Book
    requires MayDebit(b, c, amount, key, now)
  {
    var balance := b.points[c] - amount;
    var drawn := Consume(b.lots, c, amount, now).value;
    b.(points := b.points[c := balance],
       entries := b.entries + [Entry(c, Debit, amount, balance, key)],
       lots := drawn.lots,
       redemptions := b.redemptions + RedemptionRows(drawn.draws, c, |b.entries|, sale))
  }

  // ---------------------------------------------------------------- restore

  ghost predicate MayRestore(b: Book, c: CustomerRef, amount: int, key: Option<Key>, sale: int, listed: seq<nat>) {
    && MayCredit(b, c, amount, key)
    && ReversibleListing(b.lots, b.redemptions, listed, c, sale)
  }

  /** The credit half of a refund: the listed redemptions first, and a lot of its
      own for what they do not cover. */
  ghost function PostRestore(b: Book, c: CustomerRef, amount: int, key: Option<Key>, sale: int, listed: seq<nat>, now: Moment): Book
    requires MayRestore(b, c, amount, key, sale, listed)
  {
    var balance := b.points[c] + amount;
    var back := RestoreFrom(b.lots, b.redemptions, listed, amount, now);
    b.(points := b.points[c := balance],
       entries := b.entries + [Entry(c, Credit, amount, balance, key)],
       lots := if back.left > 0 then back.lots + [IssuedLot(c, |b.entries|, back.left, now)] else back.lots,
       redemptions := back.rows)
  }

  // ---------------------------------------------------------------- expiry sweep

  predicate InTenant(c: CustomerRef, tenant: Option<int>) { tenant.None? || tenant.value == c.company }

  /** The "expired" CTE: due points of one customer. */
  function DueTotal(b: Book, c: CustomerRef, tenant: Option<int>, now: Moment): int {
    if InTenant(c, tenant) then Sum(b.lots, DueOf(c, now)) else 0
  }

  /** GROUP BY customer: each owner of a due lot, once. */
  function DueOwners(lots: seq<Lot>, tenant: Option<int>, now: Moment): seq<CustomerRef> {
    if lots == [] then []
    else
      var m := |lots| - 1;
      var rest := DueOwners(lots[..m], tenant, now);
      var l := lots[m];
      if Due(l, now) && InTenant(l.owner, tenant) && l.owner !in rest then rest + [l.owner] else rest
  }

  /** The "adjusted" CTE, with its clamp; it joins the customers that have something due. */
  function SweptPoints(b: Book, tenant: Option<int>, now: Moment): map<CustomerRef, int> {
    map c | c in b.points ::
      if c in DueOwners(b.lots, tenant, now) then Max(0, b.points[c] - DueTotal(b, c, tenant, now)) else b.points[c]
  }

  /** RETURNING least(e.amount, c.total_points + e.amount), over the new balance. */
  function RecordedAmount(b: Book, c: CustomerRef, tenant: Option<int>, now: Moment): int
    requires c in b.points
  {
    var due := DueTotal(b, c, tenant, now);
    Min(due, SweptPoints(b, tenant, now)[c] + due)
  }

  function SweepKey(c: CustomerRef, now: Moment): Option<Key> { Some(ExpiryKey(c, DayOf(now))) }

  /** The "ledger" CTE: ON CONFLICT DO NOTHING drops a row whose key is taken. */
  function SweepRows(b: Book, owners: seq<CustomerRef>, tenant: Option<int>, now: Moment): seq<Entry> {
    if owners == [] then []
    else
      var m := |owners| - 1;
      var rest := SweepRows(b, owners[..m], tenant, now);
      var c := owners[m];
      if c in b.points && RecordedAmount(b, c, tenant, now) > 0 && !KeyUsed(b.entries, c.company, SweepKey(c, now))
      then rest + [Entry(c, Expire, RecordedAmount(b, c, tenant, now), SweptPoints(b, tenant, now)[c], SweepKey(c, now))]
      else rest
  }

  function SweptLot(l: Lot, tenant: Option<int>, now: Moment): Lot {
    if Due(l, now) && InTenant(l.owner, tenant) then l.(remaining := 0, status := Expired) else l
  }

  function SweptLots(lots: seq<Lot>, tenant: Option<int>, now: Moment): (r: seq<Lot>)
    ensures |r| == |lots| && forall i :: 0 <= i < |lots| ==> r[i] == SweptLot(lots[i], tenant, now)
  {
    seq(|lots|, i requires 0 <= i < |lots| => SweptLot(lots[i], tenant, now))
  }

  /** expireBonusLots, one statement: every part reads the book before it. */
  function Sweep(b: Book, tenant: Option<int>, now: Moment): Book {
    b.(points := SweptPoints(b, tenant, now),
       entries := b.entries + SweepRows(b, DueOwners(b.lots, tenant, now), tenant, now),
       lots := SweptLots(b.lots, tenant, now))
  }

  // ---------------------------------------------------------------- transactions

  datatype Action =
    | Register(c: CustomerRef, welcome: int, now: Moment)
    | Archive(c: CustomerRef)
    | Visit(c: CustomerRef, points: int, now: Moment)
    | ManualCredit(c: CustomerRef, amount: int, now: Moment)
    | ManualDebit(c: CustomerRef, amount: int, now: Moment)
    | WheelSpin(c: CustomerRef, prize: int, now: Moment)
    | BirthdayBonus(c: CustomerRef, amount: int, year: int, now: Moment)
    | ReferralBonus(c: CustomerRef, amount: int, reward: int, now: Moment)
    | Approval(c: CustomerRef, credit: bool, amount: int, request: int, now: Moment)
    | PartnerBonus(c: CustomerRef, amount: int, offer: int, token: int, now: Moment)
    | ReferralReversal(c: CustomerRef, amount: int, reward: int, refund: int, now: Moment)
    | PosSale(c: CustomerRef, spent: int, earned: int, sale: int, now: Moment)
    | PosRefund(c: CustomerRef, reversed: int, restored: int, sale: int, refund: int, listed: seq<nat>, now: Moment)
    | SetExpiry(lot: nat, at: Moment)
    | ExpirySweep(tenant: Option<int>, now: Moment)

  predicate Credits(a: Action) { a.Register? || a.Visit? || a.ManualCredit? || a.WheelSpin? || a.BirthdayBonus? || a.ReferralBonus? || a.PartnerBonus? }

  predicate Debits(a: Action) { a.ManualDebit? || a.Approval? || a.ReferralReversal? || a.PosSale? || a.PosRefund? }

  /** Customer found by "deleted_at IS NULL". */
  predicate Present(b: Book, c: CustomerRef) { c in b.points && c !in b.archived }

  function AfterRegister(b: Book, c: CustomerRef, welcome: int, now: Moment): Book {
    if c in b.points || welcome < 0 || welcome > INT4_MAX then b
    else
      var open := b.(points := b.points[c := 0]);
      if welcome > 0 then PostCredit(open, c, welcome, None, now) else open
  }

  /** A visit that earns nothing breaks the ledger's CHECK (amount > 0) and rolls back. */
  function AfterVisit(b: Book, c: CustomerRef, points: int, now: Moment): Book {
    if Present(b, c) && MayCredit(b, c, points, None) then PostCredit(b, c, points, None, now) else b
  }

  function AfterManualDebit(b: Book, c: CustomerRef, amount: int, now: Moment): Book {
    if Present(b, c) && MayDebit(b, c, amount, None, now) then PostDebit(b, c, amount, None, None, now) else b
  }

  /** The wheel and the birthday worker update the balance without looking at deleted_at. */
  function AfterWheel(b: Book, c: CustomerRef, prize: int, now: Moment): Book {
    if MayCredit(b, c, prize, None) then PostCredit(b, c, prize, None, now) else b
  }

  function AfterBirthday(b: Book, c: CustomerRef, amount: int, year: int, now: Moment): Book {
    var key := BirthdayKey(c, year);
    if key in b.loyaltyEvents || !MayCredit(b, c, amount, Some(key)) then b
    else PostCredit(b, c, amount, Some(key), now).(loyaltyEvents := b.loyaltyEvents + {key})
  }

  function KeyedCredit(b: Book, c: CustomerRef, amount: int, key: Key, now: Moment): Book {
    if Present(b, c) && MayCredit(b, c, amount, Some(key)) then PostCredit(b, c, amount, Some(key), now) else b
  }

  function KeyedDebit(b: Book, c: CustomerRef, amount: int, key: Key, sale: Option<int>, now: Moment): Book {
    if Present(b, c) && MayDebit(b, c, amount, Some(key), now) then PostDebit(b, c, amount, Some(key), sale, now) else b
  }

  function AfterReferral(b: Book, c: CustomerRef, amount: int, reward: int, now: Moment): Book {
    KeyedCredit(b, c, amount, ReferralKey(c.company, reward), now)
  }

  /** The decision on a request a manager had to approve. */
  function AfterApproval(b: Book, c: CustomerRef, credit: bool, amount: int, request: int, now: Moment): Book {
    if credit then KeyedCredit(b, c, amount, ApprovalKey(c.company, request), now)
    else KeyedDebit(b, c, amount, ApprovalKey(c.company, request), None, now)
  }

  /** Taking an issued reward back takes what the balance still has of it. */
  function AfterReversal(b: Book, c: CustomerRef, amount: int, reward: int, refund: int, now: Moment): Book {
    if c in b.points then KeyedDebit(b, c, Min(b.points[c], amount), ReversalKey(c.company, reward), Some(refund), now) else b
  }

  /** applyLoyalty: debit then credit in one transaction; either failure undoes both. */
  function AfterSale(b: Book, c: CustomerRef, spent: int, earned: int, sale: int, now: Moment): Book {
    if c !in b.points || spent < 0 || earned < 0 then b
    else if spent > 0 && !MayDebit(b, c, spent, Some(ReceiptKey(sale, false)), now) then b
    else
      var paid := if spent > 0 then PostDebit(b, c, spent, Some(ReceiptKey(sale, false)), Some(sale), now) else b;
      if earned == 0 then paid
      else if MayCredit(paid, c, earned, Some(ReceiptKey(sale, true)))
      then PostCredit(paid, c, earned, Some(ReceiptKey(sale, true)), now)
      else b
  }

  /** Refund: the reversal is capped at the balance, then the spend is restored. */
  ghost function AfterRefund(b: Book, c: CustomerRef, reversed: int, restored: int, sale: int, refund: int, listed: seq<nat>, now: Moment): Book {
    if c !in b.points || reversed < 0 || restored < 0 then b
    else
      var back := Min(reversed, b.points[c]);
      if back > 0 && !MayDebit(b, c, back, Some(ReceiptKey(refund, false)), now) then b
      else
        var taken := if back > 0 then PostDebit(b, c, back, Some(ReceiptKey(refund, false)), Some(refund), now) else b;
        if restored == 0 then taken
        else if MayRestore(taken, c, restored, Some(ReceiptKey(refund, true)), sale, listed)
        then PostRestore(taken, c, restored, Some(ReceiptKey(refund, true)), sale, listed, now)
        else b
  }

  /** No code of the repository writes expires_at; whoever maintains the table may. */
  function AfterSetExpiry(b: Book, lot: nat, at: Moment): Book {
    if lot < |b.lots| && at > b.lots[lot].issuedAt
    then b.(lots := b.lots[lot := b.lots[lot].(expiresAt := Some(at))]) else b
  }

  ghost function Next(b: Book, a: Action): Book {
    match a
    case Register(c, welcome, now) => AfterRegister(b, c, welcome, now)
    case Archive(c) => b.(archived := b.archived + {c})
    case Visit(c, points, now) => AfterVisit(b, c, points, now)
    case ManualCredit(c, amount, now) => AfterVisit(b, c, amount, now)
    case ManualDebit(c, amount, now) => AfterManualDebit(b, c, amount, now)
    case WheelSpin(c, prize, now) => AfterWheel(b, c, prize, now)
    case BirthdayBonus(c, amount, year, now) => AfterBirthday(b, c, amount, year, now)
    case ReferralBonus(c, amount, reward, now) => AfterReferral(b, c, amount, reward, now)
    case Approval(c, credit, amount, request, now) => AfterApproval(b, c, credit, amount, request, now)
    case PartnerBonus(c, amount, offer, token, now) => KeyedCredit(b, c, amount, PartnerKey(c.company, offer, token), now)
    case ReferralReversal(c, amount, reward, refund, now) => AfterReversal(b, c, amount, reward, refund, now)
    case PosSale(c, spent, earned, sale, now) => AfterSale(b, c, spent, earned, sale, now)
    case PosRefund(c, reversed, restored, sale, refund, listed, now) => AfterRefund(b, c, reversed, restored, sale, refund, listed, now)
    case SetExpiry(lot, at) => AfterSetExpiry(b, lot, at)
    case ExpirySweep(tenant, now) => Sweep(b, tenant, now)
  }

  ghost function Run(actions: seq<Action>): Book {
    if actions == [] then EmptyBook else Next(Run(actions[..|actions| - 1]), actions[|actions| - 1])
  }
}
