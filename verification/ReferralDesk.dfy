/** Referral rewards and attributions and the book they pay into: the worker that
    pays, and the refund that takes rewards back. A worker's candidate list may be
    stale, so a reward can be processed after another worker has paid it, or after
    a refund has reversed it. */
module ReferralDesk {
  import opened Prelude
  import opened BonusLots
  import opened BonusRestore
  import opened BonusBook
  import opened BonusInvariants
  import opened BonusLedger
  import opened BonusCauses
  import opened BonusEffects

  datatype RewardStatus = PendingReward | IssuedReward | ReversedReward
  datatype Reward = Reward(attribution: int, beneficiary: CustomerRef, amount: int, status: RewardStatus, entry: Option<nat>)
  datatype AttributionStatus = AwaitingRewards | Rewarded | ReversedAttribution

  datatype Desk = Desk(book: Book, rewards: map<int, Reward>, attributions: map<int, AttributionStatus>)

  const EmptyDesk := Desk(EmptyBook, map[], map[])

  predicate StillPending(rewards: map<int, Reward>, attribution: int) {
    exists r :: r in rewards && rewards[r].attribution == attribution && rewards[r].status == PendingReward
  }

  function PayKey(r: int, x: Reward): Option<Key> { Some(ReferralKey(x.beneficiary.company, r)) }

  /** The statements after the credit: mark the reward, then the attribution if
      nothing of it is pending any more. */
  function Settle(d: Desk, r: int, entry: Option<nat>): Desk
    requires r in d.rewards
  {
    var x := d.rewards[r];
    var rewards := d.rewards[r := x.(status := IssuedReward, entry := entry)];
    d.(rewards := rewards,
       attributions := if x.attribution in d.attributions && !StillPending(rewards, x.attribution)
                       then d.attributions[x.attribution := Rewarded] else d.attributions)
  }

  /** One iteration of processReferralRewards; a rollback leaves the desk as it was. */
  function PayReward(d: Desk, r: int, now: Moment): Desk
    requires r in d.rewards
  {
    var x := d.rewards[r];
    if !Present(d.book, x.beneficiary) || x.amount <= 0 then d
    else if KeyUsed(d.book.entries, x.beneficiary.company, PayKey(r, x)) then Settle(d, r, None)
    else if MayCredit(d.book, x.beneficiary, x.amount, PayKey(r, x))
    then Settle(d.(book := PostCredit(d.book, x.beneficiary, x.amount, PayKey(r, x), now)), r, Some(|d.book.entries|))
    else d
  }

  predicate Commits(d: Desk, r: int)
    requires r in d.rewards
  {
    var x := d.rewards[r];
    Present(d.book, x.beneficiary) && x.amount > 0
    && (KeyUsed(d.book.entries, x.beneficiary.company, PayKey(r, x)) || MayCredit(d.book, x.beneficiary, x.amount, PayKey(r, x)))
  }

  datatype DeskAction =
    | BookStep(a: Action)
    | Qualify(attribution: int, rewards: map<int, Reward>)
    | Pay(reward: int, now: Moment)
    | ReverseReward(reward: int, refund: int, now: Moment)
    | CloseAttribution(attribution: int)

  /** applyReferralQualification inserts an attribution's rewards all at once. */
  predicate Qualifies(d: Desk, attribution: int, rewards: map<int, Reward>) {
    && attribution !in d.attributions
    && rewards.Keys !! d.rewards.Keys
    && forall r :: r in rewards ==>
         rewards[r].attribution == attribution && rewards[r].status == PendingReward && rewards[r].entry == None
         && !KeyUsed(d.book.entries, rewards[r].beneficiary.company, PayKey(r, rewards[r]))
  }

  /** Whether a reversal goes through; an issued reward is debited first. */
  predicate ReversalCommits(d: Desk, r: int, now: Moment)
    requires r in d.rewards
  {
    var x := d.rewards[r];
    var key := Some(ReversalKey(x.beneficiary.company, r));
    || x.status.PendingReward?
    || (x.status.IssuedReward? && x.amount <= 0)
    || (x.status.IssuedReward? && Present(d.book, x.beneficiary)
        && (d.book.points[x.beneficiary] == 0 || KeyUsed(d.book.entries, x.beneficiary.company, key)
            || MayDebit(d.book, x.beneficiary, Min(d.book.points[x.beneficiary], x.amount), key, now)))
  }

  /** One reward of reverseReferralQualification. */
  function TakeBack(d: Desk, r: int, refund: int, now: Moment): Desk
    requires r in d.rewards
  {
    var x := d.rewards[r];
    if !ReversalCommits(d, r, now) then d
    else
      d.(book := if x.status.IssuedReward? && x.amount > 0 then AfterReversal(d.book, x.beneficiary, x.amount, r, refund, now) else d.book,
         rewards := d.rewards[r := x.(status := ReversedReward)])
  }

  predicate AllReversed(d: Desk, attribution: int) {
    forall r :: r in d.rewards && d.rewards[r].attribution == attribution ==> d.rewards[r].status.ReversedReward?
  }

  /** The book steps a desk makes only through its own actions. */
  predicate OwnedByDesk(a: Action) { a.ReferralBonus? || a.ReferralReversal? }

  ghost function DeskNext(d: Desk, s: DeskAction): Desk {
    match s
    case BookStep(a) => if OwnedByDesk(a) then d else d.(book := Next(d.book, a))
    case Qualify(attribution, rewards) =>
      if Qualifies(d, attribution, rewards)
      then d.(rewards := d.rewards + rewards, attributions := d.attributions[attribution := AwaitingRewards]) else d
    case Pay(r, now) => if r in d.rewards then PayReward(d, r, now) else d
    case ReverseReward(r, refund, now) => if r in d.rewards then TakeBack(d, r, refund, now) else d
    case CloseAttribution(t) =>
      if t in d.attributions && AllReversed(d, t) then d.(attributions := d.attributions[t := ReversedAttribution]) else d
  }

  ghost function DeskRun(steps: seq<DeskAction>): Desk {
    if steps == [] then EmptyDesk else DeskNext(DeskRun(steps[..|steps| - 1]), steps[|steps| - 1])
  }

  // ---------------------------------------------------------------- the book of a desk

  function BookAction(d: Desk, s: DeskAction): seq<Action> {
    match s
    case BookStep(a) => if OwnedByDesk(a) then [] else [a]
    case Qualify(_, _) => []
    case Pay(r, now) =>
      if r in d.rewards then [ReferralBonus(d.rewards[r].beneficiary, d.rewards[r].amount, r, now)] else []
    case ReverseReward(r, refund, now) =>
      if r in d.rewards && d.rewards[r].status.IssuedReward? && d.rewards[r].amount > 0 && ReversalCommits(d, r, now)
      then [ReferralReversal(d.rewards[r].beneficiary, d.rewards[r].amount, r, refund, now)] else []
    case CloseAttribution(_) => []
  }

  ghost function BookTrace(steps: seq<DeskAction>): seq<Action> {
    if steps == [] then []
    else
      var m := |steps| - 1;
      BookTrace(steps[..m]) + BookAction(DeskRun(steps[..m]), steps[m])
  }

  lemma RunSnoc(before: seq<Action>, a: Action)
    ensures Run(before + [a]) == Next(Run(before), a)
  {
    assert (before + [a])[..|before|] == before;
  }

  lemma QuietStep(d: Desk, s: DeskAction)
    requires BookAction(d, s) == []
    ensures DeskNext(d, s).book == d.book
  {}

  lemma StepIsBookAction(d: Desk, s: DeskAction)
    requires BookAction(d, s) != []
    ensures |BookAction(d, s)| == 1 && DeskNext(d, s).book == Next(d.book, BookAction(d, s)[0])
  {}

  lemma TraceStep(trace: seq<Action>, d: Desk, s: DeskAction)
    requires d.book == Run(trace)
    ensures DeskNext(d, s).book == Run(trace + BookAction(d, s))
  {
    var more := BookAction(d, s);
    if more == [] {
      QuietStep(d, s);
      assert trace + more == trace;
    } else {
      StepIsBookAction(d, s);
      assert more == [more[0]];
      RunSnoc(trace, more[0]);
    }
  }

  /** Paying a reward or taking one back does to the book what one credit or debit
      does, so all that holds of book runs (conservation, one credit per key) holds
      of desk runs. */
  lemma {:induction false} DeskRefinesBook(steps: seq<DeskAction>)
    ensures DeskRun(steps).book == Run(BookTrace(steps))
    decreases |steps|
  {
    if steps != [] {
      var m := |steps| - 1;
      DeskRefinesBook(steps[..m]);
      TraceStep(BookTrace(steps[..m]), DeskRun(steps[..m]), steps[m]);
    }
  }

  // ---------------------------------------------------------------- rewards and attributions

  ghost predicate RewardOk(d: Desk, r: int)
    requires r in d.rewards
  {
    var x := d.rewards[r];
    && x.attribution in d.attributions
    && (x.status.PendingReward? ==> !KeyUsed(d.book.entries, x.beneficiary.company, PayKey(r, x)))
    && (x.status.IssuedReward? ==> KeyUsed(d.book.entries, x.beneficiary.company, PayKey(r, x)))
    && (x.entry.Some? ==>
          x.entry.value < |d.book.entries| && d.book.entries[x.entry.value].key == PayKey(r, x)
          && d.book.entries[x.entry.value].owner == x.beneficiary && d.book.entries[x.entry.value].amount == x.amount)
  }

  ghost predicate DeskOk(d: Desk) {
    && (forall r :: r in d.rewards ==> RewardOk(d, r))
    && (forall t :: t in d.attributions && d.attributions[t] == Rewarded ==> !StillPending(d.rewards, t))
  }

  lemma ReferralKeysStay(b: Book, a: Action, company: int, r: int)
    requires !a.ReferralBonus?
    ensures KeyUsed(Next(b, a).entries, company, Some(ReferralKey(company, r))) <==> KeyUsed(b.entries, company, Some(ReferralKey(company, r)))
  {
    CauseStep(b, a, ReferralKey(company, r));
  }

  lemma EntriesOnlyGrow(b: Book, a: Action)
    ensures b.entries <= Next(b, a).entries
  {
    if !a.ExpirySweep? {
      AppendedRows(b, a);
    }
  }

  lemma BookStepKeepsDesk(d: Desk, a: Action)
    requires DeskOk(d) && !a.ReferralBonus?
    ensures DeskOk(d.(book := Next(d.book, a)))
  {
    EntriesOnlyGrow(d.book, a);
    forall r | r in d.rewards ensures RewardOk(d.(book := Next(d.book, a)), r) {
      ReferralKeysStay(d.book, a, d.rewards[r].beneficiary.company, r);
      assert RewardOk(d, r);
    }
  }

  lemma QualifyKeepsDesk(d: Desk, attribution: int, rewards: map<int, Reward>)
    requires DeskOk(d) && Qualifies(d, attribution, rewards)
    ensures DeskOk(DeskNext(d, Qualify(attribution, rewards)))
  {
    var d' := DeskNext(d, Qualify(attribution, rewards));
    forall r | r in d'.rewards ensures RewardOk(d', r) {
      if r in d.rewards { assert RewardOk(d, r); }
    }
    forall t | t in d'.attributions && d'.attributions[t] == Rewarded ensures !StillPending(d'.rewards, t) {
      assert t != attribution;
      forall r | r in d'.rewards && d'.rewards[r].attribution == t ensures d'.rewards[r].status != PendingReward {
        assert r in d.rewards;
      }
    }
  }

  lemma SettleKeepsDesk(d: Desk, r: int, entry: Option<nat>)
    requires r in d.rewards && d.rewards[r].attribution in d.attributions
    requires KeyUsed(d.book.entries, d.rewards[r].beneficiary.company, PayKey(r, d.rewards[r]))
    requires forall q :: q in d.rewards && q != r ==> RewardOk(d, q)
    requires forall t :: t in d.attributions && d.attributions[t] == Rewarded ==> !StillPending(d.rewards, t)
    requires entry.Some? ==>
               entry.value < |d.book.entries| && d.book.entries[entry.value].key == PayKey(r, d.rewards[r])
               && d.book.entries[entry.value].owner == d.rewards[r].beneficiary && d.book.entries[entry.value].amount == d.rewards[r].amount
    ensures DeskOk(Settle(d, r, entry))
  {
    var d' := Settle(d, r, entry);
    forall q | q in d'.rewards ensures RewardOk(d', q) {
      if q != r { assert RewardOk(d, q); }
    }
    forall t | t in d'.attributions && d'.attributions[t] == Rewarded ensures !StillPending(d'.rewards, t) {
      if StillPending(d'.rewards, t) {
        var q :| q in d'.rewards && d'.rewards[q].attribution == t && d'.rewards[q].status == PendingReward;
        assert d.rewards[q] == d'.rewards[q];
        assert StillPending(d.rewards, t);
      }
    }
  }

  lemma PayKeepsDesk(d: Desk, r: int, now: Moment)
    requires DeskOk(d) && r in d.rewards
    ensures DeskOk(PayReward(d, r, now))
  {
    var x := d.rewards[r];
    assert RewardOk(d, r);
    if !Present(d.book, x.beneficiary) || x.amount <= 0 {
    } else if KeyUsed(d.book.entries, x.beneficiary.company, PayKey(r, x)) {
      SettleKeepsDesk(d, r, None);
    } else if MayCredit(d.book, x.beneficiary, x.amount, PayKey(r, x)) {
      var row := Entry(x.beneficiary, Credit, x.amount, d.book.points[x.beneficiary] + x.amount, PayKey(r, x));
      var mid := d.(book := PostCredit(d.book, x.beneficiary, x.amount, PayKey(r, x), now));
      KeyUsedAppend(d.book.entries, row, x.beneficiary.company, PayKey(r, x));
      forall q | q in d.rewards && q != r ensures RewardOk(mid, q) {
        assert RewardOk(d, q);
        KeyUsedAppend(d.book.entries, row, d.rewards[q].beneficiary.company, PayKey(q, d.rewards[q]));
      }
      SettleKeepsDesk(mid, r, Some(|d.book.entries|));
    }
  }

  lemma TakeBackKeepsDesk(d: Desk, r: int, refund: int, now: Moment)
    requires DeskOk(d) && r in d.rewards
    ensures DeskOk(TakeBack(d, r, refund, now))
  {
    var x := d.rewards[r];
    if ReversalCommits(d, r, now) {
      var mid := if x.status.IssuedReward? && x.amount > 0 then AfterReversal(d.book, x.beneficiary, x.amount, r, refund, now) else d.book;
      if x.status.IssuedReward? && x.amount > 0 {
        BookStepKeepsDesk(d, ReferralReversal(x.beneficiary, x.amount, r, refund, now));
      }
      ReversedKeepsDesk(d.(book := mid), r);
    }
  }

  lemma ReversedKeepsDesk(d: Desk, r: int)
    requires DeskOk(d) && r in d.rewards
    ensures DeskOk(d.(rewards := d.rewards[r := d.rewards[r].(status := ReversedReward)]))
  {
    var after := d.(rewards := d.rewards[r := d.rewards[r].(status := ReversedReward)]);
    forall q | q in after.rewards ensures RewardOk(after, q) { assert RewardOk(d, q); }
    forall t | t in after.attributions && after.attributions[t] == Rewarded ensures !StillPending(after.rewards, t) {
      assert !StillPending(d.rewards, t);
    }
  }

  lemma CloseKeepsDesk(d: Desk, attribution: int)
    requires DeskOk(d)
    ensures DeskOk(DeskNext(d, CloseAttribution(attribution)))
  {
    var after := DeskNext(d, CloseAttribution(attribution));
    forall r | r in after.rewards ensures RewardOk(after, r) { assert RewardOk(d, r); }
  }

  /** In every reachable desk a reward that was not reversed is issued exactly when
      its key has paid, its link names that ledger row, and an attribution set to
      rewarded has no pending reward left. */
  lemma {:induction false} DeskRunOk(steps: seq<DeskAction>)
    ensures DeskOk(DeskRun(steps))
    decreases |steps|
  {
    if steps != [] {
      var m := |steps| - 1;
      var d := DeskRun(steps[..m]);
      DeskRunOk(steps[..m]);
      match steps[m]
      case BookStep(a) => if !OwnedByDesk(a) { BookStepKeepsDesk(d, a); }
      case Qualify(attribution, rewards) => if Qualifies(d, attribution, rewards) { QualifyKeepsDesk(d, attribution, rewards); }
      case Pay(r, now) => if r in d.rewards { PayKeepsDesk(d, r, now); }
      case ReverseReward(r, refund, now) => if r in d.rewards { TakeBackKeepsDesk(d, r, refund, now); }
      case CloseAttribution(t) => CloseKeepsDesk(d, t);
    }
  }

  /** Processing a reward leaves the link to its ledger row exactly when its key had
      not paid: a repeated pass pays nothing and erases the link. */
  lemma LinkSurvivesFirstPassOnly(d: Desk, r: int, now: Moment)
    requires DeskOk(d) && r in d.rewards && Commits(d, r)
    ensures var paid := KeyUsed(d.book.entries, d.rewards[r].beneficiary.company, PayKey(r, d.rewards[r]));
      && (PayReward(d, r, now).rewards[r].entry.Some? <==> !paid)
      && (PayReward(d, r, now).book == d.book <==> paid)
      && (d.rewards[r].status != ReversedReward ==> (paid <==> d.rewards[r].status == IssuedReward))
    ensures PayReward(d, r, now).rewards[r].status == IssuedReward
  {
    assert RewardOk(d, r);
  }

  /** A reversed reward stays reversed under a stale worker exactly when its
      transaction does not go through. */
  lemma ReversedStaysIff(d: Desk, r: int, now: Moment)
    requires r in d.rewards && d.rewards[r].status == ReversedReward
    ensures PayReward(d, r, now).rewards[r].status == ReversedReward <==> !Commits(d, r)
  {}

  // ---------------------------------------------------------------- what each step does

  /** Processing a reward, whatever its status: the customer must be found; a key that has
      paid is not paid again, one that has not is credited if the balance takes it; and
      the attribution becomes rewarded when none of its rewards is pending any more. */
  lemma PayEffect(d: Desk, r: int, now: Moment)
    requires r in d.rewards
    ensures var t, x := DeskNext(d, Pay(r, now)), d.rewards[r];
      var key, unpaid := ReferralKey(x.beneficiary.company, r), Unused(d.book.entries, x.beneficiary.company, ReferralKey(x.beneficiary.company, r));
      if !Found(d.book, x.beneficiary) || x.amount <= 0 || (unpaid && d.book.points[x.beneficiary] + x.amount > 2147483647) then t == d
      else
        && (if unpaid then Credited(d.book, t.book, x.beneficiary, x.amount, Some(key), now) else t.book == d.book)
        && t.rewards == d.rewards[r := Reward(x.attribution, x.beneficiary, x.amount, IssuedReward, if unpaid then Some(|d.book.entries|) else None)]
        && t.attributions ==
             (if x.attribution in d.attributions && (forall q :: q in t.rewards && t.rewards[q].attribution == x.attribution ==> t.rewards[q].status != PendingReward)
              then d.attributions[x.attribution := Rewarded] else d.attributions)
  {
    CreditGoesThrough(d.book, d.rewards[r].beneficiary, d.rewards[r].amount, PayKey(r, d.rewards[r]), now);
  }

  /** Taking a reward back: a pending one is only marked; an issued one is debited first,
      as far as the balance goes, unless there is nothing to take or it was taken before. */
  lemma TakeBackEffect(d: Desk, r: int, refund: int, now: Moment)
    requires r in d.rewards
    ensures var t, x := DeskNext(d, ReverseReward(r, refund, now)), d.rewards[r];
      var c, key, marked := x.beneficiary, ReversalKey(x.beneficiary.company, r), d.rewards[r := x.(status := ReversedReward)];
      var taken := if c in d.book.points && d.book.points[c] < x.amount then d.book.points[c] else x.amount;
      if x.status == ReversedReward then t == d
      else if x.status == PendingReward || x.amount <= 0 then t == d.(rewards := marked)
      else if !Found(d.book, c) then t == d
      else if taken == 0 || !Unused(d.book.entries, c.company, key) then t == d.(rewards := marked)
      else if DebitFits(d.book, c, taken, Some(key), now)
      then Debited(d.book, t.book, c, taken, Some(key), Some(refund), now) && t.rewards == marked && t.attributions == d.attributions
      else t == d
  {
    var x := d.rewards[r];
    var c := x.beneficiary;
    if c in d.book.points {
      DebitGoesThrough(d.book, c, Min(d.book.points[c], x.amount), Some(ReversalKey(c.company, r)), Some(refund), now);
    }
  }

  /** An attribution is opened once, with new pending rewards only, and closed as reversed
      when every one of its rewards is. */
  lemma QualifyAndCloseEffect(d: Desk, attribution: int, rewards: map<int, Reward>)
    ensures var t := DeskNext(d, Qualify(attribution, rewards));
      if && attribution !in d.attributions
         && (forall r :: r in rewards ==>
               && r !in d.rewards && rewards[r].attribution == attribution && rewards[r].status == PendingReward && rewards[r].entry == None
               && Unused(d.book.entries, rewards[r].beneficiary.company, ReferralKey(rewards[r].beneficiary.company, r)))
      then t == Desk(d.book, d.rewards + rewards, d.attributions[attribution := AwaitingRewards])
      else t == d
    ensures var t := DeskNext(d, CloseAttribution(attribution));
      if && attribution in d.attributions
         && (forall r :: r in d.rewards && d.rewards[r].attribution == attribution ==> d.rewards[r].status == ReversedReward)
      then t == Desk(d.book, d.rewards, d.attributions[attribution := ReversedAttribution])
      else t == d
  {
    forall r | r in rewards
      ensures Unused(d.book.entries, rewards[r].beneficiary.company, ReferralKey(rewards[r].beneficiary.company, r))
        <==> !KeyUsed(d.book.entries, rewards[r].beneficiary.company, PayKey(r, rewards[r]))
    {
      UnusedMeans(d.book.entries, rewards[r].beneficiary.company, ReferralKey(rewards[r].beneficiary.company, r));
    }
  }
}
