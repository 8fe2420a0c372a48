/** Two runs of the referral desk with a worker whose candidate list is stale. */
module ReferralRuns {
  import opened Prelude
  import opened BonusLots
  import opened BonusBook
  import opened BonusLedger
  import opened ReferralDesk

  const FRIEND := CustomerRef(1, 1)
  const FRESH_REWARD := Reward(5, FRIEND, 50, PendingReward, None)

  function QualifiedSteps(): seq<DeskAction> { [BookStep(Register(FRIEND, 0, 0)), Qualify(5, map[7 := FRESH_REWARD])] }

  ghost function QualifiedDesk(): Desk {
    Desk(EmptyBook.(points := map[FRIEND := 0]), map[7 := FRESH_REWARD], map[5 := AwaitingRewards])
  }

  lemma QualifiedReached()
    ensures DeskRun(QualifiedSteps()) == QualifiedDesk()
  {
    var first := [BookStep(Register(FRIEND, 0, 0))];
    assert first[..0] == [] && QualifiedSteps()[..1] == first;
    assert DeskRun(first) == EmptyDesk.(book := EmptyBook.(points := map[FRIEND := 0]));
  }

  lemma OneMore(steps: seq<DeskAction>, s: DeskAction)
    ensures DeskRun(steps + [s]) == DeskNext(DeskRun(steps), s)
  {
    assert (steps + [s])[..|steps|] == steps;
  }

  /** Two workers hold the same list: the first pays and links the reward, the second
      erases the link. */
  lemma SecondWorkerErasesLink(now: Moment, later: Moment)
    ensures var paid := QualifiedSteps() + [Pay(7, now)];
      && 7 in DeskRun(paid).rewards && DeskRun(paid).rewards[7].entry == Some(0)
      && 7 in DeskRun(paid + [Pay(7, later)]).rewards && DeskRun(paid + [Pay(7, later)]).rewards[7].entry == None
  {
    var paid := QualifiedSteps() + [Pay(7, now)];
    QualifiedReached();
    OneMore(QualifiedSteps(), Pay(7, now));
    var d := DeskRun(paid);
    assert d == PayReward(QualifiedDesk(), 7, now);
    assert d.book.entries == [Entry(FRIEND, Credit, 50, 50, PayKey(7, FRESH_REWARD))];
    assert d.book.entries[0].key == PayKey(7, FRESH_REWARD);
    OneMore(paid, Pay(7, later));
  }

  /** A worker whose list predates the refund pays a reward the refund reversed. */
  lemma StaleWorkerPaysReversed(refund: int, now: Moment, later: Moment)
    ensures var back := QualifiedSteps() + [ReverseReward(7, refund, now)];
      && 7 in DeskRun(back).rewards && DeskRun(back).rewards[7].status == ReversedReward
      && 7 in DeskRun(back + [Pay(7, later)]).rewards && DeskRun(back + [Pay(7, later)]).rewards[7].status == IssuedReward
      && Balance(DeskRun(back + [Pay(7, later)]).book, FRIEND) == 50
  {
    var back := QualifiedSteps() + [ReverseReward(7, refund, now)];
    QualifiedReached();
    OneMore(QualifiedSteps(), ReverseReward(7, refund, now));
    assert DeskRun(back) == QualifiedDesk().(rewards := map[7 := FRESH_REWARD.(status := ReversedReward)]);
    OneMore(back, Pay(7, later));
  }
}
