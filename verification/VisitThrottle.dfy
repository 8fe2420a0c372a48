/** The sliding-window limiter of createVisit. A visit row is stamped with the
    start of its transaction; rows appear in commit order, which the lock on the
    customer row makes the order of the checks. */
module VisitThrottle {
  import opened Prelude
  import opened BonusLots

  const TWO_MINUTES := 120_000_000      // microseconds
  const TWENTY_FOUR_HOURS := 86_400_000_000
  const VISIT_LIMIT := 5

  /** `counter` tells a visit made at the counter from one a POS receipt made. */
  datatype VisitRow = VisitRow(customer: CustomerRef, at: Moment, counter: bool)

  function AfterOf(c: CustomerRef, since: Moment): VisitRow -> int {
    (v: VisitRow) => if v.customer == c && v.at > since then 1 else 0
  }

  predicate Duplicate(visits: seq<VisitRow>, c: CustomerRef, now: Moment) {
    exists i :: 0 <= i < |visits| && visits[i].customer == c && visits[i].at > now - TWO_MINUTES
  }

  function VisitsToday(visits: seq<VisitRow>, c: CustomerRef, now: Moment): int {
    Sum(visits, AfterOf(c, now - TWENTY_FOUR_HOURS))
  }

  predicate Admits(visits: seq<VisitRow>, c: CustomerRef, now: Moment) {
    !Duplicate(visits, c, now) && VisitsToday(visits, c, now) < VISIT_LIMIT
  }

  /** A transaction reaching its check, in any order of start times. */
  datatype Attempt = Attempt(customer: CustomerRef, start: Moment, counter: bool)

  function Log(attempts: seq<Attempt>): seq<VisitRow> {
    if attempts == [] then []
    else
      var m := |attempts| - 1;
      var a := attempts[m];
      var before := Log(attempts[..m]);
      if a.counter && !Admits(before, a.customer, a.start) then before
      else before + [VisitRow(a.customer, a.start, a.counter)]
  }

  /** Spacing: a counter visit is at least two minutes after every visit of the
      customer committed before it, whichever transaction began first. */
  ghost predicate Spaced(visits: seq<VisitRow>) {
    forall i, j :: 0 <= i < j < |visits| && visits[j].counter && visits[i].customer == visits[j].customer
      ==> visits[i].at + TWO_MINUTES <= visits[j].at
  }

  function InWindowOf(c: CustomerRef, from: Moment): VisitRow -> int {
    (v: VisitRow) => if v.customer == c && v.counter && from <= v.at < from + TWENTY_FOUR_HOURS then 1 else 0
  }

  function InWindowUpTo(c: CustomerRef, from: Moment): VisitRow -> int {
    (v: VisitRow) => if v.customer == c && v.counter && from < v.at <= from + TWENTY_FOUR_HOURS then 1 else 0
  }

  ghost predicate Limited(visits: seq<VisitRow>) {
    forall c, from :: Sum(visits, InWindowOf(c, from)) <= VISIT_LIMIT && Sum(visits, InWindowUpTo(c, from)) <= VISIT_LIMIT
  }

  lemma AdmittedKeeps(visits: seq<VisitRow>, c: CustomerRef, now: Moment)
    requires Spaced(visits) && Limited(visits) && Admits(visits, c, now)
    ensures Spaced(visits + [VisitRow(c, now, true)]) && Limited(visits + [VisitRow(c, now, true)])
  {
    var row := VisitRow(c, now, true);
    forall d, from
      ensures Sum(visits + [row], InWindowOf(d, from)) <= VISIT_LIMIT && Sum(visits + [row], InWindowUpTo(d, from)) <= VISIT_LIMIT
    {
      SumAppend(visits, row, InWindowOf(d, from));
      SumAppend(visits, row, InWindowUpTo(d, from));
      if d == c && from <= now < from + TWENTY_FOUR_HOURS {
        SumMono(visits, InWindowOf(c, from), AfterOf(c, now - TWENTY_FOUR_HOURS));
      }
      if d == c && from < now <= from + TWENTY_FOUR_HOURS {
        SumMono(visits, InWindowUpTo(c, from), AfterOf(c, now - TWENTY_FOUR_HOURS));
      }
    }
  }

  lemma PosKeeps(visits: seq<VisitRow>, c: CustomerRef, now: Moment)
    requires Spaced(visits) && Limited(visits)
    ensures Spaced(visits + [VisitRow(c, now, false)]) && Limited(visits + [VisitRow(c, now, false)])
  {
    var row := VisitRow(c, now, false);
    forall d, from
      ensures Sum(visits + [row], InWindowOf(d, from)) <= VISIT_LIMIT && Sum(visits + [row], InWindowUpTo(d, from)) <= VISIT_LIMIT
    {
      SumAppend(visits, row, InWindowOf(d, from));
      SumAppend(visits, row, InWindowUpTo(d, from));
    }
  }

  /** For every schedule of attempts: spacing in commit order, and at most five
      counter visits of a customer in any half-open window of 24 hours. */
  lemma {:induction false} LogIsThrottled(attempts: seq<Attempt>)
    ensures Spaced(Log(attempts)) && Limited(Log(attempts))
    decreases |attempts|
  {
    if attempts == [] {
    } else {
      var m := |attempts| - 1;
      var a := attempts[m];
      var before := Log(attempts[..m]);
      LogIsThrottled(attempts[..m]);
      if a.counter {
        if Admits(before, a.customer, a.start) {
          AdmittedKeeps(before, a.customer, a.start);
        }
      } else {
        PosKeeps(before, a.customer, a.start);
      }
    }
  }

  /** Evenly spaced times; the sixth is exactly 24 hours after the first. */
  function At(k: int): Moment { k * 17_280_000_000 }

  function Attempts(c: CustomerRef, k: nat): seq<Attempt> {
    if k == 0 then [] else Attempts(c, k - 1) + [Attempt(c, At(k - 1), true)]
  }

  function Rows(c: CustomerRef, k: nat): (r: seq<VisitRow>)
    ensures |r| == k && forall i :: 0 <= i < k ==> r[i].customer == c && r[i].counter && 0 <= r[i].at <= At(k - 1)
  {
    if k == 0 then [] else Rows(c, k - 1) + [VisitRow(c, At(k - 1), true)]
  }

  function ClosedWindowOf(c: CustomerRef, from: Moment): VisitRow -> int {
    (v: VisitRow) => if v.customer == c && v.counter && from <= v.at <= from + TWENTY_FOUR_HOURS then 1 else 0
  }

  lemma {:induction false} RowsAfter(c: CustomerRef, k: nat, since: Moment)
    requires since <= 0
    ensures Sum(Rows(c, k), AfterOf(c, since)) == if since < 0 || k == 0 then k else k - 1
  {
    if k > 0 {
      RowsAfter(c, k - 1, since);
      SumAppend(Rows(c, k - 1), VisitRow(c, At(k - 1), true), AfterOf(c, since));
    }
  }

  lemma {:induction false} RowsInClosedWindow(c: CustomerRef, k: nat)
    requires k <= 6
    ensures Sum(Rows(c, k), ClosedWindowOf(c, 0)) == k
  {
    if k > 0 {
      RowsInClosedWindow(c, k - 1);
      SumAppend(Rows(c, k - 1), VisitRow(c, At(k - 1), true), ClosedWindowOf(c, 0));
    }
  }

  lemma RowsAdmitNext(c: CustomerRef, k: nat)
    requires k < 6
    ensures Admits(Rows(c, k), c, At(k))
  {
    RowsAfter(c, k, At(k) - TWENTY_FOUR_HOURS);
  }

  lemma {:induction false} AllAdmitted(c: CustomerRef, k: nat)
    requires k <= 6
    ensures Log(Attempts(c, k)) == Rows(c, k)
  {
    if k > 0 {
      AllAdmitted(c, k - 1);
      RowsAdmitNext(c, k - 1);
      assert Attempts(c, k)[..|Attempts(c, k)| - 1] == Attempts(c, k - 1);
    }
  }

  /** The half-open window is as far as the bound goes: a closed one can hold six. */
  lemma ClosedWindowHoldsSix(c: CustomerRef)
    ensures Sum(Log(Attempts(c, 6)), ClosedWindowOf(c, 0)) == VISIT_LIMIT + 1
  {
    AllAdmitted(c, 6);
    RowsInClosedWindow(c, 6);
  }

  // ---------------------------------------------------------------- who is refused

  /** The places of the customer's visits stamped later than `since`. */
  function Since(visits: seq<VisitRow>, c: CustomerRef, since: Moment): set<int> {
    set i | 0 <= i < |visits| && visits[i].customer == c && visits[i].at > since
  }

  lemma SinceAppend(visits: seq<VisitRow>, row: VisitRow, c: CustomerRef, since: Moment)
    ensures Since(visits + [row], c, since) == if row.customer == c && row.at > since then Since(visits, c, since) + {|visits|} else Since(visits, c, since)
    ensures |visits| !in Since(visits, c, since)
  {}

  lemma {:induction false} AfterOfCounts(visits: seq<VisitRow>, c: CustomerRef, since: Moment)
    ensures Sum(visits, AfterOf(c, since)) == |set i | 0 <= i < |visits| && visits[i].customer == c && visits[i].at > since|
    decreases |visits|
  {
    assert (set i | 0 <= i < |visits| && visits[i].customer == c && visits[i].at > since) == Since(visits, c, since);
    if visits != [] {
      var m := |visits| - 1;
      AfterOfCounts(visits[..m], c, since);
      SinceAppend(visits[..m], visits[m], c, since);
      assert visits == visits[..m] + [visits[m]];
    }
  }

  /** A visit made at the counter is left off the log if and only if the customer has a
      logged visit less than two minutes old, or five less than twenty-four hours old. */
  lemma RefusedIff(attempts: seq<Attempt>, c: CustomerRef, t: Moment)
    ensures var log := Log(attempts);
      var refused :=
        || (exists i :: 0 <= i < |log| && log[i].customer == c && log[i].at > t - 120_000_000)
        || |set i | 0 <= i < |log| && log[i].customer == c && log[i].at > t - 86_400_000_000| >= 5;
      Log(attempts + [Attempt(c, t, true)]) == if refused then log else log + [VisitRow(c, t, true)]
  {
    assert (attempts + [Attempt(c, t, true)])[..|attempts|] == attempts;
    AfterOfCounts(Log(attempts), c, t - 86_400_000_000);
  }

  function AttemptsOf(attempts: seq<Attempt>, c: CustomerRef): seq<Attempt> {
    if attempts == [] then []
    else
      var front, last := AttemptsOf(attempts[..|attempts| - 1], c), attempts[|attempts| - 1];
      if last.customer == c then front + [last] else front
  }

  function VisitsOf(visits: seq<VisitRow>, c: CustomerRef): seq<VisitRow> {
    if visits == [] then []
    else
      var front, last := VisitsOf(visits[..|visits| - 1], c), visits[|visits| - 1];
      if last.customer == c then front + [last] else front
  }

  lemma VisitsOfAppend(visits: seq<VisitRow>, row: VisitRow, c: CustomerRef)
    ensures VisitsOf(visits + [row], c) == if row.customer == c then VisitsOf(visits, c) + [row] else VisitsOf(visits, c)
  {
    assert (visits + [row])[..|visits|] == visits;
  }

  lemma {:induction false} OwnVisitsDecide(visits: seq<VisitRow>, c: CustomerRef, t: Moment)
    ensures Duplicate(visits, c, t) <==> Duplicate(VisitsOf(visits, c), c, t)
    ensures VisitsToday(visits, c, t) == VisitsToday(VisitsOf(visits, c), c, t)
    decreases |visits|
  {
    if visits != [] {
      var m := |visits| - 1;
      var front, own := visits[..m], VisitsOf(visits[..m], c);
      OwnVisitsDecide(front, c, t);
      assert visits == front + [visits[m]];
      DuplicateAppend(front, visits[m], c, t);
      if visits[m].customer == c {
        DuplicateAppend(own, visits[m], c, t);
        SumAppend(own, visits[m], AfterOf(c, t - TWENTY_FOUR_HOURS));
      }
    }
  }

  lemma DuplicateAppend(visits: seq<VisitRow>, row: VisitRow, c: CustomerRef, t: Moment)
    ensures Duplicate(visits + [row], c, t) <==> Duplicate(visits, c, t) || (row.customer == c && row.at > t - TWO_MINUTES)
  {
    var more := visits + [row];
    if i :| 0 <= i < |visits| && visits[i].customer == c && visits[i].at > t - TWO_MINUTES { assert more[i] == visits[i]; }
    assert more[|visits|] == row;
  }

  /** Nobody is throttled by anyone else: the visits a customer has in the log are those
      of a log of the customer's own attempts. */
  lemma {:induction false} OthersNeverThrottle(attempts: seq<Attempt>, c: CustomerRef)
    ensures VisitsOf(Log(attempts), c) == Log(AttemptsOf(attempts, c))
    decreases |attempts|
  {
    if attempts != [] {
      var m := |attempts| - 1;
      var a, before, own := attempts[m], Log(attempts[..m]), AttemptsOf(attempts[..m], c);
      OthersNeverThrottle(attempts[..m], c);
      VisitsOfAppend(before, VisitRow(a.customer, a.start, a.counter), c);
      if a.customer == c {
        assert (own + [a])[..|own|] == own;
        OwnVisitsDecide(before, c, a.start);
      }
    }
  }
}
