/** The weekly limit of the wheel under concurrency: the check is a query of its own,
    and nothing locks the customer between it and the transaction that spins. */
module WheelSpins {
  import opened Prelude
  import opened BonusLots

  const WEEK := 604_800_000_000   // microseconds

  datatype Spin = Spin(owner: CustomerRef, at: Moment, prize: nat)

  /** A request that passed the check, and how many spins were committed by then. */
  datatype Check = Check(owner: CustomerRef, seen: nat)

  datatype State = State(now: Moment, spins: seq<Spin>, checks: map<int, Check>)

  datatype Step =
    | Tick(now: Moment)
    | Pass(request: int, c: CustomerRef)
    | Commit(request: int, prize: nat)
    | Drop(request: int)

  predicate SpunThisWeek(spins: seq<Spin>, c: CustomerRef, now: Moment) {
    exists i :: 0 <= i < |spins| && spins[i].owner == c && spins[i].at > now - WEEK
  }

  predicate Enabled(s: State, step: Step) {
    match step
    case Tick(now) => now >= s.now
    case Pass(request, c) => request !in s.checks && !SpunThisWeek(s.spins, c, s.now)
    case Commit(request, _) => request in s.checks
    case Drop(request) => request in s.checks
  }

  function Next(s: State, step: Step): State
    requires Enabled(s, step)
  {
    match step
    case Tick(now) => s.(now := now)
    case Pass(request, c) => s.(checks := s.checks[request := Check(c, |s.spins|)])
    case Commit(request, prize) => s.(spins := s.spins + [Spin(s.checks[request].owner, s.now, prize)], checks := s.checks - {request})
    case Drop(request) => s.(checks := s.checks - {request})
  }

  /** A customer's spins are a week apart. */
  predicate Weekly(spins: seq<Spin>) {
    forall i, j :: 0 <= i < j < |spins| && spins[i].owner == spins[j].owner ==> spins[i].at + WEEK <= spins[j].at
  }

  /** What a check that passed still guarantees about the spins it saw. */
  predicate CheckOk(s: State, request: int)
    requires request in s.checks
  {
    var check := s.checks[request];
    check.seen <= |s.spins|
    && forall i :: 0 <= i < check.seen && s.spins[i].owner == check.owner ==> s.spins[i].at + WEEK <= s.now
  }

  predicate ChecksOk(s: State) { forall request :: request in s.checks ==> CheckOk(s, request) }

  lemma StepKeepsChecks(s: State, step: Step)
    requires ChecksOk(s) && Enabled(s, step)
    ensures ChecksOk(Next(s, step))
  {
    var t := Next(s, step);
    forall request | request in t.checks ensures CheckOk(t, request) {
      if request in s.checks {
        assert CheckOk(s, request);
      } else {
        forall i | 0 <= i < |s.spins| && s.spins[i].owner == step.c ensures s.spins[i].at + WEEK <= s.now {}
      }
    }
  }

  /** A spin of the customer that the request's check did not see. */
  predicate Overtaken(s: State, request: int)
    requires request in s.checks
  {
    exists i :: s.checks[request].seen <= i < |s.spins| && s.spins[i].owner == s.checks[request].owner && s.spins[i].at + WEEK > s.now
  }

  /** A commit keeps the limit exactly when no spin of the customer was committed
      between its check and itself. */
  lemma CommitKeepsLimitIff(s: State, request: int, prize: nat)
    requires ChecksOk(s) && Weekly(s.spins) && Enabled(s, Commit(request, prize))
    ensures Weekly(Next(s, Commit(request, prize)).spins) <==> !Overtaken(s, request)
  {
    var check, t := s.checks[request], Next(s, Commit(request, prize));
    assert CheckOk(s, request);
    if !Overtaken(s, request) {
      forall i | 0 <= i < |s.spins| && s.spins[i].owner == check.owner ensures s.spins[i].at + WEEK <= s.now {
        if i >= check.seen { assert !(s.spins[i].at + WEEK > s.now); }
      }
    } else {
      var i :| check.seen <= i < |s.spins| && s.spins[i].owner == check.owner && s.spins[i].at + WEEK > s.now;
      assert t.spins[i] == s.spins[i] && t.spins[|s.spins|] == Spin(check.owner, s.now, prize);
    }
  }

  ghost predicate Steps(s: State, steps: seq<Step>, t: State)
    decreases |steps|
  {
    if steps == [] then s == t
    else Enabled(s, steps[0]) && Steps(Next(s, steps[0]), steps[1..], t)
  }

  /** No commit of the run is overtaken. */
  ghost predicate Orderly(s: State, steps: seq<Step>)
    decreases |steps|
  {
    steps == []
    || (&& Enabled(s, steps[0]) && (steps[0].Commit? ==> !Overtaken(s, steps[0].request))
        && Orderly(Next(s, steps[0]), steps[1..]))
  }

  /** Over any run in which no request overtakes another of the same customer, a
      customer's spins are a week apart. */
  lemma {:induction false} OrderlyRunsKeepTheLimit(s: State, steps: seq<Step>, t: State)
    requires ChecksOk(s) && Weekly(s.spins) && Steps(s, steps, t) && Orderly(s, steps)
    ensures ChecksOk(t) && Weekly(t.spins)
    ensures forall i, j :: 0 <= i < j < |t.spins| && t.spins[i].owner == t.spins[j].owner ==> t.spins[j].at - t.spins[i].at >= 604_800_000_000
    decreases |steps|
  {
    if steps != [] {
      StepKeepsChecks(s, steps[0]);
      if steps[0].Commit? { CommitKeepsLimitIff(s, steps[0].request, steps[0].prize); }
      OrderlyRunsKeepTheLimit(Next(s, steps[0]), steps[1..], t);
    }
  }

  /** The check of a request passes exactly when every spin of the customer that is
      committed by then is seven days old or older. */
  lemma PassesIff(s: State, request: int, c: CustomerRef)
    requires request !in s.checks
    ensures Enabled(s, Pass(request, c)) <==> forall i :: 0 <= i < |s.spins| && s.spins[i].owner == c ==> s.spins[i].at <= s.now - 604_800_000_000
  {}

  /** A passed check stands until its request commits its spin, now, or is dropped; time
      only goes on. */
  lemma StepsDo(s: State, request: int, prize: nat, now: Moment)
    ensures Enabled(s, Tick(now)) <==> now >= s.now
    ensures Enabled(s, Tick(now)) ==> Next(s, Tick(now)) == State(now, s.spins, s.checks)
    ensures request in s.checks <==> Enabled(s, Commit(request, prize))
    ensures request in s.checks <==> Enabled(s, Drop(request))
    ensures request in s.checks ==>
      && Next(s, Commit(request, prize)) == State(s.now, s.spins + [Spin(s.checks[request].owner, s.now, prize)], s.checks - {request})
      && Next(s, Drop(request)) == State(s.now, s.spins, s.checks - {request})
  {}

  /** Two requests of one customer that pass the check together both win. */
  lemma TwoRequestsBothSpin(c: CustomerRef, now: Moment, prize: nat)
    ensures var s := State(now, [], map[]);
      exists steps, t :: ChecksOk(s) && Steps(s, steps, t) && t.spins == [Spin(c, now, prize), Spin(c, now, prize)] && !Weekly(t.spins)
  {
    var s0 := State(now, [], map[]);
    var s1 := Next(s0, Pass(1, c));
    var s2 := Next(s1, Pass(2, c));
    var s3 := Next(s2, Commit(1, prize));
    var s4 := Next(s3, Commit(2, prize));
    assert Steps(s4, [], s4);
    assert [Commit(2, prize)][1..] == [] && Steps(s3, [Commit(2, prize)], s4);
    assert [Commit(1, prize), Commit(2, prize)][1..] == [Commit(2, prize)] && Steps(s2, [Commit(1, prize), Commit(2, prize)], s4);
    assert [Pass(2, c), Commit(1, prize), Commit(2, prize)][1..] == [Commit(1, prize), Commit(2, prize)] && Steps(s1, [Pass(2, c), Commit(1, prize), Commit(2, prize)], s4);
    assert [Pass(1, c), Pass(2, c), Commit(1, prize), Commit(2, prize)][1..] == [Pass(2, c), Commit(1, prize), Commit(2, prize)];
    assert Steps(s0, [Pass(1, c), Pass(2, c), Commit(1, prize), Commit(2, prize)], s4);
    assert s4.spins == [Spin(c, now, prize), Spin(c, now, prize)];
    assert s4.spins[0].owner == s4.spins[1].owner;
  }
}
