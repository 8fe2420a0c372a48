/** What a run of the delivery protocol gets done: rows that never move again, the
    attempt budget, and the order in which waiting deliveries are served. */
module WebhookProgress {
  import opened Backoff
  import opened Prelude
  import opened Webhooks
  import opened WebhookDelivery

  // ---------------------------------------------------------------- rows at rest

  predicate Settled(s: State, id: DeliveryId) {
    id in s.deliveries && (s.deliveries[id].status == Succeeded || s.deliveries[id].status == Dead)
  }

  /** A row left `processing` by a worker that stopped, or whose failure could not
      be written. */
  predicate Orphaned(s: State, id: DeliveryId) {
    id in s.deliveries && s.deliveries[id].status == Processing && forall w :: w in s.holds && s.holds[w].id == id ==> s.holds[w].phase.Booked?
  }

  lemma StepLeavesAtRest(s: State, step: Step, id: DeliveryId)
    requires Inv(s) && Enabled(s, step)
    ensures Settled(s, id) ==> Settled(Next(s, step), id) && Next(s, step).deliveries[id] == s.deliveries[id]
    ensures Orphaned(s, id) ==> Orphaned(Next(s, step), id) && Next(s, step).deliveries[id] == s.deliveries[id]
    ensures (Settled(s, id) || Orphaned(s, id)) && step.Claim? ==> step.id != id
  {
    if step.Fail? || step.Succeed? { assert HoldOk(s, step.worker); }
  }

  predicate WorksOn(s: State, w: int, id: DeliveryId) { Working(s, w) && s.holds[w].id == id }

  /** The step takes worker `w` off the delivery it works on without writing an outcome. */
  predicate Abandons(s: State, step: Step, w: int)
    requires w in s.holds
  {
    step == Stop(w) || (step == Fail(w) && Overflows(s.holds[w]))
  }

  lemma WorkedOnStays(s: State, step: Step, w: int, id: DeliveryId)
    requires Inv(s) && Enabled(s, step) && WorksOn(s, w, id)
    ensures Abandons(s, step, w) <==> Orphaned(Next(s, step), id)
  {
    var t := Next(s, step);
    assert HoldOk(s, w);
    StoppedLeavesNobody(s, w, id);
    if step == Fail(w) || step == Succeed(w) {
    } else if step == Stop(w) {
    } else {
      assert w in t.holds && t.holds[w].id == id && !t.holds[w].phase.Booked?;
    }
  }

  lemma IdleRowStays(s: State, step: Step, id: DeliveryId)
    requires Inv(s) && Enabled(s, step) && !Orphaned(s, id) && forall w :: !WorksOn(s, w, id)
    ensures !Orphaned(Next(s, step), id)
  {
    var t := Next(s, step);
    if step.Fail? || step.Succeed? { assert HoldOk(s, step.worker) && !WorksOn(s, step.worker, id); }
    if id in s.deliveries && s.deliveries[id].status == Processing {
      var w :| w in s.holds && s.holds[w].id == id && !s.holds[w].phase.Booked?;
      assert WorksOn(s, w, id);
    } else if step.Claim? && step.id == id {
      assert t.holds[step.worker].id == id && !t.holds[step.worker].phase.Booked?;
    }
  }

  /** A delivery is orphaned by exactly two things: the worker on it stops, or the
      failure it ran into cannot be written any more. */
  lemma OrphanedByIff(s: State, step: Step, id: DeliveryId)
    requires Inv(s) && Enabled(s, step) && !Orphaned(s, id)
    ensures Orphaned(Next(s, step), id) <==> exists w :: WorksOn(s, w, id) && Abandons(s, step, w)
  {
    if w :| WorksOn(s, w, id) {
      WorkedOnStays(s, step, w, id);
      forall v | WorksOn(s, v, id) ensures Abandons(s, step, v) == Abandons(s, step, w) { WorkedOnStays(s, step, v, id); }
    } else {
      IdleRowStays(s, step, id);
    }
  }

  lemma StoppedLeavesNobody(s: State, w: int, id: DeliveryId)
    requires Inv(s) && w in s.holds
    ensures WorksOn(s, w, id) ==> forall v :: v in s.holds && v != w && s.holds[v].id == id ==> s.holds[v].phase.Booked?
  {
    if WorksOn(s, w, id) {
      forall v | v in s.holds && v != w && s.holds[v].id == id ensures !Working(s, v) {}
    }
  }

  predicate ClaimedIn(steps: seq<Step>, id: DeliveryId) {
    exists i :: 0 <= i < |steps| && steps[i].Claim? && steps[i].id == id
  }

  /** Succeeded, dead and orphaned deliveries keep their row and are never claimed
      again, however the run goes on. */
  lemma {:induction false} AtRestForGood(s: State, steps: seq<Step>, t: State, id: DeliveryId)
    requires Inv(s) && Steps(s, steps, t)
    requires (id in s.deliveries && (s.deliveries[id].status == Succeeded || s.deliveries[id].status == Dead)) || Orphaned(s, id)
    ensures id in t.deliveries && t.deliveries[id] == s.deliveries[id]
    ensures !ClaimedIn(steps, id)
    decreases |steps|
  {
    if steps != [] {
      StepKeeps(s, steps[0]);
      StepLeavesAtRest(s, steps[0], id);
      AtRestForGood(Next(s, steps[0]), steps[1..], t, id);
      forall i | 0 <= i < |steps| && steps[i].Claim? ensures steps[i].id != id {
        if i > 0 { assert steps[i] == steps[1..][i - 1]; }
      }
    }
  }

  /** Nothing in the run accepts the delivery, and no worker on it stops. */
  ghost predicate OnlyFailures(s: State, steps: seq<Step>, id: DeliveryId)
    decreases |steps|
  {
    steps == []
    || (&& Enabled(s, steps[0])
        && (steps[0].Succeed? || steps[0].Stop? ==> !WorksOn(s, steps[0].worker, id))
        && OnlyFailures(Next(s, steps[0]), steps[1..], id))
  }

  ghost predicate Failing(s: State, id: DeliveryId) {
    id in s.deliveries ==>
      s.deliveries[id].status != Succeeded && (Orphaned(s, id) ==> s.deliveries[id].attempts == POWER_OVERFLOW - 1)
  }

  lemma StepKeepsFailing(s: State, step: Step, id: DeliveryId)
    requires Inv(s) && Enabled(s, step) && Failing(s, id)
    requires step.Succeed? || step.Stop? ==> !WorksOn(s, step.worker, id)
    ensures Failing(Next(s, step), id)
  {
    StepLeavesAtRest(s, step, id);
    if !Orphaned(s, id) { OrphanedByIff(s, step, id); }
    if step.Fail? || step.Succeed? { assert HoldOk(s, step.worker); }
  }

  lemma {:induction false} RunKeepsFailing(s: State, steps: seq<Step>, t: State, id: DeliveryId)
    requires Inv(s) && Steps(s, steps, t) && Failing(s, id) && OnlyFailures(s, steps, id)
    ensures Failing(t, id)
    decreases |steps|
  {
    if steps != [] {
      StepKeeps(s, steps[0]);
      StepKeepsFailing(s, steps[0], id);
      RunKeepsFailing(Next(s, steps[0]), steps[1..], t, id);
    }
  }

  /** A delivery whose every attempt fails comes to rest `dead` if and only if its
      attempts are below the overflow, thirty or fewer; with more it ends in
      `processing`, after thirty recorded failures. */
  lemma DeadIffBelowOverflow(s: State, steps: seq<Step>, t: State, id: DeliveryId)
    requires Initial(s) && Steps(s, steps, t) && OnlyFailures(s, steps, id)
    requires id in t.deliveries && (Settled(t, id) || Orphaned(t, id))
    ensures t.deliveries[id].status == Dead <==> t.deliveries[id].maxAttempts <= 30
    ensures t.deliveries[id].status != Dead ==> t.deliveries[id].status == Processing && t.deliveries[id].attempts == 30
  {
    InitialOk(s);
    RunKeeps(s, steps, t);
    RunKeepsFailing(s, steps, t, id);
    assert RowOk(t.deliveries[id], PostCount(t, id));
  }

  // ---------------------------------------------------------------- waiting for a retry

  lemma {:induction false} TimeGoesOn(s: State, steps: seq<Step>, t: State)
    requires Steps(s, steps, t)
    ensures s.now <= t.now
    decreases |steps|
  {
    if steps != [] {
      TimeGoesOn(Next(s, steps[0]), steps[1..], t);
    }
  }

  /** A waiting or failed delivery is claimed at its time or later. */
  lemma {:induction false} ClaimedWhenDue(s: State, steps: seq<Step>, t: State, id: DeliveryId)
    requires Inv(s) && Steps(s, steps, t) && id in s.deliveries
    requires s.deliveries[id].status == Waiting || s.deliveries[id].status == Failed
    ensures ClaimedIn(steps, id) ==> t.now >= s.deliveries[id].due
    decreases |steps|
  {
    if steps == [] {
    } else if steps[0].Claim? && steps[0].id == id {
      TimeGoesOn(s, steps, t);
    } else {
      StepKeeps(s, steps[0]);
      StepKeepsWaiting(s, steps[0], id);
      ClaimedWhenDue(Next(s, steps[0]), steps[1..], t, id);
      if i :| 0 <= i < |steps| && steps[i].Claim? && steps[i].id == id { assert steps[1..][i - 1] == steps[i]; }
    }
  }

  /** Backoff over whole runs: once the n-th attempt of a delivery has failed and this is
      written, nobody claims the delivery again, however the run goes on, until 2^n
      seconds later, or an hour from the twelfth attempt on. */
  lemma RetriesBackOff(s: State, worker: int, steps: seq<Step>, t: State, later: int)
    requires Inv(s) && Enabled(s, Fail(worker)) && s.holds[worker].attempts < 30
    requires Steps(Next(s, Fail(worker)), steps, t) && Enabled(t, Claim(later, s.holds[worker].id))
    ensures var n := s.holds[worker].attempts + 1; t.now - s.now >= if n >= 12 then 3600 else Pow2(n)
  {
    var id, mid, claim := s.holds[worker].id, Next(s, Fail(worker)), Claim(later, s.holds[worker].id);
    FailureWrites(s, worker);
    StepKeeps(s, Fail(worker));
    OneMore(mid, steps, t, claim);
    assert (steps + [claim])[|steps|] == claim;
    if mid.deliveries[id].status == Dead {
      assert Settled(mid, id);
      AtRestForGood(mid, steps + [claim], Next(t, claim), id);
    } else {
      ClaimedWhenDue(mid, steps + [claim], Next(t, claim), id);
    }
  }

  lemma StepKeepsAttempts(s: State, step: Step, id: DeliveryId)
    requires Inv(s) && Enabled(s, step) && id in s.deliveries
    ensures id in Next(s, step).deliveries && s.deliveries[id].attempts <= Next(s, step).deliveries[id].attempts
  {
    if step.Fail? || step.Succeed? { assert HoldOk(s, step.worker); }
  }

  lemma {:induction false} AttemptsNeverFall(s: State, steps: seq<Step>, t: State, id: DeliveryId)
    requires Inv(s) && Steps(s, steps, t) && id in s.deliveries
    ensures id in t.deliveries && s.deliveries[id].attempts <= t.deliveries[id].attempts
    decreases |steps|
  {
    if steps != [] {
      StepKeepsAttempts(s, steps[0], id);
      StepKeeps(s, steps[0]);
      AttemptsNeverFall(Next(s, steps[0]), steps[1..], t, id);
    }
  }

  /** A worker about to write a failure is on a later attempt than any written before. */
  lemma LaterAttempt(s: State, worker: int, steps: seq<Step>, t: State, later: int)
    requires Inv(s) && Enabled(s, Fail(worker)) && s.holds[worker].attempts < 30
    requires Steps(Next(s, Fail(worker)), steps, t)
    requires Enabled(t, Fail(later)) && t.holds[later].id == s.holds[worker].id
    ensures s.holds[worker].attempts < t.holds[later].attempts
  {
    var id, mid := s.holds[worker].id, Next(s, Fail(worker));
    StepKeeps(s, Fail(worker));
    FailureWrites(s, worker);
    AttemptsNeverFall(mid, steps, t, id);
    RunKeeps(mid, steps, t);
    assert HoldOk(t, later);
  }

  /** And the waits never shrink: of two failures of a delivery in a run, the later one is
      on a later attempt and sets a time at least as far ahead. */
  lemma WaitsNeverShrink(s: State, worker: int, steps: seq<Step>, t: State, later: int)
    requires Inv(s) && Enabled(s, Fail(worker)) && s.holds[worker].attempts < 30
    requires Steps(Next(s, Fail(worker)), steps, t)
    requires Enabled(t, Fail(later)) && t.holds[later].id == s.holds[worker].id && t.holds[later].attempts < 30
    ensures var id := s.holds[worker].id;
      var first, second := Next(s, Fail(worker)).deliveries[id], Next(t, Fail(later)).deliveries[id];
      first.attempts < second.attempts && first.due - s.now <= second.due - t.now
  {
    FailureWrites(s, worker);
    FailureWrites(t, later);
    LaterAttempt(s, worker, steps, t, later);
    Pow2Grows(s.holds[worker].attempts + 1, t.holds[later].attempts + 1);
    if t.holds[later].attempts + 1 >= 12 { RetryDelayShape(0, s.holds[worker].attempts + 1); }
  }

  // ---------------------------------------------------------------- the attempt budget

  function Left(deliveries: map<DeliveryId, Delivery>, id: DeliveryId): int {
    if id in deliveries then deliveries[id].maxAttempts - deliveries[id].attempts else 0
  }

  ghost function Budget(deliveries: map<DeliveryId, Delivery>): int {
    SumOver(deliveries.Keys, id => Left(deliveries, id))
  }

  lemma BudgetUpdate(deliveries: map<DeliveryId, Delivery>, id: DeliveryId, d: Delivery)
    ensures Budget(deliveries[id := d]) == Budget(deliveries) - Left(deliveries, id) + d.maxAttempts - d.attempts
  {
    var after := deliveries[id := d];
    var f, g := (k: DeliveryId) => Left(deliveries, k), (k: DeliveryId) => Left(after, k);
    assert after.Keys == deliveries.Keys + {id} && after.Keys - {id} == deliveries.Keys - {id};
    SumOverPick(after.Keys, id, g);
    SumOverSame(after.Keys - {id}, f, g);
    if id in deliveries {
      SumOverPick(deliveries.Keys, id, f);
    } else {
      assert deliveries.Keys - {id} == deliveries.Keys;
    }
  }

  /** Attempts a step puts on the books: one per outcome written. */
  predicate Completes(s: State, step: Step)
    requires step.Fail? ==> step.worker in s.holds
  {
    step.Succeed? || (step.Fail? && !Overflows(s.holds[step.worker]))
  }

  lemma StepBudget(s: State, step: Step)
    requires Inv(s) && Enabled(s, step)
    ensures Budget(Next(s, step).deliveries)
         == Budget(s.deliveries) + (if step.Insert? then step.maxAttempts else 0) - (if Completes(s, step) then 1 else 0)
  {
    match step
    case Insert(id, maxAttempts, due) => BudgetUpdate(s.deliveries, id, NewDelivery(maxAttempts, due));
    case Claim(_, id) => BudgetUpdate(s.deliveries, id, ClaimRow(s.deliveries[id]));
    case Succeed(w) =>
      BudgetUpdate(s.deliveries, s.holds[w].id, SucceedRow(s.deliveries[s.holds[w].id]));
    case Fail(w) =>
      assert HoldOk(s, w);
      var h := s.holds[w];
      BudgetUpdate(s.deliveries, h.id, FailRow(s.deliveries[h.id], h.attempts, h.maxAttempts, s.now));
    case _ =>
  }

  ghost function Completed(s: State, steps: seq<Step>): nat
    decreases |steps|
  {
    if steps == [] || !Enabled(s, steps[0]) then 0
    else (if Completes(s, steps[0]) then 1 else 0) + Completed(Next(s, steps[0]), steps[1..])
  }

  function Granted(steps: seq<Step>): int {
    if steps == [] then 0 else (if steps[0].Insert? then steps[0].maxAttempts else 0) + Granted(steps[1..])
  }

  /** Every completed attempt is paid for out of the attempts granted at insertion. */
  lemma {:induction false} BudgetConserved(s: State, steps: seq<Step>, t: State)
    requires Inv(s) && Steps(s, steps, t)
    ensures Completed(s, steps) + Budget(t.deliveries) == Budget(s.deliveries) + Granted(steps)
    decreases |steps|
  {
    if steps != [] {
      StepBudget(s, steps[0]);
      StepKeeps(s, steps[0]);
      BudgetConserved(Next(s, steps[0]), steps[1..], t);
    }
  }

  lemma {:induction false} BudgetNonNegative(keys: set<DeliveryId>, deliveries: map<DeliveryId, Delivery>)
    requires forall id :: id in deliveries ==> deliveries[id].attempts <= deliveries[id].maxAttempts
    ensures SumOver(keys, id => Left(deliveries, id)) >= 0
    decreases keys
  {
    if keys != {} {
      var k :| k in keys;
      SumOverPick(keys, k, id => Left(deliveries, id));
      BudgetNonNegative(keys - {k}, deliveries);
    }
  }

  /** So a run completes at most as many attempts as were left plus those granted
      on the way: deliveries cannot be retried for ever. */
  lemma AttemptsAreBounded(s: State, steps: seq<Step>, t: State)
    requires Inv(s) && Steps(s, steps, t)
    ensures Completed(s, steps) <= Budget(s.deliveries) + Granted(steps)
  {
    BudgetConserved(s, steps, t);
    RunKeeps(s, steps, t);
    forall id | id in t.deliveries ensures t.deliveries[id].attempts <= t.deliveries[id].maxAttempts {
      assert RowOk(t.deliveries[id], PostCount(t, id));
    }
    BudgetNonNegative(t.deliveries.Keys, t.deliveries);
  }

  // ---------------------------------------------------------------- no starvation

  /** The deliveries waiting since `d` or longer. */
  function DueSet(s: State, d: Moment): set<DeliveryId> {
    set id | id in s.deliveries && Claimable(s.deliveries, s.endpoints, id) && s.deliveries[id].due <= d
  }

  /** Every transaction that inserts deliveries in the run started after `d`. */
  predicate InsertsAfter(steps: seq<Step>, d: Moment) {
    forall i :: 0 <= i < |steps| && steps[i].Insert? ==> steps[i].due > d
  }

  lemma StepShrinksDue(s: State, step: Step, d: Moment)
    requires Inv(s) && Enabled(s, step) && d <= s.now
    requires step.Insert? ==> step.due > d
    ensures DueSet(Next(s, step), d) <= DueSet(s, d)
  {
    var t := Next(s, step);
    if step.Fail? {
      assert HoldOk(s, step.worker);
      var n := s.holds[step.worker].attempts + 1;
      RetryDelayShape(n, n);
    }
    forall id | id in DueSet(t, d) ensures id in DueSet(s, d) {
      if step.AddEndpoint? { assert id.endpoint in s.endpoints; }
    }
  }

  lemma ClaimShrinksDue(s: State, worker: int, id: DeliveryId, d: Moment)
    requires Inv(s) && Enabled(s, Claim(worker, id)) && d <= s.now
    requires DueSet(s, d) != {}
    ensures id in DueSet(s, d) && DueSet(Next(s, Claim(worker, id)), d) == DueSet(s, d) - {id}
  {
    var other :| other in DueSet(s, d);
    assert Claimable(s.deliveries, s.endpoints, other);
    var t := Next(s, Claim(worker, id));
    forall k ensures k in DueSet(t, d) <==> k in DueSet(s, d) - {id} {
      assert k != id ==> (Claimable(t.deliveries, t.endpoints, k) <==> Claimable(s.deliveries, s.endpoints, k));
    }
  }

  function Claims(steps: seq<Step>): nat {
    if steps == [] then 0 else (if steps[0].Claim? then 1 else 0) + Claims(steps[1..])
  }

  lemma SmallerSet<T>(a: set<T>, b: set<T>)
    requires a <= b
    ensures |a| <= |b|
    decreases a
  {
    if a != {} {
      var x :| x in a;
      SmallerSet(a - {x}, b - {x});
    }
  }

  /** As long as something has been waiting since `d`, every claim made takes one of
      the deliveries that were waiting since `d`, and no new ones join them. */
  lemma {:induction false} ClaimsServeTheOldest(s: State, steps: seq<Step>, t: State, d: Moment)
    requires Inv(s) && Steps(s, steps, t) && d <= s.now && InsertsAfter(steps, d)
    ensures DueSet(t, d) <= DueSet(s, d)
    ensures DueSet(t, d) != {} ==> Claims(steps) + |DueSet(t, d)| <= |DueSet(s, d)|
    decreases |steps|
  {
    if steps != [] {
      var mid := Next(s, steps[0]);
      StepKeeps(s, steps[0]);
      StepShrinksDue(s, steps[0], d);
      SmallerSet(DueSet(mid, d), DueSet(s, d));
      if steps[0].Claim? && DueSet(s, d) != {} {
        ClaimShrinksDue(s, steps[0].worker, steps[0].id, d);
      }
      assert forall i :: 0 <= i < |steps[1..]| ==> steps[1..][i] == steps[i + 1];
      ClaimsServeTheOldest(mid, steps[1..], t, d);
    }
  }

  lemma StepKeepsWaiting(s: State, step: Step, id: DeliveryId)
    requires Inv(s) && Enabled(s, step) && id in s.deliveries
    requires s.deliveries[id].status == Waiting || s.deliveries[id].status == Failed
    requires step.Claim? ==> step.id != id
    ensures id in Next(s, step).deliveries && Next(s, step).deliveries[id] == s.deliveries[id]
  {
    if step.Fail? || step.Succeed? { assert HoldOk(s, step.worker); }
  }

  lemma {:induction false} UnclaimedStays(s: State, steps: seq<Step>, t: State, id: DeliveryId)
    requires Inv(s) && Steps(s, steps, t) && id in s.deliveries
    requires s.deliveries[id].status == Waiting || s.deliveries[id].status == Failed
    requires !ClaimedIn(steps, id)
    ensures id in t.deliveries && t.deliveries[id] == s.deliveries[id]
    decreases |steps|
  {
    if steps != [] {
      StepKeeps(s, steps[0]);
      StepKeepsWaiting(s, steps[0], id);
      forall i | 0 <= i < |steps[1..]| && steps[1..][i].Claim? ensures steps[1..][i].id != id {
        assert steps[1..][i] == steps[i + 1];
      }
      UnclaimedStays(Next(s, steps[0]), steps[1..], t, id);
    }
  }

  /** A delivery waiting since `d` is claimed within as many claims as there were
      deliveries waiting since `d`, unless its endpoint stops being active. */
  lemma NoStarvation(s: State, steps: seq<Step>, t: State, id: DeliveryId, d: Moment)
    requires Inv(s) && Steps(s, steps, t) && d <= s.now && InsertsAfter(steps, d)
    requires id in DueSet(s, d) && Claims(steps) >= |DueSet(s, d)|
    ensures ClaimedIn(steps, id) || (id.endpoint in t.endpoints && t.endpoints[id.endpoint].status != EndpointActive)
  {
    if !ClaimedIn(steps, id) {
      UnclaimedStays(s, steps, t, id);
      ClaimsServeTheOldest(s, steps, t, d);
      RunKeeps(s, steps, t);
      assert id.endpoint in t.endpoints && DueSet(t, d) == {};
      assert id !in DueSet(t, d);
    }
  }

  lemma {:induction false} Oldest(deliveries: map<DeliveryId, Delivery>, ids: set<DeliveryId>) returns (first: DeliveryId)
    requires ids != {} && ids <= deliveries.Keys
    ensures first in ids && forall id :: id in ids ==> deliveries[first].due <= deliveries[id].due
    decreases ids
  {
    first :| first in ids;
    var others := ids - {first};
    if others != {} {
      var best := Oldest(deliveries, others);
      if deliveries[best].due < deliveries[first].due { first := best; }
    }
  }

  /** And a free worker can always claim when something is due. */
  lemma SomethingToClaim(s: State, worker: int)
    requires worker !in s.holds && DueSet(s, s.now) != {}
    ensures exists id :: Enabled(s, Claim(worker, id))
  {
    var due := DueSet(s, s.now);
    var first := Oldest(s.deliveries, due);
    forall other | Claimable(s.deliveries, s.endpoints, other) ensures s.deliveries[first].due <= s.deliveries[other].due {
      if other in due {} else { assert s.deliveries[other].due > s.now; }
    }
    assert Enabled(s, Claim(worker, first));
  }
}
