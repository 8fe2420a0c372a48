/** The circuit breaker of outbound endpoints. */
module WebhookBreaker {
  import opened Prelude
  import opened Webhooks
  import opened WebhookDelivery

  /** Length of the run of failures the outcomes end in. */
  function Trailing(outcomes: seq<bool>): nat {
    if outcomes == [] || outcomes[|outcomes| - 1] then 0 else 1 + Trailing(outcomes[..|outcomes| - 1])
  }

  /** Length of the longest run of failures anywhere in the outcomes. */
  function LongestRun(outcomes: seq<bool>): nat {
    if outcomes == [] then 0 else Max(Trailing(outcomes), LongestRun(outcomes[..|outcomes| - 1]))
  }

  lemma RunsAppend(outcomes: seq<bool>, ok: bool)
    ensures Trailing(outcomes + [ok]) == if ok then 0 else Trailing(outcomes) + 1
    ensures LongestRun(outcomes + [ok]) == Max(Trailing(outcomes + [ok]), LongestRun(outcomes))
  {
    assert (outcomes + [ok])[..|outcomes|] == outcomes;
  }

  /** A run of failures of length n somewhere is what LongestRun measures. */
  lemma {:induction false} LongestRunIs(outcomes: seq<bool>, i: nat, j: nat)
    requires i <= j <= |outcomes| && forall k :: i <= k < j ==> !outcomes[k]
    ensures j - i <= LongestRun(outcomes)
    ensures j == |outcomes| ==> j - i <= Trailing(outcomes)
    decreases |outcomes|
  {
    if i < j {
      var front := outcomes[..|outcomes| - 1];
      if j == |outcomes| {
        LongestRunIs(front, i, j - 1);
      } else {
        LongestRunIs(front, i, j);
      }
    }
  }

  /** `n` failures in a row from the i-th outcome on. */
  predicate FailuresFrom(outcomes: seq<bool>, i: nat, n: nat) {
    i + n <= |outcomes| && forall k :: i <= k < i + n ==> !outcomes[k]
  }

  /** And there is one of that length. */
  lemma {:induction false} LongestRunReached(outcomes: seq<bool>)
    ensures exists i: nat :: FailuresFrom(outcomes, i, LongestRun(outcomes))
    decreases |outcomes|
  {
    if outcomes == [] {
      assert FailuresFrom(outcomes, 0, LongestRun(outcomes));
    } else {
      var front, n := outcomes[..|outcomes| - 1], LongestRun(outcomes);
      LongestRunReached(front);
      TrailingIs(outcomes);
      if n == Trailing(outcomes) {
        assert FailuresFrom(outcomes, |outcomes| - n, n);
      } else {
        var i: nat :| FailuresFrom(front, i, n);
        assert FailuresFrom(outcomes, i, n);
      }
    }
  }

  lemma {:induction false} TrailingIs(outcomes: seq<bool>)
    ensures Trailing(outcomes) <= |outcomes| && forall k :: |outcomes| - Trailing(outcomes) <= k < |outcomes| ==> !outcomes[k]
    ensures Trailing(outcomes) < |outcomes| ==> outcomes[|outcomes| - Trailing(outcomes) - 1]
    decreases |outcomes|
  {
    if outcomes != [] && !outcomes[|outcomes| - 1] {
      TrailingIs(outcomes[..|outcomes| - 1]);
    }
  }

  ghost predicate BreakerOk(s: State, p: int)
    requires p in s.endpoints
  {
    && s.endpoints[p].failures == Trailing(OutcomesOf(s, p))
    && (s.endpoints[p].status == EndpointActive || s.endpoints[p].status == EndpointError)
    && (s.endpoints[p].status == EndpointError <==> LongestRun(OutcomesOf(s, p)) >= BREAKER_LIMIT)
  }

  ghost predicate BreakersOk(s: State) { forall p :: p in s.endpoints ==> BreakerOk(s, p) }

  /** The endpoint's columns after one more outcome is counted. */
  lemma CountKeeps(p: Endpoint, outcomes: seq<bool>, ok: bool)
    requires p.failures == Trailing(outcomes)
    requires p.status == EndpointActive || p.status == EndpointError
    requires p.status == EndpointError <==> LongestRun(outcomes) >= BREAKER_LIMIT
    ensures var after := if ok then ResetEndpoint(p) else CountFailure(p);
      && after.failures == Trailing(outcomes + [ok])
      && (after.status == EndpointActive || after.status == EndpointError)
      && (after.status == EndpointError <==> LongestRun(outcomes + [ok]) >= BREAKER_LIMIT)
  {
    RunsAppend(outcomes, ok);
  }

  lemma CountStepKeeps(s: State, worker: int, p: int)
    requires BreakersOk(s) && Enabled(s, Count(worker)) && p in s.endpoints
    ensures BreakerOk(Next(s, Count(worker)), p)
  {
    assert BreakerOk(s, p);
    if s.holds[worker].id.endpoint == p {
      CountKeeps(s.endpoints[p], OutcomesOf(s, p), s.holds[worker].phase.ok);
    }
  }

  /** Every other step leaves an endpoint it does not create and its outcomes alone. */
  lemma OtherStepsLeaveEndpoint(s: State, step: Step, p: int)
    requires Enabled(s, step) && !step.Count? && p in s.endpoints
    ensures p in Next(s, step).endpoints && Next(s, step).endpoints[p] == s.endpoints[p]
    ensures OutcomesOf(Next(s, step), p) == OutcomesOf(s, p)
  {}

  lemma AddedBreakerOk(s: State, endpoint: int, company: int, kinds: set<int>)
    requires Enabled(s, AddEndpoint(endpoint, company, kinds))
    ensures BreakerOk(Next(s, AddEndpoint(endpoint, company, kinds)), endpoint)
  {}

  lemma StepKeepsBreaker(s: State, step: Step, p: int)
    requires BreakersOk(s) && Enabled(s, step) && p in Next(s, step).endpoints
    ensures BreakerOk(Next(s, step), p)
  {
    if step.Count? {
      CountStepKeeps(s, step.worker, p);
    } else if p in s.endpoints {
      assert BreakerOk(s, p);
      OtherStepsLeaveEndpoint(s, step, p);
    } else {
      AddedBreakerOk(s, step.endpoint, step.company, step.kinds);
    }
  }

  /** Over any run, the failure count is the length of the trailing run of failed
      outcomes, and the endpoint is in `error` exactly when some run of failures
      reached the limit: an active endpoint is always below it. */
  lemma {:induction false} BreakerCountsTrailingFailures(s: State, steps: seq<Step>, t: State)
    requires BreakersOk(s) && Steps(s, steps, t)
    ensures BreakersOk(t)
    ensures forall p :: p in t.endpoints && t.endpoints[p].status == EndpointActive ==> t.endpoints[p].failures < BREAKER_LIMIT
    decreases |steps|
  {
    if steps != [] {
      forall p | p in Next(s, steps[0]).endpoints ensures BreakerOk(Next(s, steps[0]), p) {
        StepKeepsBreaker(s, steps[0], p);
      }
      BreakerCountsTrailingFailures(Next(s, steps[0]), steps[1..], t);
    } else {
      forall p | p in t.endpoints && t.endpoints[p].status == EndpointActive ensures t.endpoints[p].failures < BREAKER_LIMIT {
        assert BreakerOk(t, p);
      }
    }
  }

  /** An open breaker stays open, and nothing is claimed for its endpoint again:
      a request already in flight may reset the count, but not the status. */
  lemma {:induction false} BrokenForGood(s: State, steps: seq<Step>, t: State, p: int)
    requires Steps(s, steps, t) && p in s.endpoints && s.endpoints[p].status == EndpointError
    ensures p in t.endpoints && t.endpoints[p].status == EndpointError
    ensures forall i :: 0 <= i < |steps| && steps[i].Claim? ==> steps[i].id.endpoint != p
    decreases |steps|
  {
    if steps != [] {
      BrokenForGood(Next(s, steps[0]), steps[1..], t, p);
      forall i | 0 <= i < |steps| && steps[i].Claim? ensures steps[i].id.endpoint != p {
        if i > 0 { assert steps[i] == steps[1..][i - 1]; }
      }
    }
  }

  /** From an empty table: the count, the limit and the status of every endpoint. */
  lemma BreakerFromStart(s: State, steps: seq<Step>, t: State, p: int)
    requires Initial(s) && Steps(s, steps, t) && p in t.endpoints
    ensures t.endpoints[p].failures == Trailing(OutcomesOf(t, p))
    ensures t.endpoints[p].status == EndpointActive ==> t.endpoints[p].failures < 20
    ensures t.endpoints[p].status == EndpointError <==> LongestRun(OutcomesOf(t, p)) >= 20
  {
    BreakerCountsTrailingFailures(s, steps, t);
    assert BreakerOk(t, p);
  }
}
