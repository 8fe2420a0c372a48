/** Campaign automation runs: one row per trigger key, claimed by upsert, sent, and
    completed by id. Any number of workers interleave; a worker may stop for good. */
module AutomationRuns {
  import opened Prelude

  type Moment = int     // seconds

  /** company_id and trigger_key, the unique key of a run. */
  datatype Key = Key(company: int, trigger: int)
  datatype Status = Pending | Sent | FailedRun | Skipped
  datatype AutomationRun = AutomationRun(status: Status, attempts: nat, updatedAt: Moment, nextAttempt: Option<Moment>)

  const LEASE := 300
  const MAX_TRIES := 3
  /** CHECK (attempt_count BETWEEN 0 AND 10). */
  const ATTEMPT_CEILING := 10

  predicate Stale(r: AutomationRun, now: Moment) { r.status == Pending && r.updatedAt < now - LEASE }

  predicate RetryDue(r: AutomationRun, now: Moment) {
    r.status == FailedRun && r.attempts < MAX_TRIES && r.nextAttempt.Some? && r.nextAttempt.value <= now
  }

  /** What the upsert answers: a row, no row, or an error from the CHECK. */
  datatype Answer = Taken(attempt: nat) | NotMine | Refused

  function ClaimAnswer(runs: map<Key, AutomationRun>, key: Key, now: Moment): Answer {
    if key !in runs then Taken(1)
    else if !Stale(runs[key], now) && !RetryDue(runs[key], now) then NotMine
    else if runs[key].attempts + 1 > ATTEMPT_CEILING then Refused
    else Taken(runs[key].attempts + 1)
  }

  function Claimed(runs: map<Key, AutomationRun>, key: Key, attempt: nat, now: Moment): map<Key, AutomationRun> {
    runs[key := AutomationRun(Pending, attempt, now, None)]
  }

  /** The completing UPDATE names the row only, not the attempt it belongs to. */
  function Completed(r: AutomationRun, status: Status, attempt: nat, retryAt: Moment, now: Moment): AutomationRun {
    r.(status := status, updatedAt := now, nextAttempt := if status == FailedRun && attempt < MAX_TRIES then Some(retryAt) else None)
  }

  datatype Hold = Hold(key: Key, attempt: nat, since: Moment)

  datatype State = State(
    now: Moment,
    runs: map<Key, AutomationRun>,
    holds: map<int, Hold>,
    claims: map<Key, nat>,       // history: attempts begun
    sent: map<Key, nat>)         // history: attempts that ended `sent`

  datatype Step =
    | Tick(now: Moment)
    | Claim(worker: int, key: Key)
    | Complete(worker: int, status: Status, retryAt: Moment)
    | Stop(worker: int)

  function CountOf(counts: map<Key, nat>, key: Key): nat { if key in counts then counts[key] else 0 }

  predicate Enabled(s: State, step: Step) {
    match step
    case Tick(now) => now >= s.now
    case Claim(worker, key) => worker !in s.holds && ClaimAnswer(s.runs, key, s.now).Taken?
    case Complete(worker, status, _) => worker in s.holds && status != Pending && s.holds[worker].key in s.runs
    case Stop(worker) => worker in s.holds
  }

  function Next(s: State, step: Step): State
    requires Enabled(s, step)
  {
    match step
    case Tick(now) => s.(now := now)
    case Claim(worker, key) =>
      var attempt := ClaimAnswer(s.runs, key, s.now).attempt;
      s.(runs := Claimed(s.runs, key, attempt, s.now), holds := s.holds[worker := Hold(key, attempt, s.now)],
         claims := s.claims[key := CountOf(s.claims, key) + 1])
    case Complete(worker, status, retryAt) =>
      var h := s.holds[worker];
      s.(runs := s.runs[h.key := Completed(s.runs[h.key], status, h.attempt, retryAt, s.now)], holds := s.holds - {worker},
         sent := if status == Sent then s.sent[h.key := CountOf(s.sent, h.key) + 1] else s.sent)
    case Stop(worker) => s.(holds := s.holds - {worker})
  }

  ghost predicate Steps(s: State, steps: seq<Step>, t: State)
    decreases |steps|
  {
    if steps == [] then s == t
    else Enabled(s, steps[0]) && Steps(Next(s, steps[0]), steps[1..], t)
  }

  predicate Initial(s: State) { s.runs == map[] && s.holds == map[] && s.claims == map[] && s.sent == map[] }

  // ---------------------------------------------------------------- claims and retries

  /** A free worker can claim a key exactly when it has no run yet, when its run has been
      pending for more than five minutes and has attempts left of ten, or when its run
      failed, has tries left of three, and its time to retry has come. */
  lemma ClaimableIff(s: State, worker: int, k: Key)
    ensures Enabled(s, Claim(worker, k)) <==>
      && worker !in s.holds
      && (|| k !in s.runs
          || (s.runs[k].status == Pending && s.runs[k].updatedAt < s.now - 300 && s.runs[k].attempts < 10)
          || (s.runs[k].status == FailedRun && s.runs[k].attempts < 3 && s.runs[k].nextAttempt.Some? && s.runs[k].nextAttempt.value <= s.now))
    ensures Enabled(s, Claim(worker, k)) ==>
      var n := if k in s.runs then s.runs[k].attempts + 1 else 1;
      Next(s, Claim(worker, k)).runs == s.runs[k := AutomationRun(Pending, n, s.now, None)]
      && Next(s, Claim(worker, k)).holds == s.holds[worker := Hold(k, n, s.now)]
  {}

  /** The claim of a run that is not there to be taken fails, instead of finding nothing,
      exactly on a run pending for more than five minutes with all ten attempts used. */
  lemma RefusedIff(runs: map<Key, AutomationRun>, k: Key, now: Moment)
    ensures ClaimAnswer(runs, k, now).Refused?
      <==> k in runs && runs[k].status == Pending && runs[k].updatedAt < now - 300 && runs[k].attempts >= 10
  {}

  /** Completing writes the outcome and, for a failure of one of the first two attempts
      only, the time to retry. */
  lemma CompleteEffect(s: State, worker: int, status: Status, retryAt: Moment)
    requires Enabled(s, Complete(worker, status, retryAt))
    ensures var t, h := Next(s, Complete(worker, status, retryAt)), s.holds[worker];
      t.runs == s.runs[h.key := AutomationRun(status, s.runs[h.key].attempts, s.now, if status == FailedRun && h.attempt < 3 then Some(retryAt) else None)]
  {}

  /** No failure is forgotten: a run that failed with tries left can be claimed by any
      free worker, as the next attempt, from its time to retry on. */
  lemma RetryComes(s: State, worker: int, k: Key, now: Moment)
    requires k in s.runs && s.runs[k].status == FailedRun && s.runs[k].attempts < 3 && s.runs[k].nextAttempt.Some?
    requires worker !in s.holds && now >= s.now
    ensures Enabled(s, Tick(now))
    ensures Enabled(Next(s, Tick(now)), Claim(worker, k)) <==> now >= s.runs[k].nextAttempt.value
    ensures now >= s.runs[k].nextAttempt.value ==> Next(Next(s, Tick(now)), Claim(worker, k)).runs[k].attempts == s.runs[k].attempts + 1
  {}

  // ---------------------------------------------------------------- whatever happens

  /** The attempt counter counts the claims, and the column's CHECK caps it. */
  ghost predicate Counted(s: State) {
    && (forall k :: k in s.runs ==> 1 <= s.runs[k].attempts == CountOf(s.claims, k) <= ATTEMPT_CEILING)
    && (forall k :: k !in s.runs ==> CountOf(s.claims, k) == 0)
  }

  lemma {:induction false} ClaimsAreCapped(s: State, steps: seq<Step>, t: State)
    requires Counted(s) && Steps(s, steps, t)
    ensures Counted(t)
    ensures forall k :: CountOf(t.claims, k) <= 10
    decreases |steps|
  {
    if steps != [] {
      assert Counted(Next(s, steps[0]));
      ClaimsAreCapped(Next(s, steps[0]), steps[1..], t);
    } else {
      forall k ensures CountOf(t.claims, k) <= 10 { if k in t.runs {} }
    }
  }

  // ---------------------------------------------------------------- the lease

  /** No worker stops for good, and none is still at work when its lease has run out. */
  predicate Timely(s: State, step: Step) {
    !step.Stop? && (step.Tick? ==> forall w :: w in s.holds ==> step.now <= s.holds[w].since + LEASE)
  }

  ghost predicate TimelySteps(s: State, steps: seq<Step>, t: State)
    decreases |steps|
  {
    if steps == [] then s == t
    else Enabled(s, steps[0]) && Timely(s, steps[0]) && TimelySteps(Next(s, steps[0]), steps[1..], t)
  }

  predicate Holder(s: State, w: int, k: Key) { w in s.holds && s.holds[w].key == k }

  /** A held run is pending, as its holder left it, and its lease is running. */
  predicate HoldOk(s: State, w: int)
    requires w in s.holds
  {
    var h := s.holds[w];
    && h.key in s.runs && s.runs[h.key].status == Pending && s.runs[h.key].attempts == h.attempt
    && s.runs[h.key].updatedAt == h.since && s.now <= h.since + LEASE
  }

  predicate RunOk(r: AutomationRun, sent: nat) {
    && 1 <= r.attempts <= MAX_TRIES
    && sent == (if r.status == Sent then 1 else 0)
  }

  ghost predicate Leased(s: State) {
    && (forall w :: w in s.holds ==> HoldOk(s, w))
    && (forall v, w, k :: Holder(s, v, k) && Holder(s, w, k) ==> v == w)
    && (forall k :: k in s.runs && s.runs[k].status == Pending ==> exists w :: Holder(s, w, k))
    && (forall k :: k in s.runs ==> RunOk(s.runs[k], CountOf(s.sent, k)))
    && (forall k :: k !in s.runs ==> CountOf(s.sent, k) == 0)
  }

  lemma HeldBlocksClaim(s: State, w: int, k: Key)
    requires Leased(s)
    ensures Holder(s, w, k) ==> ClaimAnswer(s.runs, k, s.now) == NotMine
  {
    if w in s.holds { assert HoldOk(s, w); }
  }

  lemma ClaimIsFreeKey(s: State, worker: int, k: Key)
    requires Leased(s) && Enabled(s, Claim(worker, k))
    ensures forall w :: !Holder(s, w, k)
    ensures k !in s.runs || RetryDue(s.runs[k], s.now)
  {
    forall w ensures Holder(s, w, k) ==> ClaimAnswer(s.runs, k, s.now) == NotMine {
      HeldBlocksClaim(s, w, k);
    }
    assert forall w :: !Holder(s, w, k);
  }

  lemma ClaimKeepsLeases(s: State, worker: int, k: Key)
    requires Leased(s) && Enabled(s, Claim(worker, k))
    ensures Leased(Next(s, Claim(worker, k)))
  {
    var t := Next(s, Claim(worker, k));
    ClaimIsFreeKey(s, worker, k);
    forall w | w in t.holds ensures HoldOk(t, w) {
      if w != worker { assert HoldOk(s, w); assert Holder(s, w, s.holds[w].key); }
    }
    forall v, w, j | Holder(t, v, j) && Holder(t, w, j) ensures v == w {
      if v != worker { assert Holder(s, v, j); }
      if w != worker { assert Holder(s, w, j); }
    }
    forall j | j in t.runs && t.runs[j].status == Pending ensures exists w :: Holder(t, w, j) {
      if j == k {
        assert Holder(t, worker, j);
      } else {
        var w :| Holder(s, w, j);
        assert Holder(t, w, j);
      }
    }
    forall j | j in t.runs ensures RunOk(t.runs[j], CountOf(t.sent, j)) {
      if j in s.runs { assert RunOk(s.runs[j], CountOf(s.sent, j)); }
    }
  }

  lemma CompleteKeepsLeases(s: State, worker: int, status: Status, retryAt: Moment)
    requires Leased(s) && Enabled(s, Complete(worker, status, retryAt))
    ensures Leased(Next(s, Complete(worker, status, retryAt)))
  {
    var t, k := Next(s, Complete(worker, status, retryAt)), s.holds[worker].key;
    assert HoldOk(s, worker) && Holder(s, worker, k);
    forall w | w in t.holds ensures HoldOk(t, w) {
      assert HoldOk(s, w) && Holder(s, w, s.holds[w].key);
    }
    forall v, w, j | Holder(t, v, j) && Holder(t, w, j) ensures v == w {
      assert Holder(s, v, j) && Holder(s, w, j);
    }
    forall j | j in t.runs && t.runs[j].status == Pending ensures exists w :: Holder(t, w, j) {
      var w :| Holder(s, w, j);
      assert Holder(t, w, j);
    }
    forall j | j in t.runs ensures RunOk(t.runs[j], CountOf(t.sent, j)) {
      assert RunOk(s.runs[j], CountOf(s.sent, j));
    }
  }

  lemma TickKeepsLeases(s: State, now: Moment)
    requires Leased(s) && Enabled(s, Tick(now)) && Timely(s, Tick(now))
    ensures Leased(Next(s, Tick(now)))
  {
    var t := Next(s, Tick(now));
    forall w | w in t.holds ensures HoldOk(t, w) { assert HoldOk(s, w); }
    forall v, w, j | Holder(t, v, j) && Holder(t, w, j) ensures v == w { assert Holder(s, v, j) && Holder(s, w, j); }
    forall j | j in t.runs && t.runs[j].status == Pending ensures exists w :: Holder(t, w, j) {
      var w :| Holder(s, w, j);
      assert Holder(t, w, j);
    }
  }

  lemma StepKeepsLeases(s: State, step: Step)
    requires Leased(s) && Enabled(s, step) && Timely(s, step)
    ensures Leased(Next(s, step))
  {
    match step
    case Tick(now) => TickKeepsLeases(s, now);
    case Claim(worker, key) => ClaimKeepsLeases(s, worker, key);
    case Complete(worker, status, retryAt) => CompleteKeepsLeases(s, worker, status, retryAt);
  }

  /** Sent, skipped, or failed for the third time. */
  predicate Finished(s: State, k: Key) {
    k in s.runs && (s.runs[k].status == Sent || s.runs[k].status == Skipped || (s.runs[k].status == FailedRun && s.runs[k].attempts >= MAX_TRIES))
  }

  lemma StepLeavesFinished(s: State, step: Step, k: Key)
    requires Leased(s) && Enabled(s, step) && Timely(s, step) && Finished(s, k)
    ensures Finished(Next(s, step), k) && Next(s, step).runs[k] == s.runs[k]
  {
    if step.Complete? { assert HoldOk(s, step.worker); }
  }

  /** The lease at work: with every attempt completed within five minutes and no
      worker lost, a key has one holder at a time, three attempts at most, one of
      them at most `sent`, however the workers interleave. */
  lemma {:induction false} LeaseHolds(s: State, steps: seq<Step>, t: State)
    requires Leased(s) && TimelySteps(s, steps, t)
    ensures Leased(t)
    ensures forall k :: CountOf(t.sent, k) <= 1
    ensures forall k :: k in t.runs ==> t.runs[k].attempts <= MAX_TRIES
    decreases |steps|
  {
    if steps != [] {
      StepKeepsLeases(s, steps[0]);
      LeaseHolds(Next(s, steps[0]), steps[1..], t);
    } else {
      forall k ensures CountOf(t.sent, k) <= 1 { if k in t.runs { assert RunOk(t.runs[k], CountOf(t.sent, k)); } }
      forall k | k in t.runs ensures t.runs[k].attempts <= MAX_TRIES { assert RunOk(t.runs[k], CountOf(t.sent, k)); }
    }
  }

  /** And a finished run never changes again. */
  lemma {:induction false} FinishedForGood(s: State, steps: seq<Step>, t: State, k: Key)
    requires Leased(s) && TimelySteps(s, steps, t) && k in s.runs
    requires s.runs[k].status == Sent || s.runs[k].status == Skipped || (s.runs[k].status == FailedRun && s.runs[k].attempts >= 3)
    ensures k in t.runs && t.runs[k] == s.runs[k]
    ensures forall i :: 0 <= i < |steps| && steps[i].Claim? ==> steps[i].key != k
    decreases |steps|
  {
    if steps != [] {
      StepKeepsLeases(s, steps[0]);
      StepLeavesFinished(s, steps[0], k);
      FinishedForGood(Next(s, steps[0]), steps[1..], t, k);
      forall i | 0 <= i < |steps| && steps[i].Claim? ensures steps[i].key != k {
        if i > 0 { assert steps[i] == steps[1..][i - 1]; }
      }
    }
  }

  lemma InitialOk(s: State)
    requires Initial(s)
    ensures Leased(s) && Counted(s)
  {}

  /** From an empty table: what the lease promises of every run. */
  lemma LeaseHoldsFromStart(s: State, steps: seq<Step>, t: State, k: Key)
    requires Initial(s) && TimelySteps(s, steps, t)
    ensures forall v, w :: Holder(t, v, k) && Holder(t, w, k) ==> v == w
    ensures k in t.runs ==> 1 <= t.runs[k].attempts <= 3 && CountOf(t.sent, k) == (if t.runs[k].status == Sent then 1 else 0)
    ensures k !in t.runs ==> CountOf(t.sent, k) == 0
  {
    InitialOk(s);
    LeaseHolds(s, steps, t);
    if k in t.runs { assert RunOk(t.runs[k], CountOf(t.sent, k)); }
  }

  // ---------------------------------------------------------------- workers that stop

  /** A claim goes past the third attempt exactly on a stale run: the limit of three
      guards retries of failures only. */
  lemma BeyondThreeIff(runs: map<Key, AutomationRun>, k: Key, now: Moment)
    ensures (ClaimAnswer(runs, k, now).Taken? && ClaimAnswer(runs, k, now).attempt > MAX_TRIES)
      <==> (k in runs && Stale(runs[k], now) && MAX_TRIES <= runs[k].attempts < ATTEMPT_CEILING)
  {}

  const FRESH := State(0, map[], map[], map[], map[])

  /** `n` rounds of a worker that claims the run and stops for good before the lease ends. */
  function Interruptions(k: Key, n: nat): seq<Step> {
    if n == 0 then [] else Interruptions(k, n - 1) + [Claim(n, k)] + [Stop(n)] + [Tick(n * (LEASE + 1))]
  }

  function Interrupted(k: Key, n: nat): State {
    if n == 0 then FRESH
    else State(n * (LEASE + 1), map[k := AutomationRun(Pending, n, (n - 1) * (LEASE + 1), None)], map[], map[k := n], map[])
  }

  lemma {:induction false} OneMore(s: State, steps: seq<Step>, t: State, step: Step)
    requires Steps(s, steps, t) && Enabled(t, step)
    ensures Steps(s, steps + [step], Next(t, step))
    decreases |steps|
  {
    if steps == [] {
      assert Steps(Next(t, step), [], Next(t, step));
      assert [step][1..] == [];
    } else {
      OneMore(Next(s, steps[0]), steps[1..], t, step);
      assert (steps + [step])[1..] == steps[1..] + [step];
    }
  }

  lemma OneInterruption(k: Key, n: nat)
    requires 1 <= n <= ATTEMPT_CEILING
    ensures var s := Interrupted(k, n - 1);
      && Enabled(s, Claim(n, k)) && Enabled(Next(s, Claim(n, k)), Stop(n))
      && Enabled(Next(Next(s, Claim(n, k)), Stop(n)), Tick(n * (LEASE + 1)))
      && Next(Next(Next(s, Claim(n, k)), Stop(n)), Tick(n * (LEASE + 1))) == Interrupted(k, n)
  {
    var s := Interrupted(k, n - 1);
    var t := Next(Next(Next(s, Claim(n, k)), Stop(n)), Tick(n * (LEASE + 1)));
    assert t.holds == map[];
  }

  lemma {:induction false} InterruptionsRun(k: Key, n: nat)
    requires n <= ATTEMPT_CEILING
    ensures Steps(FRESH, Interruptions(k, n), Interrupted(k, n))
  {
    if n > 0 {
      InterruptionsRun(k, n - 1);
      OneInterruption(k, n);
      var s := Interrupted(k, n - 1);
      OneMore(FRESH, Interruptions(k, n - 1), s, Claim(n, k));
      OneMore(FRESH, Interruptions(k, n - 1) + [Claim(n, k)], Next(s, Claim(n, k)), Stop(n));
      OneMore(FRESH, Interruptions(k, n - 1) + [Claim(n, k)] + [Stop(n)], Next(Next(s, Claim(n, k)), Stop(n)), Tick(n * (LEASE + 1)));
    }
  }

  /** Every attempt count up to the ceiling is reached on a stale pending run, the
      fourth and the tenth among them; at the tenth no worker can claim it again. */
  lemma InterruptedRunReached(k: Key, n: nat)
    requires 1 <= n <= ATTEMPT_CEILING
    ensures exists steps, t :: Initial(FRESH) && Steps(FRESH, steps, t)
              && k in t.runs && Stale(t.runs[k], t.now) && t.runs[k].attempts == n && CountOf(t.claims, k) == n
              && (ClaimAnswer(t.runs, k, t.now) == if n < ATTEMPT_CEILING then Taken(n + 1) else Refused)
  {
    InterruptionsRun(k, n);
    var t := Interrupted(k, n);
    assert k in t.runs && Stale(t.runs[k], t.now) && CountOf(t.claims, k) == n;
  }

  /** One attempt of a free worker that fails, and the wait until its retry. */
  function FailedRound(k: Key, worker: int, retryAt: Moment): seq<Step> { [Claim(worker, k), Complete(worker, FailedRun, retryAt), Tick(retryAt)] }

  ghost function FailedRoundEnd(t: State, k: Key, retryAt: Moment): State
    requires ClaimAnswer(t.runs, k, t.now).Taken?
  {
    t.(now := retryAt, runs := t.runs[k := AutomationRun(FailedRun, ClaimAnswer(t.runs, k, t.now).attempt, t.now, Some(retryAt))],
       claims := t.claims[k := CountOf(t.claims, k) + 1])
  }

  lemma FailedRoundEnds(t: State, k: Key, worker: int, retryAt: Moment)
    requires Enabled(t, Claim(worker, k)) && ClaimAnswer(t.runs, k, t.now).attempt < 3 && retryAt >= t.now
    ensures Enabled(Next(t, Claim(worker, k)), Complete(worker, FailedRun, retryAt))
    ensures var t2 := Next(Next(t, Claim(worker, k)), Complete(worker, FailedRun, retryAt));
      Enabled(t2, Tick(retryAt)) && Next(t2, Tick(retryAt)) == FailedRoundEnd(t, k, retryAt)
  {
    var t3 := Next(Next(Next(t, Claim(worker, k)), Complete(worker, FailedRun, retryAt)), Tick(retryAt));
    assert t3.holds == t.holds && t3.runs == FailedRoundEnd(t, k, retryAt).runs;
  }

  lemma FailedRoundRuns(s: State, steps: seq<Step>, t: State, k: Key, worker: int, retryAt: Moment)
    requires Steps(s, steps, t) && Enabled(t, Claim(worker, k)) && ClaimAnswer(t.runs, k, t.now).attempt < 3 && retryAt >= t.now
    ensures Steps(s, steps + FailedRound(k, worker, retryAt), FailedRoundEnd(t, k, retryAt))
  {
    FailedRoundEnds(t, k, worker, retryAt);
    var t1 := Next(t, Claim(worker, k));
    OneMore(s, steps, t, Claim(worker, k));
    OneMore(s, steps + [Claim(worker, k)], t1, Complete(worker, FailedRun, retryAt));
    OneMore(s, steps + [Claim(worker, k)] + [Complete(worker, FailedRun, retryAt)], Next(t1, Complete(worker, FailedRun, retryAt)), Tick(retryAt));
    assert steps + [Claim(worker, k)] + [Complete(worker, FailedRun, retryAt)] + [Tick(retryAt)] == steps + FailedRound(k, worker, retryAt);
  }

  ghost function SentRoundEnd(t: State, k: Key): State
    requires ClaimAnswer(t.runs, k, t.now).Taken?
  {
    t.(runs := t.runs[k := AutomationRun(Sent, ClaimAnswer(t.runs, k, t.now).attempt, t.now, None)],
       claims := t.claims[k := CountOf(t.claims, k) + 1], sent := t.sent[k := CountOf(t.sent, k) + 1])
  }

  lemma SentRoundEnds(t: State, k: Key, worker: int)
    requires Enabled(t, Claim(worker, k))
    ensures var t1 := Next(t, Claim(worker, k));
      Enabled(t1, Complete(worker, Sent, t.now)) && Next(t1, Complete(worker, Sent, t.now)) == SentRoundEnd(t, k)
  {
    var end := Next(Next(t, Claim(worker, k)), Complete(worker, Sent, t.now));
    assert end.holds == t.holds && end.runs == SentRoundEnd(t, k).runs;
  }

  lemma SentRoundRuns(s: State, steps: seq<Step>, t: State, k: Key, worker: int)
    requires Steps(s, steps, t) && Enabled(t, Claim(worker, k))
    ensures Steps(s, steps + [Claim(worker, k)] + [Complete(worker, Sent, t.now)], SentRoundEnd(t, k))
  {
    SentRoundEnds(t, k, worker);
    OneMore(s, steps, t, Claim(worker, k));
    OneMore(s, steps + [Claim(worker, k)], Next(t, Claim(worker, k)), Complete(worker, Sent, t.now));
  }

  /** A run from the empty table whose transport fails twice reaches its third attempt and
      is sent there; the two waits may be of any length. */
  lemma ThirdAttemptSends(k: Key, first: nat, second: nat)
    requires first <= second
    ensures exists steps, t :: Initial(FRESH) && Steps(FRESH, steps, t)
              && t.runs == map[k := AutomationRun(Sent, 3, second, None)] && t.holds == map[] && CountOf(t.claims, k) == 3 && CountOf(t.sent, k) == 1
  {
    assert Steps(FRESH, [], FRESH);
    FailedRoundRuns(FRESH, [], FRESH, k, 1, first);
    var s1 := FailedRoundEnd(FRESH, k, first);
    FailedRoundRuns(FRESH, [] + FailedRound(k, 1, first), s1, k, 1, second);
    var s2 := FailedRoundEnd(s1, k, second);
    SentRoundRuns(FRESH, [] + FailedRound(k, 1, first) + FailedRound(k, 1, second), s2, k, 1);
    assert s2.runs[k := AutomationRun(Sent, 3, second, None)] == map[k := AutomationRun(Sent, 3, second, None)];
  }

  /** The lease is exactly as good as the clock: as long as the leases hold, moving
      the clock lets a second worker take a held key if and only if the new time is
      past the end of its holder's lease. */
  lemma SecondHolderIff(s: State, now: Moment, w: int, other: int)
    requires Leased(s) && w in s.holds && other !in s.holds && now >= s.now
    ensures Enabled(Next(s, Tick(now)), Claim(other, s.holds[w].key)) <==> now > s.holds[w].since + LEASE
  {
    var k := s.holds[w].key;
    assert HoldOk(s, w) && RunOk(s.runs[k], CountOf(s.sent, k));
  }

  /** Past the lease the promises are gone: the late worker and the one that took
      over both send, and the run that was `sent` ends up waiting for a retry. */
  lemma LateWorkerSendsTwice(k: Key, retryAt: Moment)
    ensures var s := State(0, map[], map[], map[], map[]);
      exists steps, t :: Initial(s) && Steps(s, steps, t) && CountOf(t.sent, k) == 2
    ensures var s := State(0, map[], map[], map[], map[]);
      exists steps, t :: Steps(s, steps, t) && CountOf(t.sent, k) == 1 && k in t.runs && t.runs[k].status == FailedRun && t.runs[k].nextAttempt == Some(retryAt)
  {
    var s0 := State(0, map[], map[], map[], map[]);
    var s1 := Next(s0, Claim(1, k));
    var s2 := Next(s1, Tick(LEASE + 1));
    var s3 := Next(s2, Claim(2, k));
    var s4 := Next(s3, Complete(1, Sent, 0));
    var s5 := Next(s4, Complete(2, Sent, 0));
    var s6 := Next(s4, Complete(2, FailedRun, retryAt));
    FiveSteps(s0, Claim(1, k), Tick(LEASE + 1), Claim(2, k), Complete(1, Sent, 0), Complete(2, Sent, 0));
    FiveSteps(s0, Claim(1, k), Tick(LEASE + 1), Claim(2, k), Complete(1, Sent, 0), Complete(2, FailedRun, retryAt));
    assert CountOf(s5.sent, k) == 2;
    assert CountOf(s6.sent, k) == 1 && s6.runs[k].status == FailedRun;
  }

  lemma FiveSteps(s: State, a: Step, b: Step, c: Step, d: Step, e: Step)
    requires Enabled(s, a) && Enabled(Next(s, a), b) && Enabled(Next(Next(s, a), b), c)
    requires Enabled(Next(Next(Next(s, a), b), c), d) && Enabled(Next(Next(Next(Next(s, a), b), c), d), e)
    ensures Steps(s, [a, b, c, d, e], Next(Next(Next(Next(Next(s, a), b), c), d), e))
  {
    var t1 := Next(s, a);
    var t2 := Next(t1, b);
    var t3 := Next(t2, c);
    var t4 := Next(t3, d);
    var t5 := Next(t4, e);
    assert Steps(t5, [], t5);
    assert [e][1..] == [] && Steps(t4, [e], t5);
    assert [d, e][1..] == [e] && Steps(t3, [d, e], t5);
    assert [c, d, e][1..] == [d, e] && Steps(t2, [c, d, e], t5);
    assert [b, c, d, e][1..] == [c, d, e] && Steps(t1, [b, c, d, e], t5);
    assert [a, b, c, d, e][1..] == [b, c, d, e];
  }
}
