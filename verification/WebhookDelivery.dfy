/** The delivery protocol: any number of workers claim due deliveries, post them,
    and write the outcome back in two separate statements; any of them may stop
    for good at any point. */
module WebhookDelivery {
  import opened Backoff
  import opened Prelude
  import opened Webhooks

  /** How far a worker is with the delivery it claimed: nothing sent yet, request
      sent, or outcome written with the endpoint still to be updated. */
  datatype Phase = Claimed | Posted | Booked(ok: bool)

  /** What the claim's RETURNING clause gave the worker. */
  datatype Hold = Hold(id: DeliveryId, attempts: nat, maxAttempts: nat, phase: Phase)

  datatype State = State(
    now: Moment,
    endpoints: map<int, Endpoint>,
    deliveries: map<DeliveryId, Delivery>,
    holds: map<int, Hold>,
    posts: map<DeliveryId, nat>,           // history: requests sent, per delivery
    outcomes: map<int, seq<bool>>)         // history: outcomes counted, per endpoint

  datatype Step =
    | Tick(now: Moment)
    | AddEndpoint(endpoint: int, company: int, kinds: set<int>)
    | Insert(id: DeliveryId, maxAttempts: nat, due: Moment)
    | Claim(worker: int, id: DeliveryId)
    | Post(worker: int)
    | Succeed(worker: int)
    | Fail(worker: int)
    | Count(worker: int)
    | Stop(worker: int)

  predicate Working(s: State, w: int) { w in s.holds && !s.holds[w].phase.Booked? }

  /** The statement that writes a failure is itself refused from this attempt on. */
  predicate Overflows(h: Hold) { h.attempts + 1 >= POWER_OVERFLOW }

  ghost predicate Enabled(s: State, step: Step) {
    match step
    case Tick(now) => now >= s.now
    case AddEndpoint(endpoint, _, _) => endpoint !in s.endpoints
    case Insert(id, maxAttempts, due) => id !in s.deliveries && id.endpoint in s.endpoints && maxAttempts >= 1 && due <= s.now
    case Claim(worker, id) => worker !in s.holds && NextInLine(s.deliveries, s.endpoints, s.now, id)
    case Post(worker) => worker in s.holds && s.holds[worker].phase.Claimed?
    case Succeed(worker) => worker in s.holds && s.holds[worker].phase.Posted? && s.holds[worker].id in s.deliveries
    case Fail(worker) => Working(s, worker) && s.holds[worker].id in s.deliveries
    case Count(worker) => worker in s.holds && s.holds[worker].phase.Booked? && s.holds[worker].id.endpoint in s.endpoints
    case Stop(worker) => worker in s.holds
  }

  function PostCount(s: State, id: DeliveryId): nat { if id in s.posts then s.posts[id] else 0 }

  function OutcomesOf(s: State, endpoint: int): seq<bool> { if endpoint in s.outcomes then s.outcomes[endpoint] else [] }

  function AfterFail(s: State, worker: int): State
    requires worker in s.holds && s.holds[worker].id in s.deliveries
  {
    var h := s.holds[worker];
    if Overflows(h) then s.(holds := s.holds - {worker})
    else s.(deliveries := s.deliveries[h.id := FailRow(s.deliveries[h.id], h.attempts, h.maxAttempts, s.now)],
            holds := s.holds[worker := h.(phase := Booked(false))])
  }

  function AfterCount(s: State, worker: int): State
    requires worker in s.holds && s.holds[worker].phase.Booked? && s.holds[worker].id.endpoint in s.endpoints
  {
    var p, ok := s.holds[worker].id.endpoint, s.holds[worker].phase.ok;
    s.(endpoints := s.endpoints[p := if ok then ResetEndpoint(s.endpoints[p]) else CountFailure(s.endpoints[p])],
       outcomes := s.outcomes[p := OutcomesOf(s, p) + [ok]],
       holds := s.holds - {worker})
  }

  ghost function Next(s: State, step: Step): State
    requires Enabled(s, step)
  {
    match step
    case Tick(now) => s.(now := now)
    case AddEndpoint(endpoint, company, kinds) =>
      s.(endpoints := s.endpoints[endpoint := Endpoint(company, true, false, kinds, EndpointActive, 0)],
         outcomes := s.outcomes[endpoint := []])
    case Insert(id, maxAttempts, due) => s.(deliveries := s.deliveries[id := NewDelivery(maxAttempts, due)], posts := s.posts[id := 0])
    case Claim(worker, id) =>
      var d := s.deliveries[id];
      s.(deliveries := s.deliveries[id := ClaimRow(d)],
         holds := s.holds[worker := Hold(id, d.attempts, d.maxAttempts, Claimed)])
    case Post(worker) =>
      var h := s.holds[worker];
      s.(posts := s.posts[h.id := PostCount(s, h.id) + 1], holds := s.holds[worker := h.(phase := Posted)])
    case Succeed(worker) =>
      var h := s.holds[worker];
      s.(deliveries := s.deliveries[h.id := SucceedRow(s.deliveries[h.id])], holds := s.holds[worker := h.(phase := Booked(true))])
    case Fail(worker) => AfterFail(s, worker)
    case Count(worker) => AfterCount(s, worker)
    case Stop(worker) => s.(holds := s.holds - {worker})
  }

  ghost predicate Steps(s: State, steps: seq<Step>, t: State)
    decreases |steps|
  {
    if steps == [] then s == t
    else Enabled(s, steps[0]) && Steps(Next(s, steps[0]), steps[1..], t)
  }

  lemma {:induction false} OneMore(s: State, steps: seq<Step>, t: State, step: Step)
    requires Steps(s, steps, t) && Enabled(t, step)
    ensures Steps(s, steps + [step], Next(t, step))
    decreases |steps|
  {
    if steps == [] {
      assert Steps(Next(t, step), [], Next(t, step));
      assert ([step])[1..] == [];
    } else {
      OneMore(Next(s, steps[0]), steps[1..], t, step);
      assert (steps + [step])[1..] == steps[1..] + [step];
    }
  }

  lemma {:induction false} Joined(s: State, first: seq<Step>, mid: State, second: seq<Step>, t: State)
    requires Steps(s, first, mid) && Steps(mid, second, t)
    ensures Steps(s, first + second, t)
    decreases |first|
  {
    if first == [] {
      assert first + second == second;
    } else {
      Joined(Next(s, first[0]), first[1..], mid, second, t);
      assert (first + second)[1..] == first[1..] + second;
    }
  }

  predicate Initial(s: State) {
    s.endpoints == map[] && s.deliveries == map[] && s.holds == map[] && s.posts == map[] && s.outcomes == map[]
  }

  /** A delivery can be claimed by a free worker exactly when it is waiting or failed, due,
      its endpoint is active, and no other such delivery has been due for longer. */
  lemma ClaimedIff(s: State, worker: int, id: DeliveryId)
    ensures Enabled(s, Claim(worker, id)) <==>
      && worker !in s.holds
      && id in s.deliveries && (s.deliveries[id].status == Waiting || s.deliveries[id].status == Failed)
      && id.endpoint in s.endpoints && s.endpoints[id.endpoint].status == EndpointActive && s.deliveries[id].due <= s.now
      && (forall other :: other in s.deliveries && (s.deliveries[other].status == Waiting || s.deliveries[other].status == Failed)
            && other.endpoint in s.endpoints && s.endpoints[other.endpoint].status == EndpointActive
            ==> s.deliveries[id].due <= s.deliveries[other].due)
  {
    forall other ensures Claimable(s.deliveries, s.endpoints, other) <==>
      && other in s.deliveries && (s.deliveries[other].status == Waiting || s.deliveries[other].status == Failed)
      && other.endpoint in s.endpoints && s.endpoints[other.endpoint].status == EndpointActive
    {}
  }

  /** What happens around the workers: time goes on, endpoints are added active, and
      deliveries inserted for them, waiting and due. */
  lemma OutsideSteps(s: State, now: Moment, p: int, company: int, kinds: set<int>, id: DeliveryId, n: nat, due: Moment)
    ensures Enabled(s, Tick(now)) <==> now >= s.now
    ensures Enabled(s, Tick(now)) ==> Next(s, Tick(now)) == s.(now := now)
    ensures Enabled(s, AddEndpoint(p, company, kinds)) <==> p !in s.endpoints
    ensures Enabled(s, AddEndpoint(p, company, kinds))
      ==> Next(s, AddEndpoint(p, company, kinds)).endpoints == s.endpoints[p := Endpoint(company, true, false, kinds, EndpointActive, 0)]
    ensures Enabled(s, Insert(id, n, due)) <==> id !in s.deliveries && id.endpoint in s.endpoints && n >= 1 && due <= s.now
    ensures Enabled(s, Insert(id, n, due)) ==> Next(s, Insert(id, n, due)).deliveries == s.deliveries[id := Delivery(Waiting, 0, n, due)]
  {}

  /** A failure that can be written leaves the delivery dead, on its last attempt, or due
      again in 2^attempts seconds, an hour at most, counted with the new attempt. */
  lemma FailureWrites(s: State, worker: int)
    requires Enabled(s, Fail(worker)) && s.holds[worker].attempts < 30
    ensures var id, n := s.holds[worker].id, s.holds[worker].attempts + 1;
      var d := Next(s, Fail(worker)).deliveries[id];
      && d.attempts == n && d.maxAttempts == s.deliveries[id].maxAttempts
      && d.status == (if n >= s.holds[worker].maxAttempts then Dead else Failed)
      && d.due == s.now + (if n >= 12 then 3600 else Pow2(n))
    ensures Next(s, Fail(worker)).endpoints == s.endpoints
  {
    RetryDelayShape(0, s.holds[worker].attempts + 1);
  }

  // ---------------------------------------------------------------- the invariant on deliveries

  predicate RowOk(d: Delivery, posts: nat) {
    match d.status
    case Waiting => d.attempts == 0 < d.maxAttempts && posts == 0
    case Failed => 0 < d.attempts < Min(d.maxAttempts, POWER_OVERFLOW) && posts <= d.attempts
    case Processing => d.attempts < Min(d.maxAttempts, POWER_OVERFLOW) && posts <= d.attempts + 1
    case Succeeded => 1 <= posts <= d.attempts <= Min(d.maxAttempts, POWER_OVERFLOW)
    case Dead => posts <= d.attempts == d.maxAttempts < POWER_OVERFLOW
  }

  ghost predicate RowsOk(s: State) {
    forall id :: id in s.deliveries ==> id.endpoint in s.endpoints && RowOk(s.deliveries[id], PostCount(s, id))
  }

  /** A worker at work is the row's only holder, and what it read still stands. */
  predicate HoldOk(s: State, w: int)
    requires w in s.holds
  {
    var h := s.holds[w];
    && h.id in s.deliveries && h.id.endpoint in s.endpoints
    && (!h.phase.Booked? ==>
          var d := s.deliveries[h.id];
          && d.status == Processing && d.attempts == h.attempts && d.maxAttempts == h.maxAttempts
          && (if h.phase.Claimed? then PostCount(s, h.id) <= h.attempts else 1 <= PostCount(s, h.id)))
  }

  ghost predicate HoldsOk(s: State) {
    && (forall w :: w in s.holds ==> HoldOk(s, w))
    && (forall v, w :: Working(s, v) && Working(s, w) && v != w ==> s.holds[v].id != s.holds[w].id)
  }

  ghost predicate Inv(s: State) { RowsOk(s) && HoldsOk(s) }

  lemma InitialOk(s: State)
    requires Initial(s)
    ensures Inv(s)
  {}

  lemma StepKeepsRows(s: State, step: Step)
    requires Inv(s) && Enabled(s, step)
    ensures RowsOk(Next(s, step))
  {
    var t := Next(s, step);
    if step.Fail? || step.Post? || step.Succeed? { assert HoldOk(s, step.worker); }
    forall id | id in t.deliveries ensures id.endpoint in t.endpoints && RowOk(t.deliveries[id], PostCount(t, id)) {
      if id in s.deliveries {
        assert RowOk(s.deliveries[id], PostCount(s, id));
      }
    }
  }

  predicate ActsOn(s: State, step: Step, w: int) {
    match step
    case Claim(worker, _) => worker == w
    case Post(worker) => worker == w
    case Succeed(worker) => worker == w
    case Fail(worker) => worker == w
    case _ => false
  }

  lemma ClaimedHoldOk(s: State, w: int, id: DeliveryId)
    requires Enabled(s, Claim(w, id)) && id.endpoint in s.endpoints && RowOk(s.deliveries[id], PostCount(s, id))
    ensures HoldOk(Next(s, Claim(w, id)), w)
  {}

  lemma MovedHoldOk(s: State, step: Step, w: int)
    requires Enabled(s, step) && (step == Post(w) || step == Succeed(w) || step == Fail(w)) && HoldOk(s, w) && w in Next(s, step).holds
    ensures HoldOk(Next(s, step), w)
  {}

  lemma OwnStepKeepsHold(s: State, step: Step, w: int)
    requires Inv(s) && Enabled(s, step) && w in Next(s, step).holds && ActsOn(s, step, w)
    ensures HoldOk(Next(s, step), w)
  {
    if step.Claim? {
      ClaimedHoldOk(s, w, step.id);
    } else {
      MovedHoldOk(s, step, w);
    }
  }

  predicate Writes(step: Step) { step.Post? || step.Succeed? || step.Fail? }

  lemma OtherHoldKept(s: State, step: Step, w: int)
    requires Enabled(s, step) && w in s.holds && HoldOk(s, w) && w in Next(s, step).holds && !ActsOn(s, step, w)
    requires Writes(step) ==> Working(s, step.worker) && (Working(s, w) ==> s.holds[step.worker].id != s.holds[w].id)
    ensures HoldOk(Next(s, step), w)
  {}

  lemma OtherStepKeepsHold(s: State, step: Step, w: int)
    requires Inv(s) && Enabled(s, step) && w in Next(s, step).holds && !ActsOn(s, step, w)
    ensures HoldOk(Next(s, step), w)
  {
    assert w in s.holds && HoldOk(s, w);
    OtherHoldKept(s, step, w);
  }

  lemma StepKeepsHold(s: State, step: Step, w: int)
    requires Inv(s) && Enabled(s, step) && w in Next(s, step).holds
    ensures HoldOk(Next(s, step), w)
  {
    if ActsOn(s, step, w) { OwnStepKeepsHold(s, step, w); } else { OtherStepKeepsHold(s, step, w); }
  }

  /** A claim is the only step that puts a worker to work. */
  lemma HoldersStay(s: State, step: Step, v: int)
    requires Enabled(s, step) && Working(Next(s, step), v)
    ensures if step.Claim? && step.worker == v then Next(s, step).holds[v].id == step.id
            else Working(s, v) && Next(s, step).holds[v].id == s.holds[v].id
  {}

  lemma StepKeepsHolders(s: State, step: Step, v: int, w: int)
    requires Inv(s) && Enabled(s, step)
    requires Working(Next(s, step), v) && Working(Next(s, step), w) && v != w
    ensures Next(s, step).holds[v].id != Next(s, step).holds[w].id
  {
    HoldersStay(s, step, v);
    HoldersStay(s, step, w);
    if v in s.holds { assert HoldOk(s, v); }
    if w in s.holds { assert HoldOk(s, w); }
  }

  lemma StepKeeps(s: State, step: Step)
    requires Inv(s) && Enabled(s, step)
    ensures Inv(Next(s, step))
  {
    var t := Next(s, step);
    StepKeepsRows(s, step);
    forall w | w in t.holds ensures HoldOk(t, w) { StepKeepsHold(s, step, w); }
    forall v, w | Working(t, v) && Working(t, w) && v != w ensures t.holds[v].id != t.holds[w].id {
      StepKeepsHolders(s, step, v, w);
    }
  }

  lemma {:induction false} RunKeeps(s: State, steps: seq<Step>, t: State)
    requires Inv(s) && Steps(s, steps, t)
    ensures Inv(t)
    decreases |steps|
  {
    if steps != [] {
      StepKeeps(s, steps[0]);
      RunKeeps(Next(s, steps[0]), steps[1..], t);
    }
  }

  /** In any run, crashes included, a delivery is posted at most `max_attempts`
      times; failed rows have attempts left, dead ones have none, and whoever
      works on a delivery works on it alone. */
  lemma BoundedDelivery(s: State, steps: seq<Step>, t: State, id: DeliveryId)
    requires Initial(s) && Steps(s, steps, t) && id in t.deliveries
    ensures PostCount(t, id) <= t.deliveries[id].maxAttempts
    ensures PostCount(t, id) <= 31
    ensures t.deliveries[id].status == Failed ==> 0 < t.deliveries[id].attempts < t.deliveries[id].maxAttempts
    ensures t.deliveries[id].status == Dead ==> t.deliveries[id].attempts == t.deliveries[id].maxAttempts
    ensures t.deliveries[id].status == Succeeded ==> PostCount(t, id) >= 1
    ensures forall v, w :: Working(t, v) && Working(t, w) && t.holds[v].id == id == t.holds[w].id ==> v == w
  {
    InitialOk(s);
    RunKeeps(s, steps, t);
    assert RowOk(t.deliveries[id], PostCount(t, id));
  }
}
