/** The fan-out protocol: any number of workers, each in a transaction that locks
    outbox rows, inserts deliveries row by row, and commits or rolls back. */
module WebhookFanout {
  import opened Prelude
  import opened Webhooks

  /** An open transaction: the rows it holds FOR UPDATE and, per event handled so
      far, the endpoints its INSERT found. Nobody else sees this until it commits. */
  datatype Tx = Tx(begun: Moment, locked: set<int>, staged: map<int, set<int>>)

  datatype State = State(
    now: Moment,
    events: map<int, Event>,
    endpoints: map<int, Endpoint>,
    deliveries: map<DeliveryId, Delivery>,
    txs: map<int, Tx>,
    reached: map<int, set<int>>)    // history: the audience each sent event was fanned out to

  datatype Step =
    | Tick(now: Moment)
    | PublishEvent(event: int, posted: Event)
    | WriteEndpoint(endpoint: int, rewritten: Endpoint)
    | TouchDelivery(id: DeliveryId, touched: Delivery)
    | Begin(worker: int, chosen: set<int>)
    | FanOne(worker: int, event: int)
    | Commit(worker: int)
    | Rollback(worker: int)

  predicate Locked(s: State, event: int) {
    exists w :: w in s.txs && event in s.txs[w].locked
  }

  /** FOR UPDATE SKIP LOCKED, ORDER BY created_at, LIMIT 50. */
  ghost predicate Selects(s: State, chosen: set<int>) {
    && |chosen| <= 50
    && (forall e :: e in chosen ==> e in s.events && Fannable(s.events[e], s.now) && !Locked(s, e))
    && (forall e, other :: e in chosen && other in s.events && other !in chosen && Fannable(s.events[other], s.now) && !Locked(s, other)
          ==> |chosen| == 50 && s.events[e].createdAt <= s.events[other].createdAt)
  }

  function MarkSent(events: map<int, Event>, sent: set<int>): map<int, Event> {
    map e | e in events :: if e in sent then events[e].(status := OutboxSent) else events[e]
  }

  function Publish(deliveries: map<DeliveryId, Delivery>, staged: map<int, set<int>>, now: Moment): map<DeliveryId, Delivery> {
    (map e, p | e in staged && p in staged[e] :: DeliveryId(p, e) := NewDelivery(DEFAULT_MAX_ATTEMPTS, now)) + deliveries
  }

  ghost predicate Enabled(s: State, step: Step) {
    match step
    case Tick(now) => now >= s.now
    case PublishEvent(event, row) => event !in s.events && row.status == OutboxPending && (forall id :: id in s.deliveries ==> id.event != event)
    case WriteEndpoint(_, _) => true
    case TouchDelivery(id, _) => id in s.deliveries
    case Begin(worker, chosen) => worker !in s.txs && Selects(s, chosen)
    case FanOne(worker, event) => worker in s.txs && event in s.txs[worker].locked && event !in s.txs[worker].staged && event in s.events
    case Commit(worker) => worker in s.txs && s.txs[worker].staged.Keys == s.txs[worker].locked
    case Rollback(worker) => worker in s.txs
  }

  ghost function Next(s: State, step: Step): State
    requires Enabled(s, step)
  {
    match step
    case Tick(now) => s.(now := now)
    case PublishEvent(event, row) => s.(events := s.events[event := row])
    case WriteEndpoint(endpoint, row) => s.(endpoints := s.endpoints[endpoint := row])
    case TouchDelivery(id, row) => s.(deliveries := s.deliveries[id := row])
    case Begin(worker, chosen) => s.(txs := s.txs[worker := Tx(s.now, chosen, map[])])
    case FanOne(worker, event) =>
      var tx := s.txs[worker];
      s.(txs := s.txs[worker := tx.(staged := tx.staged[event := Audience(s.endpoints, s.events[event])])])
    case Commit(worker) =>
      var tx := s.txs[worker];
      s.(events := MarkSent(s.events, tx.locked),
         deliveries := Publish(s.deliveries, tx.staged, tx.begun),
         reached := s.reached + tx.staged,
         txs := s.txs - {worker})
    case Rollback(worker) => s.(txs := s.txs - {worker})
  }

  ghost predicate Initial(s: State) {
    s.txs == map[] && s.deliveries == map[] && s.reached == map[] && forall e :: e in s.events ==> s.events[e].status != OutboxSent
  }

  ghost predicate TxOk(s: State, w: int)
    requires w in s.txs
  {
    && s.txs[w].staged.Keys <= s.txs[w].locked
    && forall e :: e in s.txs[w].locked ==> e in s.events && s.events[e].status != OutboxSent
  }

  ghost predicate LocksExclusive(s: State) {
    forall v, w :: v in s.txs && w in s.txs && v != w ==> s.txs[v].locked !! s.txs[w].locked
  }

  /** The claim: a sent event has exactly one delivery per endpoint it was fanned
      out to (a map holds one row a key), any other event has none. */
  ghost predicate ExactlyOnce(s: State) {
    && (forall e :: e in s.events && s.events[e].status == OutboxSent <==> e in s.reached)
    && (forall id :: id in s.deliveries <==> id.event in s.reached && id.endpoint in s.reached[id.event])
  }

  ghost predicate Inv(s: State) {
    (forall w :: w in s.txs ==> TxOk(s, w)) && LocksExclusive(s) && ExactlyOnce(s)
  }

  lemma BeginKeeps(s: State, worker: int, chosen: set<int>)
    requires Inv(s) && Enabled(s, Begin(worker, chosen))
    ensures Inv(Next(s, Begin(worker, chosen)))
  {
    var s' := Next(s, Begin(worker, chosen));
    forall w | w in s'.txs ensures TxOk(s', w) {
      if w != worker { assert TxOk(s, w); }
    }
    forall v, w | v in s'.txs && w in s'.txs && v != w ensures s'.txs[v].locked !! s'.txs[w].locked {
      forall e | e in s'.txs[v].locked ensures e !in s'.txs[w].locked {
        if v == worker {
          assert !Locked(s, e);
        } else if w == worker {
          assert Locked(s, e);
        }
      }
    }
  }

  lemma CommitKeepsTxs(s: State, worker: int)
    requires Inv(s) && Enabled(s, Commit(worker))
    ensures var s' := Next(s, Commit(worker)); (forall w :: w in s'.txs ==> TxOk(s', w)) && LocksExclusive(s')
  {
    var s' := Next(s, Commit(worker));
    forall w | w in s'.txs ensures TxOk(s', w) {
      assert TxOk(s, w) && s.txs[w].locked !! s.txs[worker].locked;
    }
  }

  lemma CommitKeepsOnce(s: State, worker: int)
    requires Inv(s) && Enabled(s, Commit(worker))
    ensures ExactlyOnce(Next(s, Commit(worker)))
  {
    var tx := s.txs[worker];
    var s' := Next(s, Commit(worker));
    assert TxOk(s, worker);
    forall id
      ensures id in s'.deliveries <==> id.event in s'.reached && id.endpoint in s'.reached[id.event]
    {
      assert id == DeliveryId(id.endpoint, id.event);
      if id.event in tx.staged {
        assert id.event !in s.reached;
      }
    }
  }

  lemma StepKeeps(s: State, step: Step)
    requires Inv(s) && Enabled(s, step)
    ensures Inv(Next(s, step))
  {
    match step
    case Begin(worker, chosen) => BeginKeeps(s, worker, chosen);
    case Commit(worker) => CommitKeepsTxs(s, worker); CommitKeepsOnce(s, worker);
    case _ =>
      var s' := Next(s, step);
      forall w | w in s'.txs ensures TxOk(s', w) {
        assert TxOk(s, w);
      }
      assert LocksExclusive(s');
      assert ExactlyOnce(s');
  }

  ghost predicate Steps(s: State, steps: seq<Step>, t: State)
    decreases |steps|
  {
    if steps == [] then s == t
    else Enabled(s, steps[0]) && Steps(Next(s, steps[0]), steps[1..], t)
  }

  lemma {:induction false} FanoutRunKeeps(s: State, steps: seq<Step>, t: State)
    requires Inv(s) && Steps(s, steps, t)
    ensures Inv(t)
    decreases |steps|
  {
    if steps != [] {
      StepKeeps(s, steps[0]);
      FanoutRunKeeps(Next(s, steps[0]), steps[1..], t);
    }
  }

  lemma InitialOk(s: State)
    requires Initial(s)
    ensures Inv(s)
  {}

  /** Exactly-once fan-out, for any interleaving of workers, endpoint changes,
      deliveries and rollbacks: a sent event has one delivery for each endpoint it
      was fanned out to and no other, an unsent one has none, and no event is held
      by two open transactions. */
  lemma FanoutExactlyOnce(s: State, steps: seq<Step>, t: State, event: int, endpoint: int)
    requires Initial(s) && Steps(s, steps, t) && event in t.events
    ensures t.events[event].status == OutboxSent <==> event in t.reached
    ensures DeliveryId(endpoint, event) in t.deliveries
      <==> t.events[event].status == OutboxSent && event in t.reached && endpoint in t.reached[event]
    ensures forall v, w :: v in t.txs && w in t.txs && event in t.txs[v].locked && event in t.txs[w].locked ==> v == w
  {
    InitialOk(s);
    FanoutRunKeeps(s, steps, t);
    assert DeliveryId(endpoint, event).event == event && DeliveryId(endpoint, event).endpoint == endpoint;
    assert LocksExclusive(t);
  }

  /** A transaction takes at most fifty events: those that are pending or failed, available
      and of a company, that no other transaction holds, the oldest ones first. */
  lemma BeginsIff(s: State, worker: int, chosen: set<int>)
    requires worker !in s.txs
    ensures Enabled(s, Begin(worker, chosen)) <==>
      && |chosen| <= 50
      && (forall e :: e in chosen ==>
            && e in s.events && (s.events[e].status == OutboxPending || s.events[e].status == OutboxFailed)
            && s.events[e].availableAt <= s.now && s.events[e].company != None
            && (forall w :: w in s.txs ==> e !in s.txs[w].locked))
      && (forall e, other :: e in chosen && other in s.events && other !in chosen
            && (s.events[other].status == OutboxPending || s.events[other].status == OutboxFailed)
            && s.events[other].availableAt <= s.now && s.events[other].company != None
            && (forall w :: w in s.txs ==> other !in s.txs[w].locked)
            ==> |chosen| == 50 && s.events[e].createdAt <= s.events[other].createdAt)
  {
    forall e ensures Locked(s, e) <==> !(forall w :: w in s.txs ==> e !in s.txs[w].locked) {
      if w :| w in s.txs && e in s.txs[w].locked { assert Locked(s, e); }
    }
    assert Selects(s, chosen) <==> Enabled(s, Begin(worker, chosen));
  }

  /** Reading an event's audience finds the company's outbound endpoints that are active,
      not deleted, and subscribed to the event's kind or to every kind. */
  lemma AudienceRead(s: State, worker: int, event: int, p: int)
    requires Enabled(s, FanOne(worker, event))
    ensures p in Next(s, FanOne(worker, event)).txs[worker].staged[event] <==>
      && p in s.endpoints && s.events[event].company == Some(s.endpoints[p].company)
      && s.endpoints[p].outbound && !s.endpoints[p].deleted && s.endpoints[p].status == EndpointActive
      && (s.endpoints[p].kinds == {} || s.events[event].kind in s.endpoints[p].kinds)
  {}

  /** A commit marks its events sent and inserts what is missing of their deliveries:
      waiting, with eight attempts, due since the transaction began. */
  lemma CommitPublishes(s: State, worker: int, id: DeliveryId)
    requires Enabled(s, Commit(worker))
    ensures var t, tx := Next(s, Commit(worker)), s.txs[worker];
      && t.events.Keys == s.events.Keys && t.endpoints == s.endpoints
      && (forall e :: e in s.events ==> t.events[e] == if e in tx.locked then s.events[e].(status := OutboxSent) else s.events[e])
      && (id in t.deliveries <==> id in s.deliveries || (id.event in tx.staged && id.endpoint in tx.staged[id.event]))
      && (id in t.deliveries ==> t.deliveries[id] == if id in s.deliveries then s.deliveries[id] else Delivery(Waiting, 0, 8, tx.begun))
  {
    assert id == DeliveryId(id.endpoint, id.event);
  }

  // ---------------------------------------------------------------- the recorded audience

  ghost predicate Staged(s: State, worker: int, event: int, audience: set<int>) {
    worker in s.txs && event in s.txs[worker].staged && s.txs[worker].staged[event] == audience
  }

  /** The transaction `worker` has open goes on to commit. */
  predicate Commits(steps: seq<Step>, worker: int)
    decreases |steps|
  {
    && steps != []
    && (steps[0] == Commit(worker) || (steps[0] != Rollback(worker) && Commits(steps[1..], worker)))
  }

  /** Somewhere in the run a worker reads `audience` for `event` from the endpoints
      table, in a transaction that goes on to commit. */
  ghost predicate FannedOut(s: State, steps: seq<Step>, event: int, audience: set<int>)
    decreases |steps|
  {
    && steps != [] && Enabled(s, steps[0])
    && (|| (steps[0].FanOne? && steps[0].event == event && audience == Audience(s.endpoints, s.events[event])
            && Commits(steps[1..], steps[0].worker))
        || FannedOut(Next(s, steps[0]), steps[1..], event, audience))
  }

  lemma StagedBefore(s: State, step: Step, w: int, event: int, audience: set<int>)
    requires Enabled(s, step) && Staged(Next(s, step), w, event, audience)
    ensures step != Commit(w) && step != Rollback(w)
    ensures if step == FanOne(w, event) then audience == Audience(s.endpoints, s.events[event]) else Staged(s, w, event, audience)
  {}

  lemma ReachedBefore(s: State, step: Step, event: int)
    requires Enabled(s, step) && event in Next(s, step).reached
    ensures var audience := Next(s, step).reached[event];
      || (event in s.reached && s.reached[event] == audience)
      || (step.Commit? && Staged(s, step.worker, event, audience))
  {}

  ghost predicate Origin(s: State, steps: seq<Step>, event: int, audience: set<int>) {
    || (event in s.reached && s.reached[event] == audience)
    || (exists w :: Staged(s, w, event, audience) && Commits(steps, w))
    || FannedOut(s, steps, event, audience)
  }

  lemma OriginBefore(s: State, steps: seq<Step>, event: int, audience: set<int>)
    requires steps != [] && Enabled(s, steps[0]) && Origin(Next(s, steps[0]), steps[1..], event, audience)
    ensures Origin(s, steps, event, audience)
  {
    var mid := Next(s, steps[0]);
    if event in mid.reached && mid.reached[event] == audience {
      ReachedBefore(s, steps[0], event);
      assert steps[0].Commit? ==> Commits(steps, steps[0].worker);
    } else if w :| Staged(mid, w, event, audience) && Commits(steps[1..], w) {
      StagedBefore(s, steps[0], w, event, audience);
      assert Commits(steps, w);
    }
  }

  /** Where the audience on record at the end of a run came from. */
  lemma {:induction false} AudienceOrigin(s: State, steps: seq<Step>, t: State, event: int)
    requires Steps(s, steps, t) && event in t.reached
    ensures Origin(s, steps, event, t.reached[event])
    decreases |steps|
  {
    if steps != [] {
      AudienceOrigin(Next(s, steps[0]), steps[1..], t, event);
      OriginBefore(s, steps, event, t.reached[event]);
    }
  }

  /** From a fresh start, a sent event has a delivery for exactly the endpoints that
      were active, undeleted and subscribed when the transaction that sent it read them. */
  lemma SentToItsAudience(s: State, steps: seq<Step>, t: State, event: int)
    requires Initial(s) && Steps(s, steps, t)
    requires event in t.events && t.events[event].status == OutboxSent
    ensures event in t.reached && FannedOut(s, steps, event, t.reached[event])
    ensures forall p: int :: DeliveryId(p, event) in t.deliveries <==> p in t.reached[event]
  {
    InitialOk(s);
    FanoutRunKeeps(s, steps, t);
    AudienceOrigin(s, steps, t, event);
    forall p: int ensures DeliveryId(p, event) in t.deliveries <==> p in t.reached[event] {
      assert DeliveryId(p, event).event == event && DeliveryId(p, event).endpoint == p;
    }
  }

  // ---------------------------------------------------------------- a whole transaction

  lemma {:induction false} OneMore(s: State, steps: seq<Step>, t: State, step: Step)
    requires Steps(s, steps, t) && Enabled(t, step)
    ensures Steps(s, steps + [step], Next(t, step))
    decreases |steps|
  {
    if steps == [] {
      assert Steps(Next(t, step), [], Next(t, step));
      assert [step][1..] == [];
    } else {
      OneMore(Next(s, steps[0]), steps[1..], t, step);
      assert (steps + [step])[1..] == steps[1..] + [step];
    }
  }

  function FanSteps(worker: int, order: seq<int>): seq<Step> {
    if order == [] then [] else FanSteps(worker, order[..|order| - 1]) + [FanOne(worker, order[|order| - 1])]
  }

  function Audiences(endpoints: map<int, Endpoint>, events: map<int, Event>, chosen: set<int>): map<int, set<int>>
    requires chosen <= events.Keys
  {
    map e | e in chosen :: Audience(endpoints, events[e])
  }

  ghost function HalfWay(s: State, worker: int, chosen: set<int>, done: set<int>): State
    requires done <= s.events.Keys
  {
    s.(txs := s.txs[worker := Tx(s.now, chosen, Audiences(s.endpoints, s.events, done))])
  }

  lemma FanNext(s: State, worker: int, chosen: set<int>, done: set<int>, event: int)
    requires done <= s.events.Keys && event in s.events && event in chosen && event !in done
    ensures var mid := HalfWay(s, worker, chosen, done);
      Enabled(mid, FanOne(worker, event)) && Next(mid, FanOne(worker, event)) == HalfWay(s, worker, chosen, done + {event})
  {
    assert Audiences(s.endpoints, s.events, done)[event := Audience(s.endpoints, s.events[event])] == Audiences(s.endpoints, s.events, done + {event});
  }

  lemma BeginNext(s: State, worker: int, chosen: set<int>)
    requires Enabled(s, Begin(worker, chosen))
    ensures Next(s, Begin(worker, chosen)) == HalfWay(s, worker, chosen, {})
  {
    assert Audiences(s.endpoints, s.events, {}) == map[];
  }

  lemma FansOneMore(s: State, worker: int, chosen: set<int>, front: seq<int>, done: set<int>, event: int)
    requires done <= s.events.Keys && event in s.events && event in chosen && event !in done
    requires Steps(s, [Begin(worker, chosen)] + FanSteps(worker, front), HalfWay(s, worker, chosen, done))
    ensures Steps(s, [Begin(worker, chosen)] + FanSteps(worker, front + [event]), HalfWay(s, worker, chosen, done + {event}))
  {
    FanNext(s, worker, chosen, done, event);
    OneMore(s, [Begin(worker, chosen)] + FanSteps(worker, front), HalfWay(s, worker, chosen, done), FanOne(worker, event));
    assert (front + [event])[..|front|] == front;
    assert [Begin(worker, chosen)] + FanSteps(worker, front) + [FanOne(worker, event)] == [Begin(worker, chosen)] + FanSteps(worker, front + [event]);
  }

  lemma NothingFanned(s: State, worker: int, chosen: set<int>)
    requires Enabled(s, Begin(worker, chosen))
    ensures Steps(s, [Begin(worker, chosen)] + FanSteps(worker, []), HalfWay(s, worker, chosen, {}))
  {
    OneMore(s, [], s, Begin(worker, chosen));
    BeginNext(s, worker, chosen);
    assert [] + [Begin(worker, chosen)] == [Begin(worker, chosen)] + FanSteps(worker, []);
  }

  lemma {:induction false} FansAll(s: State, worker: int, chosen: set<int>, order: seq<int>)
    requires Enabled(s, Begin(worker, chosen)) && chosen <= s.events.Keys
    requires (forall i :: 0 <= i < |order| ==> order[i] in chosen) && forall i, j :: 0 <= i < j < |order| ==> order[i] != order[j]
    ensures (set e | e in order) <= s.events.Keys
    ensures Steps(s, [Begin(worker, chosen)] + FanSteps(worker, order), HalfWay(s, worker, chosen, (set e | e in order)))
    decreases |order|
  {
    if order == [] {
      NothingFanned(s, worker, chosen);
      assert (set e | e in order) == {};
    } else {
      var front, last := order[..|order| - 1], order[|order| - 1];
      FansAll(s, worker, chosen, front);
      FansOneMore(s, worker, chosen, front, (set e | e in front), last);
      assert front + [last] == order && (set e | e in order) == (set e | e in front) + {last};
    }
  }

  lemma ListedAre(order: seq<int>, chosen: set<int>)
    requires (forall e :: e in chosen <==> e in order)
    ensures (set e | e in order) == chosen && forall i :: 0 <= i < |order| ==> order[i] in chosen
  {
    forall i | 0 <= i < |order| ensures order[i] in chosen {
      var e := order[i];
      assert e in order;
    }
    forall e ensures e in (set x | x in order) <==> e in chosen {}
  }

  lemma CommitNext(s: State, worker: int, chosen: set<int>)
    requires chosen <= s.events.Keys && worker !in s.txs
    ensures var mid := HalfWay(s, worker, chosen, chosen);
      && Enabled(mid, Commit(worker))
      && var t := Next(mid, Commit(worker));
         && t.events == MarkSent(s.events, chosen) && t.txs == s.txs && t.now == s.now && t.endpoints == s.endpoints
         && t.deliveries == Publish(s.deliveries, Audiences(s.endpoints, s.events, chosen), s.now)
  {
    var mid := HalfWay(s, worker, chosen, chosen);
    assert mid.txs[worker].staged.Keys == chosen;
    assert Next(mid, Commit(worker)).txs == s.txs;
  }

  /** A fan-out can always be carried through: from any state in which a transaction may
      begin, reading its events one after the other and committing sends them all. */
  lemma FanoutGoesThrough(s: State, worker: int, chosen: set<int>, order: seq<int>)
    requires Enabled(s, Begin(worker, chosen)) && chosen <= s.events.Keys
    requires (forall e :: e in chosen <==> e in order) && forall i, j :: 0 <= i < j < |order| ==> order[i] != order[j]
    ensures exists t :: Steps(s, [Begin(worker, chosen)] + FanSteps(worker, order) + [Commit(worker)], t)
              && t.events == MarkSent(s.events, chosen) && t.txs == s.txs && t.now == s.now && t.endpoints == s.endpoints
              && t.deliveries == Publish(s.deliveries, Audiences(s.endpoints, s.events, chosen), s.now)
  {
    ListedAre(order, chosen);
    FansAll(s, worker, chosen, order);
    CommitNext(s, worker, chosen);
    OneMore(s, [Begin(worker, chosen)] + FanSteps(worker, order), HalfWay(s, worker, chosen, chosen), Commit(worker));
  }

  /** An open transaction reads each of its events once, may commit when it has read them
      all, and may be rolled back at any time, which leaves nothing of it. */
  lemma TransactionSteps(s: State, worker: int, event: int)
    ensures Enabled(s, FanOne(worker, event))
      <==> worker in s.txs && event in s.txs[worker].locked && event !in s.txs[worker].staged && event in s.events
    ensures Enabled(s, Commit(worker)) <==> worker in s.txs && s.txs[worker].staged.Keys == s.txs[worker].locked
    ensures Enabled(s, Rollback(worker)) <==> worker in s.txs
    ensures Enabled(s, Rollback(worker)) ==> Next(s, Rollback(worker)) == s.(txs := s.txs - {worker})
  {}

  /** What happens around the transactions: time goes on, events are published under new
      ids with nothing delivered for them yet, endpoints and deliveries are rewritten. */
  lemma OutsideSteps(s: State, now: Moment, event: int, posted: Event, endpoint: int, rewritten: Endpoint, id: DeliveryId, touched: Delivery)
    ensures Enabled(s, Tick(now)) <==> now >= s.now
    ensures Enabled(s, Tick(now)) ==> Next(s, Tick(now)) == s.(now := now)
    ensures Enabled(s, PublishEvent(event, posted))
      <==> event !in s.events && posted.status == OutboxPending && forall id :: id in s.deliveries ==> id.event != event
    ensures Enabled(s, PublishEvent(event, posted)) ==> Next(s, PublishEvent(event, posted)) == s.(events := s.events[event := posted])
    ensures Enabled(s, WriteEndpoint(endpoint, rewritten))
    ensures Next(s, WriteEndpoint(endpoint, rewritten)) == s.(endpoints := s.endpoints[endpoint := rewritten])
    ensures Enabled(s, TouchDelivery(id, touched)) <==> id in s.deliveries
    ensures Enabled(s, TouchDelivery(id, touched)) ==> Next(s, TouchDelivery(id, touched)) == s.(deliveries := s.deliveries[id := touched])
  {}
}
