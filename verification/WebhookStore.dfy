/** One worker's passes over the tables, as the code runs them: the fan-out loop and
    the claim, post and write-back of a single delivery. */
module WebhookStore {
  import opened Backoff
  import opened Prelude
  import opened Webhooks
  import Fanout = WebhookFanout
  import Protocol = WebhookDelivery

  /** What became of the request: never sent (unreadable secret, address refused),
      sent without a 2xx answer, or accepted. */
  datatype Outcome = NotSent | Refused | Accepted

  lemma SameAudience(endpoints: map<int, Endpoint>, e: Event, f: Event)
    requires e.company == f.company && e.kind == f.kind
    ensures Audience(endpoints, e) == Audience(endpoints, f)
  {
    forall p | p in endpoints ensures Subscribed(endpoints[p], e) == Subscribed(endpoints[p], f) {}
  }

  lemma PublishHas(before: map<DeliveryId, Delivery>, staged: map<int, set<int>>, now: Moment, id: DeliveryId)
    ensures id in Fanout.Publish(before, staged, now) <==> (id in before || (id.event in staged && id.endpoint in staged[id.event]))
    ensures id in Fanout.Publish(before, staged, now)
      ==> Fanout.Publish(before, staged, now)[id] == if id in before then before[id] else NewDelivery(DEFAULT_MAX_ATTEMPTS, now)
  {
    assert id == DeliveryId(id.endpoint, id.event);
  }

  /** The deliveries of a fan-out: those there were, and a waiting one with eight attempts
      for each outbound endpoint of an event's company that is active, not deleted, and
      subscribed to the event's kind or to every kind. */
  lemma PublishedColumns(before: map<DeliveryId, Delivery>, endpoints: map<int, Endpoint>, events: map<int, Event>, chosen: set<int>, now: Moment)
    requires chosen <= events.Keys
    ensures var after := Fanout.Publish(before, Fanout.Audiences(endpoints, events, chosen), now);
      && (forall id :: id in after <==>
            || id in before
            || (&& id.event in chosen && id.endpoint in endpoints && events[id.event].company == Some(endpoints[id.endpoint].company)
                && endpoints[id.endpoint].outbound && !endpoints[id.endpoint].deleted && endpoints[id.endpoint].status == EndpointActive
                && (endpoints[id.endpoint].kinds == {} || events[id.event].kind in endpoints[id.endpoint].kinds)))
      && (forall id :: id in after ==> after[id] == if id in before then before[id] else Delivery(Waiting, 0, 8, now))
  {
    forall id { PublishHas(before, Fanout.Audiences(endpoints, events, chosen), now, id); }
  }

  lemma PublishOneMoreAt(before: map<DeliveryId, Delivery>, staged: map<int, set<int>>, event: int, audience: set<int>, now: Moment, id: DeliveryId)
    requires event in staged ==> staged[event] == audience
    ensures var more := Fanout.Publish(before, staged[event := audience], now);
      var added := WithDeliveries(Fanout.Publish(before, staged, now), event, audience, now);
      (id in added <==> id in more) && (id in added ==> added[id] == more[id])
  {
    PublishHas(before, staged, now, id);
    PublishHas(before, staged[event := audience], now, id);
  }

  /** One more event handled by the loop. */
  lemma PublishOneMore(before: map<DeliveryId, Delivery>, staged: map<int, set<int>>, event: int, audience: set<int>, now: Moment)
    requires event in staged ==> staged[event] == audience
    ensures WithDeliveries(Fanout.Publish(before, staged, now), event, audience, now)
         == Fanout.Publish(before, staged[event := audience], now)
  {
    var more := Fanout.Publish(before, staged[event := audience], now);
    var added := WithDeliveries(Fanout.Publish(before, staged, now), event, audience, now);
    forall id ensures (id in added <==> id in more) && (id in added ==> added[id] == more[id]) {
      PublishOneMoreAt(before, staged, event, audience, now, id);
    }
    assert added == more;
  }

  lemma AudienceOneMore(endpoints: map<int, Endpoint>, events: map<int, Event>, done: set<int>, event: int)
    requires done <= events.Keys && event in events
    ensures Fanout.Audiences(endpoints, events, done + {event}) == Fanout.Audiences(endpoints, events, done)[event := Audience(endpoints, events[event])]
  {}

  lemma MarkOneMore(events: map<int, Event>, done: set<int>, event: int)
    requires event in events
    ensures var marked := Fanout.MarkSent(events, done);
      marked[event := marked[event].(status := OutboxSent)] == Fanout.MarkSent(events, done + {event})
  {}

  /** What one whole pass over `id` leaves behind. */
  function RowAfter(d: Delivery, outcome: Outcome, now: Moment): Delivery {
    if outcome.Accepted? then SucceedRow(d)
    else if d.attempts + 1 >= POWER_OVERFLOW then ClaimRow(d)
    else FailRow(d, d.attempts, d.maxAttempts, now)
  }

  function EndpointAfter(p: Endpoint, d: Delivery, outcome: Outcome): Endpoint {
    if outcome.Accepted? then ResetEndpoint(p)
    else if d.attempts + 1 >= POWER_OVERFLOW then p
    else CountFailure(p)
  }

  function OutcomesAfter(s: Protocol.State, id: DeliveryId, outcome: Outcome): map<int, seq<bool>>
    requires id in s.deliveries
  {
    if !outcome.Accepted? && s.deliveries[id].attempts + 1 >= POWER_OVERFLOW then s.outcomes
    else s.outcomes[id.endpoint := Protocol.OutcomesOf(s, id.endpoint) + [outcome.Accepted?]]
  }

  ghost function Delivered(s: Protocol.State, id: DeliveryId, outcome: Outcome): Protocol.State
    requires id in s.deliveries && id.endpoint in s.endpoints
  {
    var d := s.deliveries[id];
    s.(deliveries := s.deliveries[id := RowAfter(d, outcome, s.now)],
       endpoints := s.endpoints[id.endpoint := EndpointAfter(s.endpoints[id.endpoint], d, outcome)],
       posts := if outcome.NotSent? then s.posts else s.posts[id := Protocol.PostCount(s, id) + 1],
       outcomes := OutcomesAfter(s, id, outcome))
  }

  /** Up to the write-back: claimed, and posted unless it could not be. */
  function Opening(worker: int, id: DeliveryId, outcome: Outcome): seq<Protocol.Step> {
    if outcome.NotSent? then [Protocol.Claim(worker, id)] else [Protocol.Claim(worker, id)] + [Protocol.Post(worker)]
  }

  ghost function Opened(s: Protocol.State, worker: int, id: DeliveryId, outcome: Outcome): Protocol.State
    requires id in s.deliveries
  {
    var d := s.deliveries[id];
    s.(deliveries := s.deliveries[id := ClaimRow(d)],
       holds := s.holds[worker := Protocol.Hold(id, d.attempts, d.maxAttempts, if outcome.NotSent? then Protocol.Claimed else Protocol.Posted)],
       posts := if outcome.NotSent? then s.posts else s.posts[id := Protocol.PostCount(s, id) + 1])
  }

  lemma OpeningRuns(s: Protocol.State, worker: int, id: DeliveryId, outcome: Outcome)
    requires Protocol.Enabled(s, Protocol.Claim(worker, id))
    ensures Protocol.Steps(s, Opening(worker, id, outcome), Opened(s, worker, id, outcome))
  {
    Protocol.OneMore(s, [], s, Protocol.Claim(worker, id));
    if !outcome.NotSent? {
      var claimed := Protocol.Next(s, Protocol.Claim(worker, id));
      Protocol.OneMore(s, [Protocol.Claim(worker, id)], claimed, Protocol.Post(worker));
      var posted := Protocol.Next(claimed, Protocol.Post(worker));
      assert posted.holds == Opened(s, worker, id, outcome).holds;
    }
  }

  function Closing(s: Protocol.State, worker: int, outcome: Outcome): seq<Protocol.Step>
    requires worker in s.holds
  {
    if outcome.Accepted? then [Protocol.Succeed(worker)] + [Protocol.Count(worker)]
    else if Protocol.Overflows(s.holds[worker]) then [Protocol.Fail(worker)]
    else [Protocol.Fail(worker)] + [Protocol.Count(worker)]
  }

  ghost function Closed(s: Protocol.State, worker: int, outcome: Outcome): Protocol.State
    requires worker in s.holds && s.holds[worker].id in s.deliveries && s.holds[worker].id.endpoint in s.endpoints
  {
    var id := s.holds[worker].id;
    var d := s.deliveries[id];
    s.(deliveries := s.deliveries[id := RowAfter(d, outcome, s.now)],
       endpoints := s.endpoints[id.endpoint := EndpointAfter(s.endpoints[id.endpoint], d, outcome)],
       outcomes := OutcomesAfter(s, id, outcome), holds := s.holds - {worker})
  }

  ghost predicate Held(s: Protocol.State, worker: int, outcome: Outcome) {
    && worker in s.holds && s.holds[worker].id in s.deliveries && s.holds[worker].id.endpoint in s.endpoints
    && s.deliveries[s.holds[worker].id].status == Processing
    && s.holds[worker].attempts == s.deliveries[s.holds[worker].id].attempts
    && s.holds[worker].maxAttempts == s.deliveries[s.holds[worker].id].maxAttempts
    && s.holds[worker].phase == if outcome.NotSent? then Protocol.Claimed else Protocol.Posted
  }

  lemma ClosingRuns(s: Protocol.State, worker: int, outcome: Outcome)
    requires Held(s, worker, outcome)
    ensures Protocol.Steps(s, Closing(s, worker, outcome), Closed(s, worker, outcome))
  {
    var first := if outcome.Accepted? then Protocol.Succeed(worker) else Protocol.Fail(worker);
    Protocol.OneMore(s, [], s, first);
    var written := Protocol.Next(s, first);
    if outcome.Accepted? || !Protocol.Overflows(s.holds[worker]) {
      Protocol.OneMore(s, [first], written, Protocol.Count(worker));
      var counted := Protocol.Next(written, Protocol.Count(worker));
      assert counted.holds == Closed(s, worker, outcome).holds;
    } else {
      assert s.deliveries[s.holds[worker].id := ClaimRow(s.deliveries[s.holds[worker].id])] == s.deliveries;
    }
  }

  function Trace(s: Protocol.State, worker: int, id: DeliveryId, outcome: Outcome): seq<Protocol.Step>
    requires id in s.deliveries
  {
    Opening(worker, id, outcome)
    + (if outcome.Accepted? then [Protocol.Succeed(worker)] + [Protocol.Count(worker)]
       else if s.deliveries[id].attempts + 1 >= POWER_OVERFLOW then [Protocol.Fail(worker)]
       else [Protocol.Fail(worker)] + [Protocol.Count(worker)])
  }

  /** A whole pass is a run of the protocol. */
  lemma PassIsARun(s: Protocol.State, worker: int, id: DeliveryId, outcome: Outcome)
    requires Protocol.Enabled(s, Protocol.Claim(worker, id))
    ensures Protocol.Steps(s, Trace(s, worker, id, outcome), Delivered(s, id, outcome))
  {
    var mid := Opened(s, worker, id, outcome);
    OpeningRuns(s, worker, id, outcome);
    ClosingRuns(mid, worker, outcome);
    Protocol.Joined(s, Opening(worker, id, outcome), mid, Closing(mid, worker, outcome), Closed(mid, worker, outcome));
    SameEnd(s, worker, id, outcome);
  }

  lemma SameEnd(s: Protocol.State, worker: int, id: DeliveryId, outcome: Outcome)
    requires Protocol.Enabled(s, Protocol.Claim(worker, id))
    ensures Closed(Opened(s, worker, id, outcome), worker, outcome) == Delivered(s, id, outcome)
  {
    var end, goal := Closed(Opened(s, worker, id, outcome), worker, outcome), Delivered(s, id, outcome);
    assert end.holds == goal.holds;
    assert end.deliveries == goal.deliveries;
  }

  /** What a pass leaves of the delivery: accepted, it has succeeded; otherwise it is dead
      on its last attempt, or due again after the delay of the new attempt; from the
      thirty-first attempt on the failure is not written and it stays `processing`. */
  lemma DeliveredRow(s: Protocol.State, id: DeliveryId, outcome: Outcome)
    requires id in s.deliveries && id.endpoint in s.endpoints
    ensures var d, n := s.deliveries[id], s.deliveries[id].attempts + 1;
      Delivered(s, id, outcome).deliveries[id] ==
        if outcome == Accepted then Delivery(Succeeded, n, d.maxAttempts, d.due)
        else if n >= 31 then Delivery(Processing, d.attempts, d.maxAttempts, d.due)
        else Delivery(if n >= d.maxAttempts then Dead else Failed, n, d.maxAttempts, s.now + if n >= 12 then 3600 else Pow2(n))
  {
    RetryDelayShape(0, s.deliveries[id].attempts + 1);
  }

  /** And of its endpoint: the failures in a row, and `error` from the twentieth on. */
  lemma DeliveredEndpoint(s: Protocol.State, id: DeliveryId, outcome: Outcome)
    requires id in s.deliveries && id.endpoint in s.endpoints
    ensures var p, n := s.endpoints[id.endpoint], s.endpoints[id.endpoint].failures + 1;
      Delivered(s, id, outcome).endpoints[id.endpoint] ==
        if outcome == Accepted then p.(failures := 0)
        else if s.deliveries[id].attempts + 1 >= 31 then p
        else p.(failures := n, status := if n >= 20 then EndpointError else p.status)
  {}

  class Store {
    var now: Moment
    var events: map<int, Event>
    var endpoints: map<int, Endpoint>
    var deliveries: map<DeliveryId, Delivery>
    ghost var holds: map<int, Protocol.Hold>
    ghost var posts: map<DeliveryId, nat>
    ghost var outcomes: map<int, seq<bool>>

    constructor (now: Moment)
      ensures Protocol.Initial(AsState()) && events == map[] && this.now == now
    {
      this.now := now;
      events, endpoints, deliveries := map[], map[], map[];
      holds, posts, outcomes := map[], map[], map[];
    }

    /** The store as a state of the delivery protocol. */
    ghost function AsState(): Protocol.State
      reads this
    {
      Protocol.State(now, endpoints, deliveries, holds, posts, outcomes)
    }

    /** One committed fan-out over the rows the SELECT returned, in its order: every
        chosen event is sent, and its audience is what the endpoints table held. */
    method FanoutOutbox(chosen: seq<int>)
      requires forall i :: 0 <= i < |chosen| ==> chosen[i] in events && Fannable(events[chosen[i]], now)
      modifies this`events, this`deliveries
      ensures events == Fanout.MarkSent(old(events), set e | e in chosen)
      ensures deliveries
           == Fanout.Publish(old(deliveries), Fanout.Audiences(endpoints, old(events), set e | e in chosen), now)
    {
      ghost var found, before := events, deliveries;
      var i := 0;
      ghost var done: set<int> := {};
      assert Fanout.Audiences(endpoints, found, {}) == map[];
      while i < |chosen|
        invariant 0 <= i <= |chosen| && done == (set e | e in chosen[..i]) && done <= found.Keys
        invariant events == Fanout.MarkSent(found, done)
        invariant deliveries == Fanout.Publish(before, Fanout.Audiences(endpoints, found, done), now)
      {
        var e := chosen[i];
        assert chosen[..i + 1] == chosen[..i] + [e];
        SameAudience(endpoints, events[e], found[e]);
        AudienceOneMore(endpoints, found, done, e);
        PublishOneMore(before, Fanout.Audiences(endpoints, found, done), e, Audience(endpoints, found[e]), now);
        MarkOneMore(found, done, e);
        deliveries := WithDeliveries(deliveries, e, Audience(endpoints, events[e]), now);
        events := events[e := events[e].(status := OutboxSent)];
        done := done + {e};
        i := i + 1;
      }
      assert chosen[..i] == chosen;
    }

    /** The write-back of a failed attempt: the row, then the endpoint. It does
        nothing at all when the delay is out of the column's range. */
    method FailWebhookDelivery(worker: int, id: DeliveryId, attempts: nat, maxAttempts: nat)
      requires Held(AsState(), worker, NotSent) || Held(AsState(), worker, Refused)
      requires holds[worker] == Protocol.Hold(id, attempts, maxAttempts, holds[worker].phase)
      modifies this
      ensures AsState() == Closed(old(AsState()), worker, Refused) && events == old(events)
      ensures id in deliveries && deliveries[id] ==
        if attempts >= 30 then old(deliveries)[id]
        else Delivery(if attempts + 1 >= maxAttempts then Dead else Failed, attempts + 1, maxAttempts,
                      now + if attempts + 1 >= 12 then 3600 else Pow2(attempts + 1))
    {
      RetryDelayShape(0, attempts + 1);
      ghost var s := AsState();
      if attempts + 1 < POWER_OVERFLOW {
        deliveries := deliveries[id := FailRow(deliveries[id], attempts, maxAttempts, now)];
        endpoints := endpoints[id.endpoint := CountFailure(endpoints[id.endpoint])];
        outcomes := OutcomesAfter(s, id, Refused);
      } else {
        assert deliveries == deliveries[id := ClaimRow(deliveries[id])];
        assert endpoints == endpoints[id.endpoint := endpoints[id.endpoint]];
      }
      holds := holds - {worker};
    }

    /** One pass: the delivery the claim statement found, if any, is claimed, posted
        unless it could not be, and written back. */
    method DeliverNextWebhook(worker: int, found: Option<DeliveryId>, outcome: Outcome)
      requires worker !in holds
      requires found.Some? ==> NextInLine(deliveries, endpoints, now, found.value)
      modifies this
      ensures AsState() == if found.Some? then Delivered(old(AsState()), found.value, outcome) else old(AsState())
      ensures events == old(events)
      ensures found.Some? && outcome != Accepted && old(deliveries)[found.value].attempts < 30 ==>
        var n := old(deliveries)[found.value].attempts + 1;
        && found.value in deliveries && deliveries[found.value].attempts == n
        && deliveries[found.value].due == now + (if n >= 12 then 3600 else Pow2(n))
    {
      if found.None? { return; }
      var id := found.value;
      DeliveredRow(AsState(), id, outcome);
      SameEnd(AsState(), worker, id, outcome);
      var attempts, maxAttempts := ClaimAndPost(worker, id, outcome);
      if outcome.Accepted? {
        SucceedDelivery(worker, id);
      } else {
        FailWebhookDelivery(worker, id, attempts, maxAttempts);
      }
    }

    /** The claim statement and, unless it could not be sent, the request. */
    method ClaimAndPost(worker: int, id: DeliveryId, outcome: Outcome) returns (attempts: nat, maxAttempts: nat)
      requires worker !in holds && NextInLine(deliveries, endpoints, now, id)
      modifies this
      ensures AsState() == Opened(old(AsState()), worker, id, outcome) && events == old(events)
      ensures attempts == old(deliveries)[id].attempts && maxAttempts == old(deliveries)[id].maxAttempts
    {
      ghost var s := AsState();
      attempts, maxAttempts := deliveries[id].attempts, deliveries[id].maxAttempts;
      deliveries := deliveries[id := ClaimRow(deliveries[id])];
      holds := holds[worker := Protocol.Hold(id, attempts, maxAttempts, if outcome.NotSent? then Protocol.Claimed else Protocol.Posted)];
      if !outcome.NotSent? {
        posts := posts[id := Protocol.PostCount(s, id) + 1];
      }
    }

    /** The write-back of an accepted request: the row, then the endpoint. */
    method SucceedDelivery(worker: int, id: DeliveryId)
      requires Held(AsState(), worker, Accepted) && holds[worker].id == id
      modifies this
      ensures AsState() == Closed(old(AsState()), worker, Accepted) && events == old(events)
    {
      ghost var s := AsState();
      deliveries := deliveries[id := SucceedRow(deliveries[id])];
      endpoints := endpoints[id.endpoint := ResetEndpoint(endpoints[id.endpoint])];
      outcomes := OutcomesAfter(s, id, Accepted);
      holds := holds - {worker};
    }
  }
}
