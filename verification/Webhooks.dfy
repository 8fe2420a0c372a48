/** Outbox events, webhook endpoints and deliveries, and the row updates the
    workers issue. */
module Webhooks {
  import opened Backoff
  import opened Prelude

  type Moment = int     // seconds

  datatype OutboxStatus = OutboxPending | OutboxFailed | OutboxSent
  datatype Event = Event(company: Option<int>, kind: int, status: OutboxStatus, availableAt: Moment, createdAt: Moment)

  datatype EndpointStatus = EndpointActive | EndpointPaused | EndpointDisabled | EndpointError
  datatype Endpoint = Endpoint(
    company: int, outbound: bool, deleted: bool, kinds: set<int>, status: EndpointStatus, failures: nat)

  datatype DeliveryStatus = Waiting | Processing | Succeeded | Failed | Dead

  /** UNIQUE (endpoint_id, event_id, direction), outbound only. */
  datatype DeliveryId = DeliveryId(endpoint: int, event: int)
  datatype Delivery = Delivery(status: DeliveryStatus, attempts: nat, maxAttempts: nat, due: Moment)

  const DEFAULT_MAX_ATTEMPTS := 8
  const BREAKER_LIMIT := 20

  // ---------------------------------------------------------------- fan-out

  predicate Subscribed(p: Endpoint, e: Event) {
    && e.company == Some(p.company) && p.outbound && p.status == EndpointActive && !p.deleted
    && (p.kinds == {} || e.kind in p.kinds)
  }

  /** The endpoints the INSERT ... SELECT finds for an event. */
  function Audience(endpoints: map<int, Endpoint>, e: Event): set<int> {
    set p | p in endpoints && Subscribed(endpoints[p], e)
  }

  predicate Fannable(e: Event, now: Moment) {
    (e.status == OutboxPending || e.status == OutboxFailed) && e.availableAt <= now && e.company.Some?
  }

  function NewDelivery(maxAttempts: nat, now: Moment): Delivery { Delivery(Waiting, 0, maxAttempts, now) }

  /** The INSERT with ON CONFLICT DO NOTHING: an existing delivery stays. */
  function WithDeliveries(deliveries: map<DeliveryId, Delivery>, event: int, audience: set<int>, now: Moment): (r: map<DeliveryId, Delivery>)
    ensures forall id :: id in r <==> id in deliveries || (id.event == event && id.endpoint in audience)
    ensures forall id :: id in r ==> r[id] == if id in deliveries then deliveries[id] else NewDelivery(DEFAULT_MAX_ATTEMPTS, now)
  {
    (map p | p in audience :: DeliveryId(p, event) := NewDelivery(DEFAULT_MAX_ATTEMPTS, now)) + deliveries
  }

  // ---------------------------------------------------------------- delivery

  predicate Claimable(deliveries: map<DeliveryId, Delivery>, endpoints: map<int, Endpoint>, id: DeliveryId) {
    && id in deliveries && (deliveries[id].status == Waiting || deliveries[id].status == Failed)
    && id.endpoint in endpoints && endpoints[id.endpoint].status == EndpointActive
  }

  /** Chosen by ORDER BY next_attempt_at LIMIT 1 among those due. */
  ghost predicate NextInLine(deliveries: map<DeliveryId, Delivery>, endpoints: map<int, Endpoint>, now: Moment, id: DeliveryId) {
    && Claimable(deliveries, endpoints, id) && deliveries[id].due <= now
    && forall other :: Claimable(deliveries, endpoints, other) ==> deliveries[id].due <= deliveries[other].due
  }

  function ClaimRow(d: Delivery): Delivery { d.(status := Processing) }

  function SucceedRow(d: Delivery): Delivery { d.(status := Succeeded, attempts := d.attempts + 1) }

  /** The UPDATE of failWebhookDelivery, from the attempt count read at the claim. */
  function FailRow(d: Delivery, attempts: nat, maxAttempts: nat, now: Moment): Delivery {
    var next := attempts + 1;
    d.(status := if next >= maxAttempts then Dead else Failed, attempts := next, due := now + RetryDelay(next))
  }

  function ResetEndpoint(p: Endpoint): Endpoint { p.(failures := 0) }

  function CountFailure(p: Endpoint): Endpoint {
    p.(failures := p.failures + 1, status := if p.failures + 1 >= BREAKER_LIMIT then EndpointError else p.status)
  }
}
