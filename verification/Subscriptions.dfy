/** A company's subscription rows: admin updates, the lifecycle sweep, the write gate
    and the entitlement lookup. */
module Subscriptions {
  import opened Prelude

  type Moment = int

  datatype Status = Trial | Active | PastDue | Cancelled | Expired
  datatype Subscription = Subscription(plan: string, status: Status, createdAt: Moment, endsAt: Option<Moment>)

  predicate Current(status: Status) { status.Trial? || status.Active? || status.PastDue? }

  /** The unique partial index on the current statuses. */
  predicate OneCurrent(rows: seq<Subscription>) {
    forall i, j :: 0 <= i < j < |rows| ==> !(Current(rows[i].status) && Current(rows[j].status))
  }

  predicate Newest(rows: seq<Subscription>, i: nat) {
    i < |rows| && forall j :: 0 <= j < |rows| && j != i ==> rows[j].createdAt < rows[i].createdAt
  }

  /** The current row, if there is one, is the newest row of the company. */
  predicate NewestIsCurrent(rows: seq<Subscription>) {
    forall i :: 0 <= i < |rows| && Current(rows[i].status) ==> Newest(rows, i)
  }

  function CancelledRow(r: Subscription): Subscription { if Current(r.status) then r.(status := Cancelled) else r }

  /** Cancel what is current, insert the new row; `createdAt` is when the transaction began. */
  function Replaced(rows: seq<Subscription>, plan: string, status: Status, createdAt: Moment, endsAt: Option<Moment>): seq<Subscription> {
    seq(|rows|, i requires 0 <= i < |rows| => CancelledRow(rows[i])) + [Subscription(plan, status, createdAt, endsAt)]
  }

  function SweptRow(r: Subscription, now: Moment): Subscription {
    if (r.status.Trial? || r.status.Active?) && r.endsAt.Some? && r.endsAt.value <= now then r.(status := Expired) else r
  }

  function Swept(rows: seq<Subscription>, now: Moment): seq<Subscription> {
    seq(|rows|, i requires 0 <= i < |rows| => SweptRow(rows[i], now))
  }

  datatype Step =
    | AdminUpdate(plan: string, status: Status, createdAt: Moment, endsAt: Option<Moment>)
    | Sweep(now: Moment)

  function Next(rows: seq<Subscription>, step: Step): seq<Subscription> {
    match step
    case AdminUpdate(plan, status, createdAt, endsAt) => Replaced(rows, plan, status, createdAt, endsAt)
    case Sweep(now) => Swept(rows, now)
  }

  function Run(rows: seq<Subscription>, steps: seq<Step>): seq<Subscription>
    decreases |steps|
  {
    if steps == [] then rows else Run(Next(rows, steps[0]), steps[1..])
  }

  /** Later than every row there is. */
  predicate After(rows: seq<Subscription>, createdAt: Moment) { forall i :: 0 <= i < |rows| ==> rows[i].createdAt < createdAt }

  // ---------------------------------------------------------------- one live row, and it is the newest

  /** Whatever the order of creation times, an admin update and a sweep keep at most
      one current row. */
  lemma StepKeepsOneCurrent(rows: seq<Subscription>, step: Step)
    requires OneCurrent(rows)
    ensures OneCurrent(Next(rows, step))
  {}

  /** An admin update leaves a current row that is the newest exactly when the row it
      inserts is not current, or began after every other row did. */
  lemma UpdateKeepsNewestIff(rows: seq<Subscription>, plan: string, status: Status, createdAt: Moment, endsAt: Option<Moment>)
    ensures NewestIsCurrent(Replaced(rows, plan, status, createdAt, endsAt)) <==> (!Current(status) || After(rows, createdAt))
  {
    var after := Replaced(rows, plan, status, createdAt, endsAt);
    var last := |rows|;
    assert forall i :: 0 <= i < last ==> after[i] == CancelledRow(rows[i]);
    assert after[last] == Subscription(plan, status, createdAt, endsAt);
    assert Newest(after, last) <==> After(rows, createdAt) by {
      assert forall j :: 0 <= j < last ==> after[j].createdAt == rows[j].createdAt;
      if Newest(after, last) {
        forall j | 0 <= j < last ensures rows[j].createdAt < createdAt { assert after[j].createdAt < after[last].createdAt; }
      }
    }
  }

  lemma SweepKeepsNewest(rows: seq<Subscription>, now: Moment)
    requires NewestIsCurrent(rows)
    ensures NewestIsCurrent(Swept(rows, now))
  {
    var after := Swept(rows, now);
    forall i | 0 <= i < |after| && Current(after[i].status) ensures Newest(after, i) {
      assert Current(rows[i].status) && Newest(rows, i);
    }
  }

  /** An update cancels the trial, active and overdue rows, leaves the others, and appends
      the new one. */
  lemma UpdateEffect(rows: seq<Subscription>, plan: string, status: Status, createdAt: Moment, endsAt: Option<Moment>)
    ensures var after := Next(rows, AdminUpdate(plan, status, createdAt, endsAt));
      && |after| == |rows| + 1 && after[|rows|] == Subscription(plan, status, createdAt, endsAt)
      && forall i :: 0 <= i < |rows| ==>
           after[i] == if rows[i].status == Trial || rows[i].status == Active || rows[i].status == PastDue then rows[i].(status := Cancelled) else rows[i]
  {}

  /** A sweep expires the trial and active rows whose end has come, and no others. */
  lemma SweepEffect(rows: seq<Subscription>, now: Moment)
    ensures var after := Next(rows, Sweep(now));
      && |after| == |rows|
      && forall i :: 0 <= i < |rows| ==>
           after[i] == if (rows[i].status == Trial || rows[i].status == Active) && rows[i].endsAt != None && rows[i].endsAt.value <= now
                       then rows[i].(status := Expired) else rows[i]
  {}

  /** Updates made one after the other have increasing creation times. */
  predicate Serial(rows: seq<Subscription>, steps: seq<Step>)
    decreases |steps|
  {
    steps == [] || ((steps[0].AdminUpdate? ==> After(rows, steps[0].createdAt)) && Serial(Next(rows, steps[0]), steps[1..]))
  }

  /** Over any run of serial updates and sweeps: at most one current row, the newest. */
  lemma {:induction false} OneLiveAndNewest(rows: seq<Subscription>, steps: seq<Step>)
    requires OneCurrent(rows) && NewestIsCurrent(rows) && Serial(rows, steps)
    ensures OneCurrent(Run(rows, steps)) && NewestIsCurrent(Run(rows, steps))
    decreases |steps|
  {
    if steps != [] {
      StepKeepsOneCurrent(rows, steps[0]);
      match steps[0] {
        case AdminUpdate(plan, status, createdAt, endsAt) => UpdateKeepsNewestIff(rows, plan, status, createdAt, endsAt);
        case Sweep(now) => SweepKeepsNewest(rows, now);
      }
      OneLiveAndNewest(Next(rows, steps[0]), steps[1..]);
    }
  }

  /** A company starts with one subscription row at most. */
  lemma SingleRowOk(rows: seq<Subscription>)
    requires |rows| <= 1
    ensures OneCurrent(rows) && NewestIsCurrent(rows)
  {}

  // ---------------------------------------------------------------- the readers

  /** ORDER BY created_at DESC LIMIT 1. */
  predicate ReadByGate(rows: seq<Subscription>, i: nat) {
    i < |rows| && forall j :: 0 <= j < |rows| ==> rows[j].createdAt <= rows[i].createdAt
  }

  /** The same among the current rows only. */
  predicate ReadByLookup(rows: seq<Subscription>, i: nat) {
    i < |rows| && Current(rows[i].status) && forall j :: 0 <= j < |rows| && Current(rows[j].status) ==> rows[j].createdAt <= rows[i].createdAt
  }

  /** The lookup finds something exactly when there is a trial, active or overdue row, and
      reads one of these, no older than any other. */
  lemma {:induction false} LookupFinds(rows: seq<Subscription>)
    ensures (exists i: nat :: ReadByLookup(rows, i))
      <==> exists j :: 0 <= j < |rows| && (rows[j].status == Trial || rows[j].status == Active || rows[j].status == PastDue)
    ensures forall i: nat :: ReadByLookup(rows, i) ==>
      && i < |rows| && (rows[i].status == Trial || rows[i].status == Active || rows[i].status == PastDue)
      && forall j :: 0 <= j < |rows| && rows[j].status != Cancelled && rows[j].status != Expired ==> rows[j].createdAt <= rows[i].createdAt
    decreases |rows|
  {
    if i: nat :| ReadByLookup(rows, i) { assert rows[i].status == Trial || rows[i].status == Active || rows[i].status == PastDue; }
    if rows != [] {
      var m := |rows| - 1;
      var front := rows[..m];
      LookupFinds(front);
      if i: nat :| ReadByLookup(front, i) {
        assert ReadByLookup(rows, if Current(rows[m].status) && rows[m].createdAt > rows[i].createdAt then m else i);
      } else if Current(rows[m].status) {
        forall j | 0 <= j < m ensures !Current(rows[j].status) { assert front[j] == rows[j]; }
        assert ReadByLookup(rows, m);
      }
      if j :| 0 <= j < |rows| && (rows[j].status == Trial || rows[j].status == Active || rows[j].status == PastDue) {
        if j < m { assert front[j] == rows[j]; }
      }
    }
  }

  predicate GateAdmits(r: Subscription, now: Moment) {
    && !r.status.Cancelled? && !r.status.Expired?
    && (r.endsAt.Some? && r.endsAt.value < now ==> r.status.PastDue?)
  }

  /** The gate admits on a trial or active row up to and including its end, if it has one,
      and on an overdue row whatever its end. */
  lemma AdmittedIff(r: Subscription, now: Moment)
    ensures GateAdmits(r, now) <==>
      || r.status == PastDue
      || ((r.status == Trial || r.status == Active) && (r.endsAt == None || now <= r.endsAt.value))
  {}

  lemma UpdatedThenSwept(rows: seq<Subscription>, plan: string, createdAt: Moment, end: Moment, sweep: Moment)
    ensures var after := Run(rows, [AdminUpdate(plan, Active, createdAt, Some(end)), Sweep(sweep)]);
      && |after| == |rows| + 1 && (forall i :: 0 <= i < |rows| ==> after[i].createdAt == rows[i].createdAt)
      && after[|rows|] == Subscription(plan, if end <= sweep then Expired else Active, createdAt, Some(end))
  {
    var update := AdminUpdate(plan, Active, createdAt, Some(end));
    var first := Next(rows, update);
    UpdateEffect(rows, plan, Active, createdAt, Some(end));
    SweepEffect(first, sweep);
    assert [update, Sweep(sweep)][1..] == [Sweep(sweep)] && [Sweep(sweep)][1..] == [];
    assert Run(rows, [update, Sweep(sweep)]) == Run(first, [Sweep(sweep)]);
    assert Run(first, [Sweep(sweep)]) == Run(Next(first, Sweep(sweep)), []);
  }

  /** So an active subscription newer than every other row is the one the gate reads, and
      it admits through the last moment of the period, or until the first sweep from that
      moment on. */
  lemma PaidThroughTheEnd(rows: seq<Subscription>, plan: string, createdAt: Moment, end: Moment, sweep: Moment, now: Moment, i: nat)
    requires After(rows, createdAt)
    ensures var after := Run(rows, [AdminUpdate(plan, Active, createdAt, Some(end)), Sweep(sweep)]);
      ReadByGate(after, i) <==> i == |rows|
    ensures var after := Run(rows, [AdminUpdate(plan, Active, createdAt, Some(end)), Sweep(sweep)]);
      ReadByGate(after, i) ==> (GateAdmits(after[i], now) <==> now <= end && sweep < end)
  {
    UpdatedThenSwept(rows, plan, createdAt, end, sweep);
    var after := Run(rows, [AdminUpdate(plan, Active, createdAt, Some(end)), Sweep(sweep)]);
    if ReadByGate(after, i) { assert after[|rows|].createdAt <= after[i].createdAt; }
  }

  /** When the write gate admits on a row, the entitlement lookup reads that same row. */
  lemma GateAndLookupAgree(rows: seq<Subscription>, steps: seq<Step>, gate: nat, lookup: nat, now: Moment)
    requires |rows| <= 1 && Serial(rows, steps)
    requires ReadByGate(Run(rows, steps), gate) && GateAdmits(Run(rows, steps)[gate], now)
    ensures ReadByLookup(Run(rows, steps), gate)
    ensures ReadByLookup(Run(rows, steps), lookup) ==> lookup == gate
  {
    SingleRowOk(rows);
    OneLiveAndNewest(rows, steps);
  }

  /** And once a sweep has run at a time, the gate admits at that time exactly when
      the row it reads is current, up to the very moment the period ends. */
  lemma SweptGateIsStatus(rows: seq<Subscription>, i: nat, now: Moment)
    requires i < |rows|
    ensures GateAdmits(Swept(rows, now)[i], now) <==> Current(Swept(rows, now)[i].status)
  {}

  /** Overlapping updates break it: the one that began first but commits last leaves
      its row current and the other's, cancelled, the newest. */
  lemma OverlappingUpdatesLockOut(plan: string, t: Moment)
    ensures var rows := Run([], [AdminUpdate(plan, Active, t + 1, None), AdminUpdate(plan, Active, t, None)]);
      && OneCurrent(rows) && (exists i: nat :: ReadByLookup(rows, i))
      && forall i: nat, now: Moment :: ReadByGate(rows, i) ==> !GateAdmits(rows[i], now)
  {
    var a, b := AdminUpdate(plan, Active, t + 1, None), AdminUpdate(plan, Active, t, None);
    var first := Next([], a);
    assert first == [Subscription(plan, Active, t + 1, None)];
    var second := Next(first, b);
    assert second == [Subscription(plan, Cancelled, t + 1, None), Subscription(plan, Active, t, None)];
    assert [a, b][1..] == [b] && [b][1..] == [];
    assert Run([], [a, b]) == Run(first, [b]) == Run(second, []) == second;
    assert ReadByLookup(second, 1);
    forall i: nat | ReadByGate(second, i) ensures i == 0 { assert second[0].createdAt <= second[i].createdAt; }
  }

  // ---------------------------------------------------------------- the statements

  class Store {
    var rows: seq<Subscription>

    constructor ()
      ensures rows == []
    {
      rows := [];
    }

    /** Both UPDATEs work row by row; together they are one transaction. */
    method AdminUpdateSubscription(plan: string, status: Status, createdAt: Moment, endsAt: Option<Moment>)
      modifies this
      ensures rows == Next(old(rows), AdminUpdate(plan, status, createdAt, endsAt))
    {
      var i := 0;
      while i < |rows|
        invariant 0 <= i <= |rows| == |old(rows)|
        invariant forall j :: 0 <= j < i ==> rows[j] == CancelledRow(old(rows)[j])
        invariant forall j :: i <= j < |rows| ==> rows[j] == old(rows)[j]
      {
        if Current(rows[i].status) { rows := rows[i := rows[i].(status := Cancelled)]; }
        i := i + 1;
      }
      rows := rows + [Subscription(plan, status, createdAt, endsAt)];
    }

    method LifecycleSweep(now: Moment)
      modifies this
      ensures rows == Next(old(rows), Sweep(now))
    {
      var i := 0;
      while i < |rows|
        invariant 0 <= i <= |rows| == |old(rows)|
        invariant forall j :: 0 <= j < i ==> rows[j] == SweptRow(old(rows)[j], now)
        invariant forall j :: i <= j < |rows| ==> rows[j] == old(rows)[j]
      {
        if (rows[i].status.Trial? || rows[i].status.Active?) && rows[i].endsAt.Some? && rows[i].endsAt.value <= now {
          rows := rows[i := rows[i].(status := Expired)];
        }
        i := i + 1;
      }
      assert rows == Swept(old(rows), now);
    }
  }
}
