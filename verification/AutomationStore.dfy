/** One worker's pass over the automation candidates, as the code loops over them. */
module AutomationStore {
  import opened Prelude
  import opened AutomationRuns

  datatype Channel = Email | WhatsApp | OtherChannel

  /** A candidate row; `transportFails` is what the transport answers if it is asked. */
  datatype Candidate = Candidate(key: Key, channel: Channel, hasEmail: bool, transportFails: bool)

  function StatusOf(c: Candidate): Status {
    match c.channel
    case Email => if !c.hasEmail then Skipped else if c.transportFails then FailedRun else Sent
    case WhatsApp => if c.transportFails then FailedRun else Sent
    case OtherChannel => Skipped
  }

  function RetryAt(attempt: nat, now: Moment): Moment { now + attempt * attempt * 60 }

  /** One candidate, claimed and completed at the same instant. */
  function Settle(runs: map<Key, AutomationRun>, c: Candidate, now: Moment): map<Key, AutomationRun> {
    match ClaimAnswer(runs, c.key, now)
    case Taken(attempt) =>
      runs[c.key := Completed(AutomationRun(Pending, attempt, now, None), StatusOf(c), attempt, RetryAt(attempt, now), now)]
    case _ => runs
  }

  datatype Outcome = Outcome(runs: map<Key, AutomationRun>, processed: nat, aborted: bool)

  /** The pass in candidate order; the first claim the CHECK refuses ends it. */
  function Pass(runs: map<Key, AutomationRun>, candidates: seq<Candidate>, now: Moment): Outcome
    decreases |candidates|
  {
    if candidates == [] then Outcome(runs, 0, false)
    else
      var front := Pass(runs, candidates[..|candidates| - 1], now);
      var c := candidates[|candidates| - 1];
      if front.aborted || ClaimAnswer(front.runs, c.key, now).Refused? then front.(aborted := true)
      else Outcome(Settle(front.runs, c, now),
                   front.processed + (if ClaimAnswer(front.runs, c.key, now).Taken? && StatusOf(c) == Sent then 1 else 0), false)
  }

  predicate KeyAmong(candidates: seq<Candidate>, k: Key) { exists i :: 0 <= i < |candidates| && candidates[i].key == k }

  lemma KeyAmongFront(candidates: seq<Candidate>, k: Key)
    requires candidates != []
    ensures KeyAmong(candidates, k) <==> (KeyAmong(candidates[..|candidates| - 1], k) || candidates[|candidates| - 1].key == k)
  {
    var front := candidates[..|candidates| - 1];
    if i :| 0 <= i < |front| && front[i].key == k { assert candidates[i].key == k; }
    if i :| 0 <= i < |candidates| && candidates[i].key == k && candidates[|candidates| - 1].key != k { assert front[i].key == k; }
  }

  // ---------------------------------------------------------------- passes cut short

  /** A run whose next claim the CHECK refuses. */
  predicate Spent(runs: map<Key, AutomationRun>, k: Key, now: Moment) {
    k in runs && Stale(runs[k], now) && runs[k].attempts >= ATTEMPT_CEILING
  }

  /** Settling a candidate neither spends a run nor revives one. */
  lemma SettleKeepsSpent(runs: map<Key, AutomationRun>, c: Candidate, k: Key, now: Moment)
    requires !Spent(runs, c.key, now)
    ensures Spent(Settle(runs, c, now), k, now) <==> Spent(runs, k, now)
  {}

  lemma {:induction false} PassKeepsSpent(runs: map<Key, AutomationRun>, candidates: seq<Candidate>, k: Key, now: Moment)
    ensures Spent(Pass(runs, candidates, now).runs, k, now) <==> Spent(runs, k, now)
    decreases |candidates|
  {
    if candidates != [] {
      var last := |candidates| - 1;
      var front := Pass(runs, candidates[..last], now);
      PassKeepsSpent(runs, candidates[..last], k, now);
      if !Spent(front.runs, candidates[last].key, now) {
        SettleKeepsSpent(front.runs, candidates[last], k, now);
      }
    }
  }

  predicate SomeSpent(runs: map<Key, AutomationRun>, candidates: seq<Candidate>, now: Moment) {
    exists i :: 0 <= i < |candidates| && Spent(runs, candidates[i].key, now)
  }

  /** A pass looks at every candidate unless, and only unless, one of them has a run
      that was left pending past its lease at the ceiling of attempts. */
  lemma {:induction false} CutShortIff(runs: map<Key, AutomationRun>, candidates: seq<Candidate>, now: Moment)
    ensures Pass(runs, candidates, now).aborted <==> SomeSpent(runs, candidates, now)
    decreases |candidates|
  {
    if candidates != [] {
      var last := |candidates| - 1;
      var front := candidates[..last];
      CutShortIff(runs, front, now);
      PassKeepsSpent(runs, front, candidates[last].key, now);
      if i :| 0 <= i < last && Spent(runs, front[i].key, now) { assert Spent(runs, candidates[i].key, now); }
      if i :| 0 <= i < |candidates| && Spent(runs, candidates[i].key, now) {
        if i < last { assert Spent(runs, front[i].key, now); }
      }
    }
  }

  /** What such a pass leaves behind: it did exactly what a pass over the candidates
      before the first spent one does. */
  lemma {:induction false} ExhaustedRunStopsThePass(runs: map<Key, AutomationRun>, before: seq<Candidate>, c: Candidate, behind: seq<Candidate>, now: Moment)
    requires Spent(runs, c.key, now) && !SomeSpent(runs, before, now)
    ensures Pass(runs, before + [c] + behind, now) == Pass(runs, before, now).(aborted := true)
    decreases |behind|
  {
    var all := before + [c] + behind;
    CutShortIff(runs, before, now);
    if behind == [] {
      assert all[..|all| - 1] == before && all[|all| - 1] == c;
      PassKeepsSpent(runs, before, c.key, now);
    } else {
      assert all[..|all| - 1] == before + [c] + behind[..|behind| - 1];
      ExhaustedRunStopsThePass(runs, before, c, behind[..|behind| - 1], now);
    }
  }

  // ---------------------------------------------------------------- a pass run again

  /** What a pass that went through leaves of a key. */
  predicate PassedOver(before: map<Key, AutomationRun>, after: map<Key, AutomationRun>, among: bool, k: Key, now: Moment) {
    match ClaimAnswer(before, k, now)
    case Taken(attempt) =>
      if among
      then k in after && after[k].attempts == attempt && after[k].status != Pending
           && (after[k].nextAttempt.Some? ==> after[k].nextAttempt.value >= now + 60)
      else (k in after <==> k in before) && (k in before ==> after[k] == before[k])
    case _ => (k in after <==> k in before) && (k in before ==> after[k] == before[k])
  }

  lemma RetryIsLater(attempt: nat, now: Moment)
    requires attempt >= 1
    ensures RetryAt(attempt, now) >= now + 60
  {
    assert attempt * attempt >= 1 * attempt;
  }

  lemma SettledOver(runs: map<Key, AutomationRun>, c: Candidate, k: Key, now: Moment)
    requires !Spent(runs, c.key, now)
    ensures PassedOver(runs, Settle(runs, c, now), c.key == k, k, now)
  {
    if ClaimAnswer(runs, c.key, now).Taken? && ClaimAnswer(runs, c.key, now).attempt >= 1 {
      RetryIsLater(ClaimAnswer(runs, c.key, now).attempt, now);
    }
  }

  lemma {:induction false} PassOn(runs: map<Key, AutomationRun>, candidates: seq<Candidate>, k: Key, now: Moment)
    requires !Pass(runs, candidates, now).aborted
    ensures PassedOver(runs, Pass(runs, candidates, now).runs, KeyAmong(candidates, k), k, now)
    ensures KeyAmong(candidates, k) ==> !ClaimAnswer(runs, k, now).Refused?
    decreases |candidates|
  {
    if candidates != [] {
      var last := |candidates| - 1;
      var front := Pass(runs, candidates[..last], now);
      PassOn(runs, candidates[..last], k, now);
      KeyAmongFront(candidates, k);
      SettledOver(front.runs, candidates[last], k, now);
    }
  }

  lemma {:induction false} IdlePass(runs: map<Key, AutomationRun>, again: seq<Candidate>, now: Moment)
    requires forall j :: 0 <= j < |again| ==> ClaimAnswer(runs, again[j].key, now) == NotMine
    ensures Pass(runs, again, now) == Outcome(runs, 0, false)
    decreases |again|
  {
    if again != [] {
      IdlePass(runs, again[..|again| - 1], now);
    }
  }

  /** A pass changes nothing exactly when none of its candidates is claimable. */
  lemma IdleIff(runs: map<Key, AutomationRun>, again: seq<Candidate>, now: Moment)
    ensures Pass(runs, again, now) == Outcome(runs, 0, false)
      <==> forall j :: 0 <= j < |again| ==> ClaimAnswer(runs, again[j].key, now) == NotMine
  {
    if forall j :: 0 <= j < |again| ==> ClaimAnswer(runs, again[j].key, now) == NotMine {
      IdlePass(runs, again, now);
    }
    if Pass(runs, again, now) == Outcome(runs, 0, false) {
      forall j | 0 <= j < |again| ensures ClaimAnswer(runs, again[j].key, now) == NotMine {
        PassOn(runs, again, again[j].key, now);
      }
    }
  }

  /** The claim a key the first pass left alone was not open to has opened since. */
  predicate OpenedSince(runs: map<Key, AutomationRun>, k: Key, now: Moment, later: Moment) {
    ClaimAnswer(runs, k, now) == NotMine && ClaimAnswer(runs, k, later) != NotMine
  }

  lemma StillClosed(runs: map<Key, AutomationRun>, first: seq<Candidate>, k: Key, now: Moment, later: Moment)
    requires !Pass(runs, first, now).aborted && KeyAmong(first, k) && now <= later < now + 60
    ensures ClaimAnswer(Pass(runs, first, now).runs, k, later) == NotMine <==> !OpenedSince(runs, k, now, later)
  {
    PassOn(runs, first, k, now);
  }

  /** A forced rerun is safe: within a minute of a pass that went through, another one
      over the same keys sends nothing and changes nothing, if and only if no run the
      first pass found closed has fallen due or gone stale in the meantime. */
  lemma RerunIsIdle(runs: map<Key, AutomationRun>, first: seq<Candidate>, again: seq<Candidate>, now: Moment, later: Moment)
    requires !Pass(runs, first, now).aborted && now <= later < now + 60
    requires forall j :: 0 <= j < |again| ==> KeyAmong(first, again[j].key)
    ensures Pass(Pass(runs, first, now).runs, again, later) == Outcome(Pass(runs, first, now).runs, 0, false)
      <==> forall j :: 0 <= j < |again| ==> !OpenedSince(runs, again[j].key, now, later)
  {
    IdleIff(Pass(runs, first, now).runs, again, later);
    forall j | 0 <= j < |again|
      ensures ClaimAnswer(Pass(runs, first, now).runs, again[j].key, later) == NotMine <==> !OpenedSince(runs, again[j].key, now, later)
    {
      StillClosed(runs, first, again[j].key, now, later);
    }
  }

  /** A settled candidate is a claim and its completion in the protocol. */
  lemma SettleIsTwoSteps(s: State, worker: int, c: Candidate)
    requires worker !in s.holds && ClaimAnswer(s.runs, c.key, s.now).Taken?
    ensures var claim, attempt := Claim(worker, c.key), ClaimAnswer(s.runs, c.key, s.now).attempt;
      var complete := Complete(worker, StatusOf(c), RetryAt(attempt, s.now));
      && Enabled(s, claim) && Enabled(Next(s, claim), complete)
      && Next(Next(s, claim), complete).runs == Settle(s.runs, c, s.now)
      && Next(Next(s, claim), complete).holds == s.holds
  {
    var claim, attempt := Claim(worker, c.key), ClaimAnswer(s.runs, c.key, s.now).attempt;
    var t := Next(Next(s, claim), Complete(worker, StatusOf(c), RetryAt(attempt, s.now)));
    assert t.holds == s.holds;
    assert t.runs == Settle(s.runs, c, s.now);
  }

  /** What settling a candidate writes: skipped without an address or a channel the worker
      knows, else sent or failed as the transport answers; the attempt it is; and after
      the first and second failure a retry one and four minutes later. */
  lemma SettleEffect(runs: map<Key, AutomationRun>, c: Candidate, now: Moment)
    ensures var open :=
        || c.key !in runs
        || (runs[c.key].status == Pending && runs[c.key].updatedAt < now - 300 && runs[c.key].attempts < 10)
        || (runs[c.key].status == FailedRun && runs[c.key].attempts < 3 && runs[c.key].nextAttempt.Some? && runs[c.key].nextAttempt.value <= now);
      var n := if c.key in runs then runs[c.key].attempts + 1 else 1;
      var status :=
        if c.channel == OtherChannel || (c.channel == Email && !c.hasEmail) then Skipped
        else if c.transportFails then FailedRun else Sent;
      Settle(runs, c, now) ==
        if open
        then runs[c.key := AutomationRun(status, n, now,
               if status == FailedRun && n == 1 then Some(now + 60) else if status == FailedRun && n == 2 then Some(now + 240) else None)]
        else runs
  {
    if ClaimAnswer(runs, c.key, now).Taken? {
      var n := ClaimAnswer(runs, c.key, now).attempt;
      assert n == 1 ==> n * n == 1;
      assert n == 2 ==> n * n == 4;
    }
  }

  /** Three passes over a candidate, the transport failing on the first two, send it on the
      third, when each pass comes at the retry time of the one before or later. */
  lemma ThirdPassSends(c: Candidate, fails: Candidate, now: Moment, second: Moment, third: Moment)
    requires c.key == fails.key && c.channel == fails.channel && c.channel != OtherChannel && c.hasEmail && fails.hasEmail
    requires fails.transportFails && !c.transportFails && second >= now + 60 && third >= second + 240
    ensures var one := Pass(map[], [fails], now);
      var two := Pass(one.runs, [fails], second);
      Pass(two.runs, [c], third) == Outcome(map[c.key := AutomationRun(Sent, 3, third, None)], 1, false)
  {
    SinglePass(map[], fails, now);
    var one := map[c.key := AutomationRun(FailedRun, 1, now, Some(now + 60))];
    SettleEffect(map[], fails, now);
    SinglePass(one, fails, second);
    SettleEffect(one, fails, second);
    var two := map[c.key := AutomationRun(FailedRun, 2, second, Some(second + 240))];
    SinglePass(two, c, third);
    SettleEffect(two, c, third);
  }

  lemma SinglePass(runs: map<Key, AutomationRun>, c: Candidate, now: Moment)
    requires ClaimAnswer(runs, c.key, now).Taken?
    ensures Pass(runs, [c], now) == Outcome(Settle(runs, c, now), if StatusOf(c) == Sent then 1 else 0, false)
  {
    assert [c][..0] == [];
    assert Pass(runs, [], now) == Outcome(runs, 0, false);
  }

  class Store {
    var now: Moment
    var runs: map<Key, AutomationRun>

    constructor (now: Moment)
      ensures runs == map[] && this.now == now
    {
      this.now := now;
      runs := map[];
    }

    method ProcessCampaignAutomations(candidates: seq<Candidate>) returns (processed: nat, aborted: bool)
      modifies this`runs
      ensures Outcome(runs, processed, aborted) == Pass(old(runs), candidates, now)
    {
      processed, aborted := 0, false;
      var i := 0;
      while i < |candidates|
        invariant 0 <= i <= |candidates|
        invariant Outcome(runs, processed, false) == Pass(old(runs), candidates[..i], now)
      {
        var c := candidates[i];
        assert candidates[..i + 1][..i] == candidates[..i];
        match ClaimAnswer(runs, c.key, now) {
          case NotMine =>
          case Refused =>
            aborted := true;
            StaysAborted(old(runs), candidates, i + 1, now);
            return;
          case Taken(attempt) =>
            runs := Claimed(runs, c.key, attempt, now);
            var status := StatusOf(c);
            runs := runs[c.key := Completed(runs[c.key], status, attempt, RetryAt(attempt, now), now)];
            assert runs == Settle(Pass(old(runs), candidates[..i], now).runs, c, now);
            if status == Sent { processed := processed + 1; }
        }
        i := i + 1;
      }
      assert candidates[..i] == candidates;
    }
  }

  lemma {:induction false} StaysAborted(runs: map<Key, AutomationRun>, candidates: seq<Candidate>, n: nat, now: Moment)
    requires n <= |candidates| && Pass(runs, candidates[..n], now).aborted
    ensures Pass(runs, candidates, now) == Pass(runs, candidates[..n], now)
    decreases |candidates| - n
  {
    if n == |candidates| {
      assert candidates[..n] == candidates;
    } else {
      assert candidates[..n + 1][..n] == candidates[..n];
      StaysAborted(runs, candidates, n + 1, now);
    }
  }
}
