/** The guest portal's loyalty mechanics: stamp cards, growing discounts, levels. */
module LoyaltyMechanics {
  import opened Prelude

  // ---------------------------------------------------------------- stamps

  datatype StampCard = StampCard(progress: int, remaining: int, eligible: bool, target: int)

  function StampTarget(configured: int): int { Max(2, configured) }

  function Stamps(configured: int, visits: nat): StampCard {
    var target := StampTarget(configured);
    var progress := visits % target;
    if visits > 0 && progress == 0 then StampCard(target, 0, true, target)
    else StampCard(progress, target - progress, false, target)
  }

  function EligibleVisits(configured: int, n: nat): nat {
    if n == 0 then 0 else EligibleVisits(configured, n - 1) + (if Stamps(configured, n).eligible then 1 else 0)
  }

  /** The card is always complete: stamps held and stamps missing make the target,
      and the reward is due exactly when none is missing. */
  lemma StampsMakeTheTarget(configured: int, visits: nat)
    ensures var card := Stamps(configured, visits);
      && card.progress + card.remaining == card.target >= 2
      && 0 <= card.progress && 0 <= card.remaining
      && (card.eligible <==> card.remaining == 0)
      && (card.progress == 0 <==> visits == 0)
  {}

  /** The card starts empty; each visit adds a stamp, and the one after a full card starts
      the next. */
  lemma NextStamp(configured: int, visits: nat)
    ensures var before, after := Stamps(configured, visits), Stamps(configured, visits + 1);
      && after.progress == (if before.remaining == 0 then 1 else before.progress + 1)
      && after.target == before.target == (if configured < 2 then 2 else configured)
      && Stamps(configured, 0).progress == 0
  {
    var target := StampTarget(configured);
    DivMod(visits, target);
    if visits % target + 1 < target {
      Remainder(visits + 1, target, visits / target);
    } else {
      MulSucc(target, visits / target);
      Remainder(visits + 1, target, visits / target + 1);
    }
  }

  lemma Remainder(n: int, d: int, q: int)
    requires d >= 1 && d * q <= n < d * q + d
    ensures n % d == n - d * q
  {
    Quotient(n, d, q);
    DivMod(n, d);
  }

  lemma MulMono(d: int, x: int, y: int)
    requires d >= 0
    ensures x <= y ==> d * x <= d * y
  {
    if x <= y { assert d * (y - x) >= 0; }
  }

  lemma MulSucc(d: int, q: int)
    ensures d * (q + 1) == d * q + d
  {}

  lemma DivMod(n: int, d: int)
    requires d >= 1
    ensures n == d * (n / d) + n % d && 0 <= n % d < d
  {}

  /** A quotient is at least k exactly when the dividend is at least k times the divisor. */
  lemma AtLeast(n: int, d: int, k: int)
    requires d >= 1
    ensures n / d >= k <==> n >= d * k
  {
    var q := n / d;
    DivMod(n, d);
    MulMono(d, k, q);
    MulMono(d, q + 1, k);
    MulSucc(d, q);
  }

  lemma Quotient(n: int, d: int, q: int)
    requires d >= 1 && d * q <= n < d * q + d
    ensures n / d == q
  {
    AtLeast(n, d, q);
    AtLeast(n, d, q + 1);
    MulSucc(d, q);
  }

  lemma QuotientStep(n: nat, target: int)
    requires target >= 2 && n > 0
    ensures n / target == (n - 1) / target + (if n % target == 0 then 1 else 0)
  {
    var q := n / target;
    DivMod(n, target);
    if n % target == 0 {
      MulSucc(target, q - 1);
      Quotient(n - 1, target, q - 1);
    } else {
      Quotient(n - 1, target, q);
    }
  }

  /** Among the first n visits, exactly floor(n / target) complete a card. */
  lemma {:induction false} OneRewardPerCard(configured: int, n: nat)
    ensures EligibleVisits(configured, n) == n / (if configured < 2 then 2 else configured)
  {
    if n > 0 {
      OneRewardPerCard(configured, n - 1);
      QuotientStep(n, StampTarget(configured));
    }
  }

  // ---------------------------------------------------------------- growing discount

  datatype DiscountConfig = DiscountConfig(start: int, step: int, maximum: int, interval: int)

  /** The configured values after the handler's floors. */
  function Normalized(c: DiscountConfig): DiscountConfig {
    var start := Max(0, c.start);
    DiscountConfig(start, Max(1, c.step), Max(start, c.maximum), Max(1, c.interval))
  }

  function Discount(c: DiscountConfig, visits: nat): int {
    var n := Normalized(c);
    Min(n.maximum, n.start + (visits / n.interval) * n.step)
  }

  function CeilDiv(a: nat, b: int): int
    requires b >= 1
  {
    (a + b - 1) / b
  }

  lemma DivMono(a: int, b: int, d: int)
    requires a <= b && d >= 1
    ensures a / d <= b / d
  {
    AtLeast(a, d, a / d);
    AtLeast(b, d, a / d);
  }

  lemma CeilDivIs(a: nat, b: int, k: int)
    requires b >= 1
    ensures CeilDiv(a, b) >= 0
    ensures k >= CeilDiv(a, b) <==> b * k >= a
  {
    AtLeast(a + b - 1, b, 0);
    AtLeast(a + b - 1, b, k + 1);
    MulSucc(b, k);
  }

  /** The discount never falls as visits are added, and stays between the start and the maximum. */
  lemma DiscountGrows(c: DiscountConfig, visits: nat, more: nat)
    requires visits <= more
    ensures var n := Normalized(c); n.start <= Discount(c, visits) <= Discount(c, more) <= n.maximum
  {
    var n := Normalized(c);
    DivMono(visits, more, n.interval);
    var x, y := visits / n.interval, more / n.interval;
    AtLeast(visits, n.interval, 0);
    MulMono(n.step, 0, x);
    MulMono(n.step, x, y);
  }

  lemma OneMoreInterval(visits: nat, interval: int)
    requires interval >= 1
    ensures (visits + interval) / interval == visits / interval + 1
    ensures visits / interval >= 0 && (visits < interval ==> visits / interval == 0)
  {
    var q := visits / interval;
    DivMod(visits, interval);
    MulSucc(interval, q);
    Quotient(visits + interval, interval, q + 1);
    AtLeast(visits, interval, 0);
    AtLeast(visits, interval, 1);
  }

  lemma CappedStep(maximum: int, start: int, step: int, grown: int)
    requires step >= 1 && grown >= 0 && maximum >= start
    ensures var d := Min(maximum, start + grown); Min(maximum, start + grown + step) == if d + step < maximum then d + step else maximum
  {}

  /** It is the start through the first interval, and each further interval adds one step,
      up to the maximum; the configured values count from zero, one, the start and one up. */
  lemma DiscountSteps(c: DiscountConfig, visits: nat)
    ensures var start, step, interval := if c.start < 0 then 0 else c.start, if c.step < 1 then 1 else c.step, if c.interval < 1 then 1 else c.interval;
      var maximum := if c.maximum < start then start else c.maximum;
      && (visits < interval ==> Discount(c, visits) == start)
      && Discount(c, visits + interval) == (if Discount(c, visits) + step < maximum then Discount(c, visits) + step else maximum)
  {
    var n := Normalized(c);
    var q := visits / n.interval;
    OneMoreInterval(visits, n.interval);
    MulSucc(n.step, q);
    MulMono(n.step, 0, q);
    assert (q + 1) * n.step == q * n.step + n.step;
    CappedStep(n.maximum, n.start, n.step, q * n.step);
  }

  /** It is the maximum from interval * ceil((maximum - start) / step) visits on, and not before. */
  lemma MaximumReachedExactly(c: DiscountConfig, visits: nat)
    ensures var n := Normalized(c);
      Discount(c, visits) == n.maximum <==> visits >= n.interval * CeilDiv(n.maximum - n.start, n.step)
  {
    var n := Normalized(c);
    var k := visits / n.interval;
    CeilDivIs(n.maximum - n.start, n.step, k);
    AtLeast(visits, n.interval, CeilDiv(n.maximum - n.start, n.step));
  }

  // ---------------------------------------------------------------- levels

  const LEVEL_MINS: seq<int> := [0, 500, 1000, 2500, 5000]
  const TOP := 4

  datatype Level = Level(current: nat, next: nat, progress: int, remaining: int)

  /** Go's integer division, truncating towards zero. */
  function Quo(a: int, b: int): int
    requires b > 0
  {
    if a >= 0 then a / b else -((-a) / b)
  }

  /** `current` is the highest level whose minimum the points reach; below the first
      minimum it is the first level, with the top level next. */
  predicate Reached(points: int, current: nat, next: nat) {
    && current <= TOP && next <= TOP
    && (points < LEVEL_MINS[0] ==> current == 0 && next == TOP)
    && (points >= LEVEL_MINS[0] ==>
          && LEVEL_MINS[current] <= points && (current < TOP ==> points < LEVEL_MINS[current + 1])
          && next == if current < TOP then current + 1 else TOP)
  }

  function ProgressOf(points: int, current: nat, next: nat): int
    requires current <= TOP && next <= TOP
  {
    if LEVEL_MINS[next] > LEVEL_MINS[current]
    then Min(100, Quo((points - LEVEL_MINS[current]) * 100, LEVEL_MINS[next] - LEVEL_MINS[current]))
    else 100
  }

  method LevelProgress(points: int) returns (level: Level)
    ensures Reached(points, level.current, level.next)
    ensures level.progress == ProgressOf(points, level.current, level.next)
    ensures level.remaining == Max(0, LEVEL_MINS[level.next] - points)
  {
    var current, next := 0, TOP;
    for i := 0 to |LEVEL_MINS|
      invariant current <= TOP && next <= TOP
      invariant points < 0 ==> current == 0 && next == TOP
      invariant points >= 0 && i == 0 ==> current == 0
      invariant points >= 0 && i > 0 ==>
        && current < i && LEVEL_MINS[current] <= points
        && (current + 1 < i ==> points < LEVEL_MINS[current + 1])
        && next == if current < TOP then current + 1 else TOP
    {
      if points >= LEVEL_MINS[i] {
        current := i;
        next := if i + 1 < |LEVEL_MINS| then i + 1 else i;
      }
    }
    level := Level(current, next, ProgressOf(points, current, next), Max(0, LEVEL_MINS[next] - points));
  }

  /** The levels begin at 0, 500, 1000, 2500 and 5000 points, and the progress shown is the
      whole percents of the way to the next one. */
  lemma LevelTable(points: nat, current: nat, next: nat)
    requires Reached(points, current, next)
    ensures current == if points < 500 then 0 else if points < 1000 then 1 else if points < 2500 then 2 else if points < 5000 then 3 else 4
    ensures current < 4 ==>
      var from, to := [0, 500, 1000, 2500][current], [500, 1000, 2500, 5000][current];
      && next == current + 1 && LEVEL_MINS[next] == to
      && (to - from) * ProgressOf(points, current, next) <= (points - from) * 100 < (to - from) * (ProgressOf(points, current, next) + 1)
    ensures current == 4 ==> next == 4 && ProgressOf(points, current, next) == 100
  {
    if current < 4 {
      var from, to := LEVEL_MINS[current], LEVEL_MINS[current + 1];
      PercentBelow(points - from, to - from);
      DivMod((points - from) * 100, to - from);
      MulSucc(to - from, ProgressOf(points, current, next));
    }
  }

  lemma PercentBelow(a: nat, b: int)
    requires 0 <= a < b
    ensures 0 <= Quo(a * 100, b) < 100
  {
    AtLeast(a * 100, b, 0);
    AtLeast(a * 100, b, 100);
  }

  /** More points never show less: the level rises, or stays with no less progress;
      and a full bar is shown at the top level only. */
  lemma LevelsAreMonotone(points: int, more: int, c1: nat, n1: nat, c2: nat, n2: nat)
    requires 0 <= points <= more && Reached(points, c1, n1) && Reached(more, c2, n2)
    ensures c1 < c2 || (c1 == c2 && n1 == n2 && ProgressOf(points, c1, n1) <= ProgressOf(more, c2, n2))
    ensures 0 <= ProgressOf(points, c1, n1) <= 100
    ensures ProgressOf(points, c1, n1) == 100 <==> c1 == TOP
  {
    if c1 < TOP {
      var width := LEVEL_MINS[n1] - LEVEL_MINS[c1];
      PercentBelow(points - LEVEL_MINS[c1], width);
      if c1 == c2 {
        PercentBelow(more - LEVEL_MINS[c1], width);
        DivMono((points - LEVEL_MINS[c1]) * 100, (more - LEVEL_MINS[c1]) * 100, width);
      }
    }
  }
}
