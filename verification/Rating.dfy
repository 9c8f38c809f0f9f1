/** Elo arithmetic on exact reals, with the expected score left as any complementary function. */
module Rating {
  import opened Wrappers
  import opened Game

  const DEFAULT_ELO_K := 32
  const DEFAULT_ABANDON_PENALTY := 15
  const PLACEMENTS_REQUIRED := 5

  datatype EloOutcome = Win | Loss | Tie

  /** ExpectedProbability(own average, opponent average). */
  type Expectation = (int, int) -> real

  ghost predicate Complementary(e: Expectation) {
    forall a: int, b: int :: 0.0 < e(a, b) < 1.0 && e(a, b) + e(b, a) == 1.0
  }

  /** math.Round. */
  function RoundHalfAway(x: real): int { if x >= 0.0 then (x + 0.5).Floor else -((-x + 0.5).Floor) }

  function ActualScore(outcome: EloOutcome): real {
    match outcome
    case Win => 1.0
    case Tie => 0.5
    case Loss => 0.0
  }

  function BaseDelta(k: int, actual: real, expected: real): int {
    RoundHalfAway((if k <= 0 then DEFAULT_ELO_K else k) as real * (actual - expected))
  }

  /** None for a result that decides nothing: cancelled, or a forfeit without a winner. */
  function OutcomeForTeam(result: TeamResult, slot: int, winner: Option<int>): Option<EloOutcome> {
    match result
    case TeamOneWin => Some(if slot == 1 then Win else Loss)
    case TeamTwoWin => Some(if slot == 2 then Win else Loss)
    case Draw => Some(Tie)
    case ResultCancelled => None
    case _ => if winner.None? then None else Some(if slot == winner.value then Win else Loss)
  }

  function ApplyRating(oldRating: int, base: int, penalty: int): (r: (int, int))
    ensures r.0 >= 0 && r.1 == r.0 - (if oldRating < 0 then 0 else oldRating)
    ensures var sum := (if oldRating < 0 then 0 else oldRating) + base + penalty;
            (r.0 == sum || (r.0 == 0 && sum < 0))
  {
    var start := if oldRating < 0 then 0 else oldRating;
    var sum := start + base + penalty;
    if sum < 0 then (0, 0 - start) else (sum, sum - start)
  }

  function AbandonPenalty(abandoned: bool, magnitude: int): int {
    if !abandoned then 0
    else if magnitude == 0 then -DEFAULT_ABANDON_PENALTY
    else if magnitude < 0 then magnitude else -magnitude
  }

  function NextPlacements(current: int): int {
    if current < 0 then 1 else if current >= PLACEMENTS_REQUIRED then PLACEMENTS_REQUIRED else current + 1
  }

  /** The share of a distance that a reset keeps. */
  function Kept(d: int, factor: int): int { RoundHalfAway(d as real * factor as real / 10000.0) }

  function SoftReset(previous: int, initialRating: int, resetBps: int): int {
    var anchor := if initialRating < 0 then 0 else initialRating;
    var factor := if resetBps < 0 then 0 else if resetBps > 10000 then 10000 else resetBps;
    var next := anchor + Kept(previous - anchor, factor);
    if next < 0 then 0 else next
  }

  // ---- Rounding ----

  lemma RoundIsOdd(x: real)
    ensures RoundHalfAway(-x) == -RoundHalfAway(x)
  {
  }

  lemma FloorOfSmall(x: real)
    ensures 0.0 <= x < 1.0 ==> x.Floor == 0
    ensures x >= 1.0 ==> x.Floor >= 1
  {
  }

  lemma RoundOfNegative(x: real)
    requires x < 0.0
    ensures RoundHalfAway(x) <= 0
    ensures RoundHalfAway(x) == 0 <==> x > -0.5
  {
    FloorOfSmall(-x + 0.5);
  }

  // ---- Team averages ----

  function Sum(xs: seq<int>): int { if xs == [] then 0 else Sum(xs[..|xs| - 1]) + xs[|xs| - 1] }

  /** Rounded half away from zero; Go truncates, so both branches divide non-negative numbers. */
  function AverageOf(sum: int, n: int): int
    requires n >= 1
  {
    if sum >= 0 then (sum + n / 2) / n else -((-sum + n / 2) / n)
  }

  method TeamAverage(ratings: seq<int>) returns (average: int)
    ensures average == if ratings == [] then 0 else AverageOf(Sum(ratings), |ratings|)
    ensures -|ratings| <= 2 * Sum(ratings) - 2 * |ratings| * average <= |ratings|
  {
    if |ratings| == 0 { return 0; }
    var sum, i := 0, 0;
    while i < |ratings|
      invariant 0 <= i <= |ratings| && sum == Sum(ratings[..i])
    {
      sum := sum + ratings[i];
      assert ratings[..i + 1][..i] == ratings[..i];
      i := i + 1;
    }
    assert ratings[..i] == ratings;
    var n := |ratings|;
    average := if sum >= 0 then (sum + n / 2) / n else -((-sum + n / 2) / n);
    NearestAverage(if sum >= 0 then sum else -sum, n);
  }

  /** The division lands on a nearest integer. */
  lemma NearestAverage(sum: nat, n: nat)
    requires n >= 1
    ensures -(n as int) <= 2 * sum - 2 * n * ((sum + n / 2) / n) <= n
  {
    var q := (sum + n / 2) / n;
    assert sum + n / 2 == n * q + (sum + n / 2) % n;
    assert 2 * n * q == 2 * (n * q);
  }

  // ---- Zero-sum base deltas ----

  /** A forfeit or abandonment won by neither team: both sides score a loss. */
  predicate BothLose(result: TeamResult, winner: Option<int>) {
    (result.Forfeit? || result.ResultAbandoned?) && winner.Some? && winner.value != 1 && winner.value != 2
  }

  lemma Distributes(k: real, d: real, d': real)
    ensures k * d + k * d' == k * (d + d')
  {
  }

  lemma OppositesCancel(x: real, y: real)
    requires x + y == 0.0
    ensures RoundHalfAway(x) + RoundHalfAway(y) == 0
  {
    RoundIsOdd(x);
  }

  lemma TwoLossesDoNot(k: real, d: real, d': real)
    requires k >= 1.0 && d < 0.0 && d' < 0.0 && d + d' == -1.0
    ensures RoundHalfAway(k * d) + RoundHalfAway(k * d') < 0
  {
    Distributes(k, d, d');
    NegativeProduct(k, d);
    NegativeProduct(k, d');
    RoundOfNegative(k * d);
    RoundOfNegative(k * d');
  }

  /** With complementary expectations the two teams' base deltas cancel, unless both teams lose. */
  lemma BaseDeltasCancelIff(e: Expectation, k: int, a: int, b: int, result: TeamResult, winner: Option<int>)
    requires Complementary(e) && k >= 1
    requires OutcomeForTeam(result, 1, winner).Some? && OutcomeForTeam(result, 2, winner).Some?
    ensures var one, two := OutcomeForTeam(result, 1, winner).value, OutcomeForTeam(result, 2, winner).value;
            (BaseDelta(k, ActualScore(one), e(a, b)) + BaseDelta(k, ActualScore(two), e(b, a)) == 0) <==> !BothLose(result, winner)
  {
    var one, two := OutcomeForTeam(result, 1, winner).value, OutcomeForTeam(result, 2, winner).value;
    var p, q := e(a, b), e(b, a);
    assert p + q == 1.0;
    BaseDeltaSum(k, one, two, p, q);
    assert BothLose(result, winner) <==> one == Loss && two == Loss;
    assert !BothLose(result, winner) ==> ActualScore(one) + ActualScore(two) == 1.0;
  }

  lemma BaseDeltaSum(k: int, one: EloOutcome, two: EloOutcome, p: real, q: real)
    requires k >= 1 && 0.0 < p < 1.0 && p + q == 1.0
    ensures ActualScore(one) + ActualScore(two) == 1.0 ==> BaseDelta(k, ActualScore(one), p) + BaseDelta(k, ActualScore(two), q) == 0
    ensures one == Loss && two == Loss ==> BaseDelta(k, ActualScore(one), p) + BaseDelta(k, ActualScore(two), q) < 0
  {
    if ActualScore(one) + ActualScore(two) == 1.0 { OppositeBaseDeltas(k, ActualScore(one), ActualScore(two), p, q); }
    if one == Loss && two == Loss { LosingBaseDeltas(k, p, q); }
  }

  lemma OppositeBaseDeltas(k: int, a: real, b: real, p: real, q: real)
    requires k >= 1 && a + b == 1.0 && p + q == 1.0
    ensures BaseDelta(k, a, p) + BaseDelta(k, b, q) == 0
  {
    var x, y := k as real * (a - p), k as real * (b - q);
    SumOfProducts(k as real, a - p, b - q, x, y);
    OppositesCancel(x, y);
  }

  lemma SumOfProducts(k: real, d: real, d': real, x: real, y: real)
    requires d + d' == 0.0 && x == k * d && y == k * d'
    ensures x + y == 0.0
  {
    assert d' == -d;
    assert k * d' == k * -d;
  }

  lemma LosingBaseDeltas(k: int, p: real, q: real)
    requires k >= 1 && 0.0 < p < 1.0 && p + q == 1.0
    ensures BaseDelta(k, 0.0, p) + BaseDelta(k, 0.0, q) < 0
  {
    TwoLossesDoNot(k as real, 0.0 - p, 0.0 - q);
  }

  lemma NegativeProduct(k: real, d: real)
    requires k >= 1.0 && d < 0.0
    ensures k * d < 0.0
  {
  }

  lemma RoundAtMost(x: real, n: nat)
    requires 0.0 <= x <= n as real
    ensures 0 <= RoundHalfAway(x) <= n
  {
    assert (x + 0.5).Floor as real <= x + 0.5 < (n + 1) as real;
  }

  lemma ScaledRound(d: int, factor: int)
    requires 0 <= factor <= 10000
    ensures var r := Kept(d, factor);
            if d >= 0 then 0 <= r <= d else d <= r <= 0
  {
    var product := d as real * factor as real;
    var x := product / 10000.0;
    ProductBounds(d as real, factor as real, product);
    if d >= 0 {
      RoundAtMost(x, d);
    } else {
      assert -x <= (-d) as real;
      RoundAtMost(-x, -d);
      RoundIsOdd(-x);
    }
  }

  lemma ProductBounds(d: real, factor: real, product: real)
    requires 0.0 <= factor <= 10000.0 && product == d * factor
    ensures d >= 0.0 ==> 0.0 <= product <= d * 10000.0
    ensures d < 0.0 ==> d * 10000.0 <= product <= 0.0
  {
    var gap := 10000.0 - factor;
    ProductSign(d, factor);
    ProductSign(d, gap);
    assert d * factor + d * gap == d * 10000.0 by { Distributes(d, factor, gap); }
  }

  lemma ProductSign(d: real, c: real)
    requires c >= 0.0
    ensures d >= 0.0 ==> d * c >= 0.0
    ensures d < 0.0 ==> d * c <= 0.0
  {
  }

  lemma RoundsToNearest(x: real)
    ensures x - 0.5 <= RoundHalfAway(x) as real <= x + 0.5
  {
  }

  lemma NearestTenThousandth(r: int, product: int, x: real)
    requires x == product as real / 10000.0 && x - 0.5 <= r as real <= x + 0.5
    ensures -5000 <= 10000 * r - product <= 5000
  {
    var scaled := 10000.0 * (r as real);
    assert scaled == (10000 * r) as real;
    assert product as real - 5000.0 <= scaled <= product as real + 5000.0;
  }

  lemma CastProduct(d: int, share: int)
    ensures d as real * share as real == (share * d) as real
  {
  }

  /** `moved` is the share of the distance d, in ten-thousandths, to the nearest point. */
  predicate IsShare(moved: int, d: int, share: int) { -5000 <= 10000 * moved - share * d <= 5000 }

  lemma ShareIsNearest(d: int, share: int, moved: int)
    requires moved == Kept(d, share)
    ensures IsShare(moved, d, share)
  {
    var x := d as real * share as real / 10000.0;
    CastProduct(d, share);
    RoundsToNearest(x);
    NearestTenThousandth(moved, share * d, x);
  }

  lemma ResetFromAnchor(previous: nat, anchor: nat, bps: int, d: int, share: int)
    requires d == previous - anchor && share == if bps < 0 then 0 else if bps > 10000 then 10000 else bps
    ensures SoftReset(previous, anchor, bps) - anchor == Kept(d, share)
  {
    ScaledRound(d, share);
  }

  /** A soft reset keeps the given share of the distance to the anchor. */
  lemma SoftResetKeepsTheShare(previous: nat, anchor: nat, bps: int, d: int, share: int)
    requires d == previous - anchor && share == if bps < 0 then 0 else if bps > 10000 then 10000 else bps
    ensures IsShare(SoftReset(previous, anchor, bps) - anchor, d, share)
  {
    ResetFromAnchor(previous, anchor, bps, d, share);
    ShareIsNearest(d, share, SoftReset(previous, anchor, bps) - anchor);
  }

  /** A soft reset moves a rating toward the anchor and never past it. */
  lemma SoftResetContracts(previous: nat, anchor: nat, bps: int)
    ensures var next := SoftReset(previous, anchor, bps);
            if previous >= anchor then anchor <= next <= previous else previous <= next <= anchor
  {
    ScaledRound(previous - anchor, if bps < 0 then 0 else if bps > 10000 then 10000 else bps);
  }
}
