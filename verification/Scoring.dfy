/** Round scoring: the ranked speed bonus and its timer window.

    Instants are integers in nanoseconds, as in Go's time package. `SpeedBonusV1`
    is the formula on unbounded integers; `SpeedBonusInt64` is the same code on
    wrapping 64-bit words, and the two are proved to agree wherever a round's
    timer window can put them.
  */
module Scoring {
  import opened Wrappers
  import opened Modes

  const MAX_ROUND_SCORE := 5000
  const MAX_SPEED_BONUS := 250
  const MAX_COMBINED_ROUND_SCORE := MAX_ROUND_SCORE + MAX_SPEED_BONUS
  const NANOS_PER_MILLI := 1_000_000
  const INT64_MAX := 0x7fff_ffff_ffff_ffff
  const INT64_MIN := -0x8000_0000_0000_0000
  // The longest window, in milliseconds, for which no product below leaves 64 bits.
  const MAX_SAFE_DURATION_MS := INT64_MAX / 25000

  type Instant = int

  function Clamp(x: int, lo: int, hi: int): int
    requires lo <= hi
  {
    if x < lo then lo else if x > hi then hi else x
  }

  /** Integer division rounding toward zero. */
  function TruncDiv(a: int, b: int): int
    requires b != 0
  {
    if (a < 0) == (b < 0) then Abs(a) / Abs(b) else -(Abs(a) / Abs(b))
  }

  function Abs(x: int): nat { if x < 0 then -x else x }

  function Wrap64(x: int): int { (x + 0x8000_0000_0000_0000) % 0x1_0000_0000_0000_0000 - 0x8000_0000_0000_0000 }

  /** Time.Sub saturates at the ends of the Duration range. */
  function Sub(a: Instant, b: Instant): int { Clamp(a - b, INT64_MIN, INT64_MAX) }

  function Milliseconds(d: int): int { TruncDiv(d, NANOS_PER_MILLI) }

  function SpeedBonusV1(accuracyScore: int, remainingMs: int, durationMs: int): int {
    if accuracyScore <= 0 || durationMs <= 0 || remainingMs <= 0 then 0
    else
      var remaining := if remainingMs > durationMs then durationMs else remainingMs;
      Clamp(accuracyScore * remaining * 5 / (durationMs * 100), 0, MAX_SPEED_BONUS)
  }

  /** The machine form. None is the run-time panic of dividing by a wrapped zero. */
  function SpeedBonusInt64(accuracyScore: int, remainingMs: int, durationMs: int): Option<int> {
    if accuracyScore <= 0 || durationMs <= 0 || remainingMs <= 0 then Some(0)
    else
      var remaining := if remainingMs > durationMs then durationMs else remainingMs;
      var product := Wrap64(Wrap64(accuracyScore * remaining) * 5);
      var divisor := Wrap64(durationMs * 100);
      if divisor == 0 then None
      else Some(Clamp(Wrap64(TruncDiv(product, divisor)), 0, MAX_SPEED_BONUS))
  }

  function ComposeGuessScores(mode: Mode, accuracyScore: int, remainingMs: int, durationMs: int)
    : (r: (int, int, int))
    ensures 0 <= r.0 <= MAX_ROUND_SCORE && 0 <= r.1 <= r.0 / 20
    ensures r.2 == r.0 + r.1 && 0 <= r.2 <= MAX_COMBINED_ROUND_SCORE
    ensures !IsRankedMode(mode) ==> r.1 == 0
  {
    var accuracy := Clamp(accuracyScore, 0, MAX_ROUND_SCORE);
    var bonus := if IsRankedMode(mode) then SpeedBonusV1(accuracy, remainingMs, durationMs) else 0;
    BonusIsAtMostATwentieth(accuracy, remainingMs, durationMs);
    (accuracy, bonus, accuracy + bonus)
  }

  function RoundTimerWindowMs(startsAt: Option<Instant>, endsAt: Option<Instant>, submittedAt: Instant)
    : (r: (int, int))
    ensures 0 <= r.0 <= r.1 <= MAX_SAFE_DURATION_MS
    ensures r.1 == 0 <==> startsAt.None? || endsAt.None?
  {
    if startsAt.None? || endsAt.None? then (0, 0)
    else
      var duration := Milliseconds(Sub(endsAt.value, startsAt.value));
      var durationMs := if duration < 1 then 1 else duration;
      (Clamp(Milliseconds(Sub(endsAt.value, submittedAt)), 0, durationMs), durationMs)
  }

  function ScoreWithSpeedBonus(mode: Mode, accuracyScore: int, startsAt: Option<Instant>, endsAt: Option<Instant>, submittedAt: Instant)
    : (r: (int, int, int))
    ensures 0 <= r.0 <= MAX_ROUND_SCORE && 0 <= r.1 <= MAX_SPEED_BONUS && r.2 == r.0 + r.1
  {
    var (remainingMs, durationMs) := RoundTimerWindowMs(startsAt, endsAt, submittedAt);
    ComposeGuessScores(mode, accuracyScore, remainingMs, durationMs)
  }

  // ---- Arithmetic helpers ----

  lemma DivMonotone(a: int, b: int, d: int)
    requires a <= b && 0 < d
    ensures a / d <= b / d
  {
    var k := b / d - a / d;
    assert d * (a / d) + a % d == a && d * (b / d) + b % d == b;
    assert d * k == b - a + a % d - b % d;
    NegativeMultiple(k, d);
  }

  lemma NegativeMultiple(k: int, d: int)
    requires 0 < d
    ensures k <= -1 ==> d * k <= -d
  {
  }

  lemma MulMonotone(a: int, b: int, c: int)
    requires a <= b && 0 <= c
    ensures a * c <= b * c && c * a <= c * b
  {
  }

  // ---- What the formula computes ----

  /** The bonus never exceeds a twentieth of the accuracy, so the 250 cap never binds for a legal accuracy. */
  lemma BonusIsAtMostATwentieth(accuracyScore: int, remainingMs: int, durationMs: int)
    ensures 0 <= SpeedBonusV1(accuracyScore, remainingMs, durationMs)
    ensures 0 <= accuracyScore ==> SpeedBonusV1(accuracyScore, remainingMs, durationMs) <= accuracyScore / 20
  {
    if accuracyScore > 0 && durationMs > 0 && remainingMs > 0 {
      var remaining := if remainingMs > durationMs then durationMs else remainingMs;
      MulMonotone(remaining, durationMs, accuracyScore);
      var q := accuracyScore * remaining * 5 / (durationMs * 100);
      DivMonotone(accuracyScore * remaining * 5, accuracyScore * durationMs * 5, durationMs * 100);
      var whole := accuracyScore * durationMs * 5 / (durationMs * 100);
      assert whole == accuracyScore / 20 by { ScaledQuotient(accuracyScore, durationMs); }
      assert 0 <= accuracyScore * remaining * 5;
    }
  }

  lemma ScaledQuotient(a: nat, d: int)
    requires 0 < d
    ensures a * d * 5 / (d * 100) == a / 20
  {
    var q, r := a / 20, a % 20;
    var m := d * 100;
    assert a * d * 5 == q * m + r * d * 5 by { assert a == 20 * q + r; }
    assert 0 <= r * d * 5 < m by { MulMonotone(r, 19, d); }
    QuotientIs(a * d * 5, m, q, r * d * 5);
  }

  lemma QuotientIs(n: int, d: int, q: int, r: int)
    requires 0 <= r < d && n == q * d + r
    ensures n / d == q
  {
    var k := n / d - q;
    assert n == d * (n / d) + n % d;
    assert d * k == r - n % d;
    if k >= 1 { MulMonotone(1, k, d); }
    if k <= -1 { MulMonotone(k, -1, d); }
  }

  /** The integer form is the documented one: min(250, floor(accuracy * 0.05 * remaining / duration)). */
  lemma BonusMatchesDocumentedFormula(accuracyScore: int, remainingMs: int, durationMs: int)
    requires 0 <= accuracyScore && 0 <= remainingMs <= durationMs && 1 <= durationMs
    ensures SpeedBonusV1(accuracyScore, remainingMs, durationMs)
         == Clamp((accuracyScore as real * 0.05 * remainingMs as real / durationMs as real).Floor, 0, MAX_SPEED_BONUS)
  {
    var exact := accuracyScore as real * 0.05 * remainingMs as real / durationMs as real;
    var n, d := accuracyScore * remainingMs * 5, durationMs * 100;
    assert exact * (d as real) == n as real by {
      assert exact * (durationMs as real) == accuracyScore as real * 0.05 * remainingMs as real;
      assert d as real == durationMs as real * 100.0;
      assert n as real == accuracyScore as real * remainingMs as real * 5.0;
    }
    FloorOfQuotient(n, d, exact);
    if accuracyScore == 0 || remainingMs == 0 {
      assert n == 0;
      assert n / d == 0;
    }
  }

  lemma ScalingKeepsOrder(x: real, y: real, d: real)
    requires 0.0 < d
    ensures x < y <==> x * d < y * d
  {
  }

  lemma FloorOfQuotient(n: int, d: int, x: real)
    requires 0 < d && x * (d as real) == n as real
    ensures x.Floor == n / d
  {
    var q, r := n / d, d as real;
    assert q * d <= n < q * d + d;
    ScaledCasts(q, d);
    ScalingKeepsOrder(x, q as real, r);
    ScalingKeepsOrder(x, (q + 1) as real, r);
    assert q as real <= x < (q + 1) as real;
  }

  lemma ScaledCasts(q: int, d: int)
    ensures (q as real) * (d as real) == (q * d) as real
    ensures ((q + 1) as real) * (d as real) == (q * d + d) as real
  {
    assert ((q + 1) as real) * (d as real) == (q as real) * (d as real) + d as real;
  }

  // ---- Machine arithmetic ----

  lemma NoWrap(x: int)
    requires INT64_MIN <= x <= INT64_MAX
    ensures Wrap64(x) == x
  {
  }

  /** No 64-bit operation wraps or divides by zero for windows up to MAX_SAFE_DURATION_MS. */
  lemma Int64BonusIsExact(accuracyScore: int, remainingMs: int, durationMs: int)
    requires accuracyScore <= MAX_ROUND_SCORE && durationMs <= MAX_SAFE_DURATION_MS
    ensures SpeedBonusInt64(accuracyScore, remainingMs, durationMs) == Some(SpeedBonusV1(accuracyScore, remainingMs, durationMs))
  {
    if accuracyScore > 0 && durationMs > 0 && remainingMs > 0 {
      var remaining := if remainingMs > durationMs then durationMs else remainingMs;
      MulMonotone(accuracyScore, MAX_ROUND_SCORE, remaining);
      assert 0 <= accuracyScore * remaining;
      NoWrap(accuracyScore * remaining);
      NoWrap(accuracyScore * remaining * 5);
      NoWrap(durationMs * 100);
      var q := accuracyScore * remaining * 5 / (durationMs * 100);
      BonusIsAtMostATwentieth(accuracyScore, remainingMs, durationMs);
      MulMonotone(remaining, durationMs, accuracyScore);
      DivMonotone(accuracyScore * remaining * 5, accuracyScore * durationMs * 5, durationMs * 100);
      ScaledQuotient(accuracyScore, durationMs);
      NoWrap(q);
    }
  }

  /** Every bonus the application computes takes its window from RoundTimerWindowMs, so none overflows. */
  lemma NoCallerOverflows(mode: Mode, accuracyScore: int, startsAt: Option<Instant>, endsAt: Option<Instant>, submittedAt: Instant)
    ensures var (remainingMs, durationMs) := RoundTimerWindowMs(startsAt, endsAt, submittedAt);
            var (accuracy, bonus, total) := ScoreWithSpeedBonus(mode, accuracyScore, startsAt, endsAt, submittedAt);
            IsRankedMode(mode) ==> SpeedBonusInt64(accuracy, remainingMs, durationMs) == Some(bonus)
  {
    var (remainingMs, durationMs) := RoundTimerWindowMs(startsAt, endsAt, submittedAt);
    Int64BonusIsExact(Clamp(accuracyScore, 0, MAX_ROUND_SCORE), remainingMs, durationMs);
  }

  /** Past the safe window the machine form really does go wrong: the product wraps to a negative number. */
  lemma Int64BonusOverflows()
    ensures SpeedBonusV1(5000, MAX_SAFE_DURATION_MS + 1, MAX_SAFE_DURATION_MS + 1) == 250
    ensures SpeedBonusInt64(5000, MAX_SAFE_DURATION_MS + 1, MAX_SAFE_DURATION_MS + 1) == Some(0)
  {
    var d := MAX_SAFE_DURATION_MS + 1;
    assert d == 368934881474192;
    assert Wrap64(5000 * d) == 1844674407370960000;
    assert Wrap64(9223372036854800000) == -9223372036854751616;
    assert Wrap64(d * 100) == 36893488147419200;
    NegativeQuotient(9223372036854751616, 36893488147419200);
  }

  /** Every legal accuracy gets its exact bonus from the machine form, for every window of at most d. */
  ghost predicate ExactUpTo(d: int) {
    forall accuracy: int, remaining: int, duration: int | accuracy <= MAX_ROUND_SCORE && duration <= d ::
      SpeedBonusInt64(accuracy, remaining, duration) == Some(SpeedBonusV1(accuracy, remaining, duration))
  }

  /** The bound is tight: the machine form is exact for all windows up to d iff d is at most (2^63 - 1) / 25000. */
  lemma Int64BonusIsExactIff(d: int)
    ensures ExactUpTo(d) <==> d <= MAX_SAFE_DURATION_MS
  {
    if d <= MAX_SAFE_DURATION_MS {
      forall accuracy: int, remaining: int, duration: int | accuracy <= MAX_ROUND_SCORE && duration <= d
        ensures SpeedBonusInt64(accuracy, remaining, duration) == Some(SpeedBonusV1(accuracy, remaining, duration))
      {
        Int64BonusIsExact(accuracy, remaining, duration);
      }
    } else {
      Int64BonusOverflows();
      var first := MAX_SAFE_DURATION_MS + 1;
      assert first <= d && SpeedBonusInt64(MAX_ROUND_SCORE, first, first) != Some(SpeedBonusV1(MAX_ROUND_SCORE, first, first));
    }
  }

  lemma NegativeQuotient(n: int, d: int)
    requires 0 < d <= n <= INT64_MAX
    ensures Clamp(Wrap64(TruncDiv(-n, d)), 0, MAX_SPEED_BONUS) == 0
  {
    var q := n / d;
    QuotientRange(n, d);
    assert TruncDiv(-n, d) == -q;
    NegativeClamps(q);
  }

  lemma QuotientRange(n: int, d: int)
    requires 0 < d <= n
    ensures 1 <= n / d <= n
  {
    DivMonotone(d, n, d);
    QuotientIs(d, d, 1, 0);
    MulMonotone(1, d, n / d);
    assert d * (n / d) + n % d == n;
  }

  lemma NegativeClamps(q: int)
    requires 1 <= q <= INT64_MAX
    ensures Clamp(Wrap64(-q), 0, MAX_SPEED_BONUS) == 0
  {
    NoWrap(-q);
  }

  // ---- Monotonicity ----

  lemma BonusMonotone(a: int, b: int, early: int, late: int, durationMs: int)
    requires a <= b && late <= early
    ensures SpeedBonusV1(a, late, durationMs) <= SpeedBonusV1(b, early, durationMs)
  {
    if a > 0 && durationMs > 0 && late > 0 {
      var r0 := if late > durationMs then durationMs else late;
      var r1 := if early > durationMs then durationMs else early;
      MulMonotone(a, b, r0);
      MulMonotone(r0, r1, b);
      DivMonotone(a * r0 * 5, b * r1 * 5, durationMs * 100);
    }
  }

  lemma TruncDivMonotone(a: int, b: int, d: int)
    requires a <= b && 0 < d
    ensures TruncDiv(a, d) <= TruncDiv(b, d)
  {
    if 0 <= a {
      DivMonotone(a, b, d);
    } else if b < 0 {
      DivMonotone(-b, -a, d);
      assert TruncDiv(a, d) == -(-a / d) && TruncDiv(b, d) == -(-b / d);
    } else {
      DivMonotone(0, -a, d);
      DivMonotone(0, b, d);
      assert TruncDiv(a, d) == -(-a / d);
    }
  }

  /** In one round, a better and no later guess never scores less. */
  lemma BetterAndEarlierNeverScoresLess(mode: Mode, worse: int, better: int, startsAt: Option<Instant>, endsAt: Option<Instant>, early: Instant, late: Instant)
    requires worse <= better && early <= late
    ensures ScoreWithSpeedBonus(mode, worse, startsAt, endsAt, late).2 <= ScoreWithSpeedBonus(mode, better, startsAt, endsAt, early).2
  {
    var (r0, d) := RoundTimerWindowMs(startsAt, endsAt, late);
    var (r1, d') := RoundTimerWindowMs(startsAt, endsAt, early);
    if startsAt.Some? && endsAt.Some? {
      TruncDivMonotone(Sub(endsAt.value, late), Sub(endsAt.value, early), NANOS_PER_MILLI);
    }
    BonusMonotone(Clamp(worse, 0, MAX_ROUND_SCORE), Clamp(better, 0, MAX_ROUND_SCORE), r1, r0, d);
  }
}
