/** The daily streak fold, and what the service keeps of it. Calendar days are numbered. */
module Streaks {
  import opened Wrappers

  type Day = int

  datatype Streak = Streak(current: int, best: int, last: Day)

  function ApplyDailyCompletion(streak: Option<Streak>, day: Day): Streak {
    match streak
    case None => Streak(1, 1, day)
    case Some(s) =>
      if s.last == day then s
      else
        var current := if s.last + 1 == day then s.current + 1 else 1;
        Streak(current, if current > s.best then current else s.best, day)
  }

  function Fold(days: seq<Day>): Option<Streak> {
    if days == [] then None else Some(ApplyDailyCompletion(Fold(days[..|days| - 1]), days[|days| - 1]))
  }

  /** The service skips the write when the count did not change. */
  function UpdateStreak(stored: Option<Streak>, day: Day): Option<Streak> {
    var next := ApplyDailyCompletion(stored, day);
    if stored.Some? && next.current == stored.value.current then stored else Some(next)
  }

  function Persisted(days: seq<Day>): Option<Streak> {
    if days == [] then None else UpdateStreak(Persisted(days[..|days| - 1]), days[|days| - 1])
  }

  predicate NonDecreasing(days: seq<Day>) { forall i, j | 0 <= i < j < |days| :: days[i] <= days[j] }

  // ---- What the fold computes ----

  /** `k` consecutive days from `start`, all completed. */
  ghost predicate IsRun(days: seq<Day>, start: Day, k: nat) { forall d: Day | start <= d < start + k :: d in days }

  /** The maximal run that ends at `end` has `k` days. */
  ghost predicate RunEndingAt(days: seq<Day>, end: Day, k: int) { k >= 1 && IsRun(days, end - k + 1, k) && end - k !in days }

  ghost predicate LongestRun(days: seq<Day>, k: int) {
    && k >= 0 && (exists start :: IsRun(days, start, k))
    && forall start: Day, n: nat :: IsRun(days, start, n) ==> n <= k
  }

  lemma ExtendRuns(days: seq<Day>, init: seq<Day>, day: Day, s: Streak, next: Streak)
    requires days == init + [day] && init != [] && NonDecreasing(days) && s.last == init[|init| - 1] && s.last != day
    requires RunEndingAt(init, s.last, s.current) && LongestRun(init, s.best)
    requires next == ApplyDailyCompletion(Some(s), day)
    ensures RunEndingAt(days, day, next.current) && LongestRun(days, next.best)
  {
    assert forall d :: d in days <==> d in init || d == day;
    forall d | d in init ensures d <= s.last < day {
      var i :| 0 <= i < |init| && init[i] == d;
      assert days[i] == d && days[|init| - 1] == s.last && days[|init|] == day;
    }
    assert IsRun(days, day - next.current + 1, next.current);
    var start :| IsRun(init, start, s.best);
    assert IsRun(days, start, s.best);
    forall from: Day, n: nat | IsRun(days, from, n) ensures n <= next.best {
      RunFits(days, init, day, from, n, s, next);
    }
  }

  /** A run through the new last day is at most the new current run; any other was there before. */
  lemma RunFits(days: seq<Day>, init: seq<Day>, day: Day, from: Day, n: nat, s: Streak, next: Streak)
    requires (forall d :: d in days <==> d in init || d == day) && forall d | d in init :: d < day
    requires IsRun(days, from, n) && RunEndingAt(days, day, next.current) && LongestRun(init, s.best)
    requires next.best >= s.best && next.best >= next.current
    ensures n <= next.best
  {
    if from <= day < from + n {
      assert from + n > day + 1 ==> day + 1 in days;
      assert from <= day - next.current ==> day - next.current in days;
    } else {
      assert IsRun(init, from, n);
    }
  }

  lemma SameDayKeepsRuns(days: seq<Day>, init: seq<Day>, day: Day)
    requires days == init + [day] && day in init
    ensures forall d :: d in days <==> d in init
  {
  }

  lemma RunsDependOnDays(days: seq<Day>, init: seq<Day>, end: Day, current: int, best: int)
    requires forall d :: d in days <==> d in init
    requires RunEndingAt(init, end, current) && LongestRun(init, best)
    ensures RunEndingAt(days, end, current) && LongestRun(days, best)
  {
    assert IsRun(days, end - current + 1, current);
    var start :| IsRun(init, start, best);
    assert IsRun(days, start, best);
    forall from: Day, n: nat | IsRun(days, from, n) ensures n <= best { assert IsRun(init, from, n); }
  }

  lemma FirstDay(day: Day)
    ensures RunEndingAt([day], day, 1) && LongestRun([day], 1)
  {
    assert IsRun([day], day, 1);
    forall from: Day, n: nat | IsRun([day], from, n) ensures n <= 1 {
      assert n >= 2 ==> from in [day] && from + 1 in [day];
    }
  }

  /** Over any non-decreasing dates the fold's current count is the length of the maximal run of consecutive days
      ending at the last date, and its best count is the longest run; repeated dates change neither. */
  lemma {:induction false} FoldCountsRuns(days: seq<Day>)
    requires NonDecreasing(days) && days != []
    ensures Fold(days).Some? && Fold(days).value.last == days[|days| - 1]
    ensures RunEndingAt(days, days[|days| - 1], Fold(days).value.current) && LongestRun(days, Fold(days).value.best)
  {
    var init, day := days[..|days| - 1], days[|days| - 1];
    assert days == init + [day];
    if init == [] {
      assert days == [day];
      FirstDay(day);
    } else {
      FoldCountsRuns(init);
      var s := Fold(init).value;
      if s.last == day {
        SameDayKeepsRuns(days, init, day);
        RunsDependOnDays(days, init, day, s.current, s.best);
      } else {
        ExtendRuns(days, init, day, s, Fold(days).value);
      }
    }
  }

  // ---- What is stored ----

  /** Day i comes after a gap, and the run before the gap was a single day. */
  predicate Lost(days: seq<Day>, i: nat)
    requires 0 < i < |days|
  {
    days[i] > days[i - 1] + 1 && days[i - 1] - 1 !in days[..i]
  }

  predicate NeverLost(days: seq<Day>) { forall i | 0 < i < |days| :: !Lost(days, i) }

  lemma CurrentIsOneIff(days: seq<Day>)
    requires NonDecreasing(days) && days != []
    ensures Fold(days).Some? && Fold(days).value.last == days[|days| - 1]
    ensures Fold(days).value.current == 1 <==> days[|days| - 1] - 1 !in days
    ensures Fold(days).value.current >= 1
  {
    FoldCountsRuns(days);
    var last, k := days[|days| - 1], Fold(days).value.current;
    if k >= 2 { assert last - 1 in days; }
  }

  lemma LostGrows(days: seq<Day>)
    requires |days| >= 2
    ensures var n := |days| - 1; NeverLost(days) <==> NeverLost(days[..n]) && !Lost(days, n)
  {
    var n := |days| - 1;
    forall i | 0 < i < n ensures Lost(days, i) <==> Lost(days[..n], i) {
      assert days[..n][..i] == days[..i];
    }
  }

  /** Once a day was lost the row is behind, still counts 1, and no later day can move it. */
  predicate Behind(stored: Option<Streak>, days: seq<Day>) {
    stored.Some? && stored.value.current == 1 && days != [] && stored.value.last + 1 < days[|days| - 1]
  }

  lemma {:induction false} PersistedState(days: seq<Day>)
    requires NonDecreasing(days)
    ensures if NeverLost(days) then Persisted(days) == Fold(days) else Behind(Persisted(days), days)
  {
    if |days| >= 1 {
      var init, n := days[..|days| - 1], |days| - 1;
      PersistedState(init);
      if n >= 1 {
        LostGrows(days);
        CurrentIsOneIff(init);
        assert days[..n] == init;
      }
    }
  }

  /** The stored row is the fold iff no gap follows a single-day run. */
  lemma PersistedIsFoldIff(days: seq<Day>)
    requires NonDecreasing(days)
    ensures Persisted(days) == Fold(days) <==> NeverLost(days)
  {
    PersistedState(days);
    if days != [] { CurrentIsOneIff(days); }
  }

  /** After a lost day the stored row never changes again, however many days are completed. */
  lemma {:induction false} LostIsForever(days: seq<Day>, more: seq<Day>)
    requires NonDecreasing(days + more) && !NeverLost(days)
    ensures Persisted(days + more) == Persisted(days)
  {
    if more == [] {
      assert days + more == days;
    } else {
      var init := days + more[..|more| - 1];
      assert (days + more)[..|days + more| - 1] == init;
      LostIsForever(days, more[..|more| - 1]);
      assert days + more == init + [more[|more| - 1]];
      assert NonDecreasing(days) by { assert forall i | 0 <= i < |days| :: days[i] == (days + more)[i]; }
      PersistedState(days);
      assert days[|days| - 1] == (days + more)[|days| - 1];
    }
  }

  /** Days 1, 3, 4 and 5: the fold counts a run of three, the stored row still says one. */
  lemma LostExample()
    ensures Fold([1, 3, 4, 5]) == Some(Streak(3, 3, 5)) && Persisted([1, 3, 4, 5]) == Some(Streak(1, 1, 1))
  {
    var a, b, c, d := [1], [1, 3], [1, 3, 4], [1, 3, 4, 5];
    assert d[..3] == c && c[..2] == b && b[..1] == a && a[..0] == [];
    assert Fold(a) == Some(Streak(1, 1, 1)) && Persisted(a) == Fold(a);
    assert Fold(b) == Some(Streak(1, 1, 3)) && Persisted(b) == Persisted(a);
    assert Fold(c) == Some(Streak(2, 2, 4)) && Persisted(c) == Persisted(a);
  }
}
