/** The rating a player starts a season with. */
module StartingRatings {
  import opened Wrappers
  import opened Scoring
  import opened Rating
  import opened RatingLedger
  import opened Seasons
  import opened LadderRuns

  /** The latest closed season other than this one in which the user has a standing, among the first n. */
  function PreviousClosed(l: Ladder, season: SeasonId, user: UserId, n: nat): Option<SeasonId>
    requires n <= |l.seasons|
  {
    if n == 0 then None
    else if l.seasons[n - 1].status.SeasonClosed? && n - 1 != season && (n - 1, user) in l.standings then Some(n - 1)
    else PreviousClosed(l, season, user, n - 1)
  }

  lemma {:induction false} PreviousClosedIsLatest(l: Ladder, season: SeasonId, user: UserId, n: nat)
    requires n <= |l.seasons|
    ensures var p := PreviousClosed(l, season, user, n);
            && (p.Some? ==> p.value < n && (p.value, user) in l.standings && l.seasons[p.value].status.SeasonClosed? && p.value != season)
            && (forall s: SeasonId | s < n && l.seasons[s].status.SeasonClosed? && s != season && (s, user) in l.standings :: p.Some? && s <= p.value)
  {
    if n > 0 { PreviousClosedIsLatest(l, season, user, n - 1); }
  }

  function StartingRating(l: Ladder, season: SeasonId, user: UserId): int
    requires season < |l.seasons|
  {
    var s, previous := l.seasons[season], PreviousClosed(l, season, user, |l.seasons|);
    if previous.Some? && (previous.value, user) in l.standings
    then SoftReset(l.standings[(previous.value, user)].rating, s.initialRating, s.resetBps)
    else if s.initialRating < 0 then DEFAULT_INITIAL_RATING else s.initialRating
  }

  function EnsureStandingWithSoftReset(l: Ladder, season: SeasonId, user: UserId, now: Instant): Ladder {
    if season >= |l.seasons| then l else EnsureStanding(l, season, user, StartingRating(l, season, user), now)
  }

  /** How much of the distance to the anchor a season keeps, in ten-thousandths. */
  function Share(s: Season): int { if s.resetBps < 0 then 0 else if s.resetBps > 10000 then 10000 else s.resetBps }

  /** A new standing keeps the season's share of the distance between its anchor and the rating the user's latest closed
      season ended with, to the nearest point, or starts at the anchor when there was none; an existing standing is left alone, so asking again changes nothing. */
  lemma SoftResetStartsBetween(l: Ladder, season: SeasonId, user: UserId, now: Instant, again: Instant)
    requires Inv(l) && season < |l.seasons| && l.seasons[season].initialRating >= 0
    ensures var r, anchor := EnsureStandingWithSoftReset(l, season, user, now), l.seasons[season].initialRating;
            var previous := PreviousClosed(l, season, user, |l.seasons|);
            && (season, user) in r.standings
            && ((season, user) in l.standings ==> r == l)
            && ((season, user) !in l.standings ==>
                  var rating := r.standings[(season, user)].rating;
                  if previous.None? then rating == anchor
                  else
                    && (previous.value, user) in l.standings
                    && var last := l.standings[(previous.value, user)].rating;
                       && (if last >= anchor then anchor <= rating <= last else last <= rating <= anchor)
                       && IsShare(rating - anchor, last - anchor, Share(l.seasons[season])))
            && EnsureStandingWithSoftReset(r, season, user, again) == r
  {
    PreviousClosedIsLatest(l, season, user, |l.seasons|);
    var previous := PreviousClosed(l, season, user, |l.seasons|);
    if previous.Some? {
      var st := l.standings[(previous.value, user)];
      assert Telescopes(st, History(l.changes, previous.value, user));
      SoftResetContracts(st.rating, l.seasons[season].initialRating, l.seasons[season].resetBps);
      SoftResetKeepsTheShare(st.rating, l.seasons[season].initialRating, l.seasons[season].resetBps,
                             st.rating - l.seasons[season].initialRating, Share(l.seasons[season]));
    }
  }

  // ---- The whole history, from the insert on ----

  /** Where a standing's history starts. */
  function StartOf(l: Ladder, k: (SeasonId, UserId)): int
    requires k in l.standings
  {
    var h := History(l.changes, k.0, k.1);
    if h == [] then l.standings[k].rating else h[0].oldRating
  }

  /** The rating a step inserts a missing standing with. */
  function InsertedRating(step: Step): int {
    match step
    case FinalizeStep(input) => InitialRating(input.initialRating)
    case EnsureStep(_, _, rating, _) => Max(rating, 0)
    case _ => 0
  }

  /** The rating the standing was inserted with along a run. */
  function OpeningRating(l: Ladder, e: Expectation, steps: seq<Step>, k: (SeasonId, UserId)): int {
    if steps == [] then 0
    else
      var init := steps[..|steps| - 1];
      if k in Run(l, e, init).standings then OpeningRating(l, e, init, k) else InsertedRating(steps[|steps| - 1])
  }

  lemma FinalizeStart(l: Ladder, input: FinalizeInput, e: Expectation, k: (SeasonId, UserId))
    requires Inv(l)
    ensures var r := Finalize(l, input, e).0;
            && (k in l.standings ==> k in r.standings)
            && (k in r.standings ==> StartOf(r, k) == if k in l.standings then StartOf(l, k) else InitialRating(input.initialRating))
  {
    var c, standings := FinalizeCases(l, input, e);
    var (r, result) := Finalize(l, input, e);
    if result.Applied? && k in r.standings {
      assert MatchOk(l, input.matchId);
      WrittenStart(l, input, r, result.changes, c, standings, k);
    }
  }

  lemma WrittenStart(l: Ladder, input: FinalizeInput, r: Ladder, chs: seq<Change>, c: Pairing, standings: Standings, k: (SeasonId, UserId))
    requires Owned(l) && Writes(l, input, r, chs, c, standings) && k in r.standings && Ordered(l.matches[input.matchId].participants)
    ensures StartOf(r, k) == if k in l.standings then StartOf(l, k) else InitialRating(input.initialRating)
  {
    var parts := l.matches[input.matchId].participants;
    OrderedIsDistinct(parts);
    FindFinds(parts, k.1);
    HistoryAppend(l.changes, chs, k.0, k.1);
    PlayChangesHistory(standings, parts, c, k.0, k.1);
    if k !in l.standings { NoHistory(l.changes, k.0, k.1); }
  }

  lemma RollOverStart(l: Ladder, cfg: RolloverConfig, goodStanding: set<UserId>, now: Instant, k: (SeasonId, UserId))
    ensures var r := RollOver(l, cfg, goodStanding, now).0;
            (k in l.standings <==> k in r.standings) && (k in l.standings ==> StartOf(r, k) == StartOf(l, k))
  {
  }

  lemma EnsureStart(l: Ladder, season: SeasonId, user: UserId, rating: int, at: Instant, k: (SeasonId, UserId))
    requires Owned(l)
    ensures var r := EnsureStanding(l, season, user, rating, at);
            && (k in l.standings ==> k in r.standings)
            && (k in r.standings ==> StartOf(r, k) == if k in l.standings then StartOf(l, k) else Max(rating, 0))
  {
    if k !in l.standings { NoHistory(l.changes, k.0, k.1); }
  }

  lemma StepStart(l: Ladder, e: Expectation, step: Step, k: (SeasonId, UserId))
    requires Inv(l)
    ensures var r := Next(l, e, step);
            && (k in l.standings ==> k in r.standings)
            && (k in r.standings ==> StartOf(r, k) == if k in l.standings then StartOf(l, k) else InsertedRating(step))
  {
    match step
    case FinalizeStep(input) => FinalizeStart(l, input, e, k);
    case RollOverStep(cfg, goodStanding, now) => RollOverStart(l, cfg, goodStanding, now, k);
    case EnsureStep(season, user, rating, at) => EnsureStart(l, season, user, rating, at, k);
    case ReportStep(_, _) =>
  }

  lemma {:induction false} StartIsOpening(l: Ladder, e: Expectation, steps: seq<Step>, k: (SeasonId, UserId))
    requires Inv(l) && k !in l.standings && k in Run(l, e, steps).standings
    ensures StartOf(Run(l, e, steps), k) == OpeningRating(l, e, steps, k)
  {
    var init := steps[..|steps| - 1];
    RunKeepsInv(l, e, init);
    StepStart(Run(l, e, init), e, steps[|steps| - 1], k);
    if k in Run(l, e, init).standings { StartIsOpening(l, e, init, k); }
  }

  lemma StartAndChanges(r: Ladder, k: (SeasonId, UserId))
    requires Telescoping(r) && k in r.standings
    ensures var st, h := r.standings[k], History(r.changes, k.0, k.1);
            0 <= StartOf(r, k) <= st.peak && st.rating == StartOf(r, k) + SumTotals(h)
  {
    TelescopingFacts(r.standings[k], History(r.changes, k.0, k.1));
    ChainMeans(History(r.changes, k.0, k.1));
  }

  /** Over every run a rating is the rating its standing was inserted with plus the changes recorded for it, and the first
      change starts there: nothing else ever moves a rating. */
  lemma RatingIsOpeningPlusChanges(l: Ladder, e: Expectation, steps: seq<Step>, k: (SeasonId, UserId))
    requires Inv(l) && k !in l.standings && k in Run(l, e, steps).standings
    ensures var r, opening := Run(l, e, steps), OpeningRating(l, e, steps, k);
            var st, h := r.standings[k], History(r.changes, k.0, k.1);
            && StartOf(r, k) == opening && 0 <= opening <= st.peak
            && st.rating == opening + SumTotals(h) && (h != [] ==> h[0].oldRating == opening)
  {
    StartIsOpening(l, e, steps, k);
    RunKeepsInv(l, e, steps);
    StartAndChanges(Run(l, e, steps), k);
  }
}
