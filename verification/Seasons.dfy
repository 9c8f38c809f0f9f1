/** Season rollover: freezing the final positions and opening the next season. */
module Seasons {
  import opened Wrappers
  import opened Scoring
  import opened Rating
  import opened RatingLedger
  import opened Ranking

  const TOP_500_LIMIT := 500
  const GEO_MASTER_1_MIN_RATING := 2000
  const DEFAULT_TOP_500_MIN := 25
  const DEFAULT_DURATION := 84 * 24 * 3600 * 1_000_000_000

  /** The columns the ladder is ordered by. */
  datatype Place = Place(rating: int, wins: int, reachedAt: Instant, user: UserId)

  /** ORDER BY rating DESC, wins DESC, rating_reached_at ASC, user_id ASC. */
  predicate Precedes(x: Place, y: Place) {
    if x.rating != y.rating then x.rating > y.rating
    else if x.wins != y.wins then x.wins > y.wins
    else if x.reachedAt != y.reachedAt then x.reachedAt < y.reachedAt
    else x.user < y.user
  }

  lemma PrecedesIsStrictTotal()
    ensures StrictTotal(Precedes)
  {
  }

  /** The condition the page cursor seeks by, branch by branch. */
  predicate SeekPast(cursor: Place, p: Place) {
    || p.rating < cursor.rating
    || (p.rating == cursor.rating && p.wins < cursor.wins)
    || (p.rating == cursor.rating && p.wins == cursor.wins && p.reachedAt > cursor.reachedAt)
    || (p.rating == cursor.rating && p.wins == cursor.wins && p.reachedAt == cursor.reachedAt && p.user > cursor.user)
  }

  /** What a cursor seeks past is what the ORDER BY lists behind it. */
  lemma SeekIsLadderOrder(cursor: Place, p: Place)
    ensures SeekPast(cursor, p) <==> Precedes(cursor, p)
  {
  }

  function PlaceOf(user: UserId, st: Standing): Place { Place(st.rating, st.wins, st.reachedAt, user) }

  predicate EligibleForTop500(st: Standing, minMatches: int) {
    && st.placements >= PLACEMENTS_REQUIRED
    && st.played >= (if minMatches < 1 then DEFAULT_TOP_500_MIN else minMatches)
    && st.rating >= GEO_MASTER_1_MIN_RATING
  }

  /** The season, its top-500 threshold and the users in good standing: what decides who gets a position. */
  datatype Scope = Scope(season: SeasonId, minMatches: int, goodStanding: set<UserId>)

  type Standings = map<(SeasonId, UserId), Standing>

  predicate Qualifies(standings: Standings, sc: Scope, user: UserId) {
    (sc.season, user) in standings && user in sc.goodStanding && EligibleForTop500(standings[(sc.season, user)], sc.minMatches)
  }

  function EligiblePlaces(standings: Standings, sc: Scope): set<Place> {
    set u | u in sc.goodStanding && Qualifies(standings, sc, u) :: PlaceOf(u, standings[(sc.season, u)])
  }

  function AllPlaces(standings: Standings, season: SeasonId): set<Place> {
    set k | k in standings && k.0 == season :: PlaceOf(k.1, standings[k])
  }

  /** One more than the number of qualifying users ahead. */
  function PositionOf(standings: Standings, sc: Scope, user: UserId): Option<int> {
    if Qualifies(standings, sc, user)
    then Some(1 + |Ahead(EligiblePlaces(standings, sc), Precedes, PlaceOf(user, standings[(sc.season, user)]))|)
    else None
  }

  predicate IsWorldLegendPosition(position: Option<int>) { position.Some? && 1 <= position.value <= TOP_500_LIMIT }

  function RankCodeAt(rating: int, position: Option<int>): RankCode {
    if IsWorldLegendPosition(position) then WorldLegend else RankCodeFromRating(rating)
  }

  /** Columns whose computed value is NULL are left out of the UPDATE. */
  function FrozenStanding(st: Standing, position: Option<int>): Standing {
    var placed := if position.Some? then st.(finalPosition := position) else st;
    if st.placements < PLACEMENTS_REQUIRED then placed
    else placed.(endingRank := Some(RankCodeAt(st.rating, position)), peakRank := Some(RankCodeAt(st.peak, position)))
  }

  function Frozen(standings: Standings, sc: Scope): Standings {
    map k | k in standings :: if k.0 == sc.season then FrozenStanding(standings[k], PositionOf(standings, sc, k.1)) else standings[k]
  }

  // ---- Rollover ----

  datatype RolloverConfig = RolloverConfig(duration: int, initialRating: int, resetBps: int, top500Min: int, eloK: int)

  datatype RolloverResult = Opened(closed: SeasonId, next: SeasonId) | Skipped | AlreadyOpened

  function Normalized(cfg: RolloverConfig): RolloverConfig {
    RolloverConfig(
      if cfg.duration <= 0 then DEFAULT_DURATION else cfg.duration,
      if cfg.initialRating < 0 then DEFAULT_INITIAL_RATING else cfg.initialRating,
      Clamp(cfg.resetBps, 0, 10000),
      if cfg.top500Min < 1 then DEFAULT_TOP_500_MIN else cfg.top500Min,
      if cfg.eloK < 1 then DEFAULT_ELO_K else cfg.eloK)
  }

  function NextSeason(ending: Season, config: RolloverConfig, now: Instant): Season {
    var cfg := Normalized(config);
    var startsAt := if ending.endsAt < now then now else ending.endsAt;
    Season(ending.sequence + 1, SeasonActive, startsAt, startsAt + cfg.duration, None, cfg.initialRating, cfg.eloK, cfg.resetBps, cfg.top500Min)
  }

  predicate SequenceTaken(seasons: seq<Season>, sequence: int) { exists i :: 0 <= i < |seasons| && seasons[i].sequence == sequence }

  function RollOver(l: Ladder, cfg: RolloverConfig, goodStanding: set<UserId>, now: Instant): (Ladder, RolloverResult) {
    match ActiveSeason(l.seasons)
    case None => (l, Skipped)
    case Some(id) => if id >= |l.seasons| || l.seasons[id].endsAt > now then (l, Skipped) else RollOverDue(l, id, cfg, goodStanding, now)
  }

  function RollOverDue(l: Ladder, id: SeasonId, cfg: RolloverConfig, goodStanding: set<UserId>, now: Instant): (Ladder, RolloverResult)
    requires id < |l.seasons|
  {
    var ending := l.seasons[id];
    if SequenceTaken(l.seasons, ending.sequence + 1) then (l, AlreadyOpened)
    else
      (l.(seasons := l.seasons[id := ending.(status := SeasonClosed, closedAt := Some(now))] + [NextSeason(ending, cfg, now)],
          standings := Frozen(l.standings, Scope(id, ending.top500Min, goodStanding))),
       Opened(id, |l.seasons|))
  }

  /** A due rollover closes the running season now and opens the next one from its configuration: the next sequence, from
      now on, for the configured time or 84 days, with the configured rating, K, reset share and threshold or their
      defaults. No change, match or other season's standing moves. */
  lemma RolloverOpensAsConfigured(l: Ladder, cfg: RolloverConfig, goodStanding: set<UserId>, now: Instant)
    requires RollOver(l, cfg, goodStanding, now).1.Opened?
    ensures var (r, result) := RollOver(l, cfg, goodStanding, now);
            var n := |l.seasons|;
            && result.next == n && |r.seasons| == n + 1 && result.closed < n && ActiveSeason(l.seasons) == Some(result.closed)
            && r.seasons[result.closed] == l.seasons[result.closed].(status := SeasonClosed, closedAt := Some(now))
            && (forall i | 0 <= i < n && i != result.closed :: r.seasons[i] == l.seasons[i])
            && var s := r.seasons[n];
               && s.status.SeasonActive? && s.sequence == l.seasons[result.closed].sequence + 1 && s.startsAt == now && s.closedAt.None?
               && s.endsAt == now + (if cfg.duration <= 0 then 84 * 24 * 3600 * 1_000_000_000 else cfg.duration)
               && s.initialRating == (if cfg.initialRating < 0 then 800 else cfg.initialRating)
               && s.eloK == (if cfg.eloK < 1 then 32 else cfg.eloK)
               && s.resetBps == (if cfg.resetBps < 0 then 0 else if cfg.resetBps > 10000 then 10000 else cfg.resetBps)
               && s.top500Min == (if cfg.top500Min < 1 then 25 else cfg.top500Min)
               && r.changes == l.changes && r.matches == l.matches && r.standings.Keys == l.standings.Keys
               && forall k | k in l.standings && k.0 != result.closed :: r.standings[k] == l.standings[k]
  {
    ActiveIsInList(l.seasons);
  }

  lemma {:induction false} ActiveIsInList(seasons: seq<Season>)
    ensures ActiveSeason(seasons).Some? ==> ActiveSeason(seasons).value < |seasons|
  {
    if seasons != [] { ActiveIsInList(seasons[..|seasons| - 1]); }
  }

  /** A rung covers a hundred points, the last one everything from 2000 on. */
  lemma RungCoversAHundred(rating: nat, rung: nat)
    ensures RankCodeFromRating(rating) == Division(rung) <==> rung <= 20 && 100 * rung <= rating && (rung < 20 ==> rating < 100 * rung + 100)
  {
  }

  // ---- What the frozen positions mean ----

  /** The ranked list of qualifying users. */
  function RankedPlaces(standings: Standings, sc: Scope): seq<Place> {
    PrecedesIsStrictTotal();
    Sorted(EligiblePlaces(standings, sc), Precedes)
  }

  lemma EligiblePlaceIsOwn(standings: Standings, sc: Scope, p: Place)
    ensures p in EligiblePlaces(standings, sc) <==> Qualifies(standings, sc, p.user) && p == PlaceOf(p.user, standings[(sc.season, p.user)])
  {
  }

  /** The qualifying users hold positions 1..k, one each, in ladder order; nobody else holds one. */
  lemma PositionsAreTheRanking(standings: Standings, sc: Scope)
    ensures var l := RankedPlaces(standings, sc);
            && (forall i | 0 <= i < |l| :: PositionOf(standings, sc, l[i].user) == Some(i + 1))
            && (forall i, j | 0 <= i < j < |l| :: Precedes(l[i], l[j]) && l[i].user != l[j].user)
            && (forall u | Qualifies(standings, sc, u) :: PlaceOf(u, standings[(sc.season, u)]) in l)
  {
    PrecedesIsStrictTotal();
    var places, l := EligiblePlaces(standings, sc), RankedPlaces(standings, sc);
    SortedIsAscending(places, Precedes);
    forall i | 0 <= i < |l| ensures PositionOf(standings, sc, l[i].user) == Some(i + 1) && l[i] == PlaceOf(l[i].user, standings[(sc.season, l[i].user)]) {
      assert l[i] in places;
      EligiblePlaceIsOwn(standings, sc, l[i]);
      PlaceIsCount(places, Precedes, i);
    }
    forall u | Qualifies(standings, sc, u) ensures PlaceOf(u, standings[(sc.season, u)]) in l {
      EligiblePlaceIsOwn(standings, sc, PlaceOf(u, standings[(sc.season, u)]));
    }
  }

  /** EligibleStandingPosition: the row number within the first 501 rows of the ranked list. */
  function LivePosition(standings: Standings, sc: Scope, user: UserId): Option<int> {
    RowNumber(Limit(RankedPlaces(standings, sc), TOP_500_LIMIT + 1), user)
  }

  function RowNumber(l: seq<Place>, user: UserId): Option<int> {
    if l == [] then None
    else if l[|l| - 1].user == user then Some(|l|)
    else RowNumber(l[..|l| - 1], user)
  }

  lemma {:induction false} RowNumberAt(l: seq<Place>, user: UserId)
    requires forall i, j | 0 <= i < j < |l| :: l[i].user != l[j].user
    ensures forall i | 0 <= i < |l| && l[i].user == user :: RowNumber(l, user) == Some(i + 1)
    ensures (forall i | 0 <= i < |l| :: l[i].user != user) ==> RowNumber(l, user).None?
  {
    if l != [] { RowNumberAt(l[..|l| - 1], user); }
  }

  /** The row number within the first n rows, for a list whose users are distinct. */
  lemma CappedRowNumber(l: seq<Place>, n: nat, user: UserId, i: nat)
    requires forall j, k | 0 <= j < k < |l| :: l[j].user != l[k].user
    requires i < |l| && l[i].user == user
    ensures RowNumber(Limit(l, n), user) == if i < n then Some(i + 1) else None
  {
    var top := Limit(l, n);
    RowNumberAt(top, user);
    if i < n {
      assert top[i].user == user;
    } else {
      assert forall j | 0 <= j < |top| :: top[j] == l[j] && l[j].user != l[i].user;
    }
  }

  /** Freezing assigns the position the live query would have reported, for the first 501. */
  lemma FrozenPositionIsLivePosition(standings: Standings, sc: Scope, user: UserId)
    ensures LivePosition(standings, sc, user)
         == (var p := PositionOf(standings, sc, user); if p.Some? && p.value <= 501 then p else None)
  {
    PositionsAreTheRanking(standings, sc);
    var l := RankedPlaces(standings, sc);
    if Qualifies(standings, sc, user) {
      var i :| 0 <= i < |l| && l[i] == PlaceOf(user, standings[(sc.season, user)]);
      CappedRowNumber(l, TOP_500_LIMIT + 1, user, i);
    } else {
      NobodyElseIsRanked(standings, sc, user);
      AbsentRowNumber(l, TOP_500_LIMIT + 1, user);
    }
  }

  lemma AbsentRowNumber(l: seq<Place>, n: nat, user: UserId)
    requires forall p | p in l :: p.user != user
    requires forall j, k | 0 <= j < k < |l| :: l[j].user != l[k].user
    ensures RowNumber(Limit(l, n), user).None?
  {
    RowNumberAt(Limit(l, n), user);
    assert forall j | 0 <= j < |Limit(l, n)| :: Limit(l, n)[j] in l;
  }

  lemma NobodyElseIsRanked(standings: Standings, sc: Scope, user: UserId)
    requires !Qualifies(standings, sc, user)
    ensures forall p | p in RankedPlaces(standings, sc) :: p.user != user
  {
    PrecedesIsStrictTotal();
    SortedIsAscending(EligiblePlaces(standings, sc), Precedes);
    forall p | p in RankedPlaces(standings, sc) ensures p.user != user {
      EligiblePlaceIsOwn(standings, sc, p);
    }
  }

  /** World Legend is exactly a visible position in the first 500, at the season's end and at its peak. */
  lemma WorldLegendIffTop500(standings: Standings, sc: Scope, user: UserId)
    requires (sc.season, user) in standings
    ensures var frozen := Frozen(standings, sc)[(sc.season, user)];
            var st := standings[(sc.season, user)];
            st.placements >= PLACEMENTS_REQUIRED ==>
              var p := PositionOf(standings, sc, user);
              && (frozen.endingRank == Some(WorldLegend) <==> p.Some? && p.value <= 500)
              && (frozen.peakRank == Some(WorldLegend) <==> p.Some? && p.value <= 500)
              && (p.None? || p.value > 500 ==>
                    frozen.endingRank == Some(RankCodeFromRating(st.rating)) && frozen.peakRank == Some(RankCodeFromRating(st.peak)))
  {
  }
}
