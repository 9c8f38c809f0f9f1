/** The rating ledger: seasons, standings, rating changes and the exactly-once finalization of a match. */
module RatingLedger {
  import opened Wrappers
  import opened Game
  import opened Rating
  import opened Scoring

  type SeasonId = nat
  type UserId = int
  type MatchId = int

  const DEFAULT_INITIAL_RATING := 800

  /** World Legend, or a rung of the 21-division ladder counted from Scout III. */
  datatype RankCode = WorldLegend | Division(rung: nat)

  function RankCodeFromRating(rating: int): RankCode {
    if rating < 0 then Division(0) else if rating >= 2000 then Division(20) else Division(rating / 100)
  }

  function OptionalRankCode(rating: int, placements: int): Option<RankCode> {
    if placements < PLACEMENTS_REQUIRED then None else Some(RankCodeFromRating(rating))
  }

  datatype Standing = Standing(
    rating: int, placements: int, played: int, wins: int, losses: int, ties: int, abandons: int, peak: int, reachedAt: Instant,
    lastMatch: Option<MatchId>, finalPosition: Option<int>, endingRank: Option<RankCode>, peakRank: Option<RankCode>)

  datatype Change = Change(
    season: SeasonId, matchId: MatchId, user: UserId, slot: int, outcome: EloOutcome, ownAverage: int, opponentAverage: int,
    base: int, penalty: int, oldRating: int, newRating: int, total: int,
    oldRank: Option<RankCode>, newRank: Option<RankCode>, createdAt: Instant)

  datatype Participant = Participant(user: UserId, slot: int, abandoned: bool)

  /** What finalization reads of a match; participants come in user order. */
  datatype MatchRecord = MatchRecord(
    ranked: bool, completed: bool, result: Option<TeamResult>, winner: Option<int>, season: Option<SeasonId>,
    participants: seq<Participant>, finalizedAt: Option<Instant>)

  datatype SeasonStatus = SeasonActive | SeasonClosed

  datatype Season = Season(
    sequence: int, status: SeasonStatus, startsAt: Instant, endsAt: Instant, closedAt: Option<Instant>,
    initialRating: int, eloK: int, resetBps: int, top500Min: int)

  /** The competitive tables. A season's id is its index; seasons are never deleted. */
  datatype Ladder = Ladder(
    seasons: seq<Season>, standings: map<(SeasonId, UserId), Standing>, changes: seq<Change>, matches: map<MatchId, MatchRecord>)

  datatype FinalizeError =
    | MatchNotFound | MatchNotRanked | MatchNotTerminal | MatchNotReady | NoActiveSeason | SeasonMismatch
    | InvalidResult | CheckViolation | ProgressionPending

  datatype FinalizeResult = Applied(changes: seq<Change>) | Replayed(changes: seq<Change>) | Failed(error: FinalizeError)

  datatype FinalizeInput = FinalizeInput(matchId: MatchId, eloK: int, abandonPenalty: int, initialRating: int, now: Instant)

  // ---- Queries ----

  function ActiveSeason(seasons: seq<Season>): Option<SeasonId> {
    if seasons == [] then None
    else if seasons[|seasons| - 1].status.SeasonActive? then Some(|seasons| - 1)
    else ActiveSeason(seasons[..|seasons| - 1])
  }

  function MatchChanges(changes: seq<Change>, matchId: MatchId): seq<Change> {
    if changes == [] then []
    else MatchChanges(changes[..|changes| - 1], matchId) + if changes[|changes| - 1].matchId == matchId then [changes[|changes| - 1]] else []
  }

  /** One user's changes in one season, in the order they were made. */
  function History(changes: seq<Change>, season: SeasonId, user: UserId): seq<Change> {
    if changes == [] then []
    else
      var last := changes[|changes| - 1];
      History(changes[..|changes| - 1], season, user) + if last.season == season && last.user == user then [last] else []
  }

  function Find(parts: seq<Participant>, user: UserId): Option<Participant> {
    if parts == [] then None
    else if parts[|parts| - 1].user == user then Some(parts[|parts| - 1])
    else Find(parts[..|parts| - 1], user)
  }

  function TeamRatings(standings: map<(SeasonId, UserId), Standing>, season: SeasonId, parts: seq<Participant>, slot: int): seq<int> {
    if parts == [] then []
    else
      var last := parts[|parts| - 1];
      TeamRatings(standings, season, parts[..|parts| - 1], slot)
      + if last.slot == slot && (season, last.user) in standings then [standings[(season, last.user)].rating] else []
  }

  // ---- One participant ----

  /** What both teams of a match share. */
  datatype Pairing = Pairing(
    season: SeasonId, matchId: MatchId, now: Instant, average1: int, average2: int,
    outcome1: EloOutcome, outcome2: EloOutcome, base1: int, base2: int, magnitude: int)

  function NewStanding(rating: int, now: Instant): Standing {
    Standing(rating, 0, 0, 0, 0, 0, 0, rating, now, None, None, None, None)
  }

  function OutcomeOf(c: Pairing, p: Participant): EloOutcome { if p.slot == 1 then c.outcome1 else c.outcome2 }

  function BaseOf(c: Pairing, p: Participant): int { if p.slot == 1 then c.base1 else c.base2 }

  function ChangeOf(c: Pairing, p: Participant, st: Standing): Change {
    var penalty := AbandonPenalty(p.abandoned, c.magnitude);
    var (newRating, total) := ApplyRating(st.rating, BaseOf(c, p), penalty);
    Change(c.season, c.matchId, p.user, p.slot, OutcomeOf(c, p),
           if p.slot == 1 then c.average1 else c.average2, if p.slot == 1 then c.average2 else c.average1,
           BaseOf(c, p), penalty, st.rating, newRating, total,
           OptionalRankCode(st.rating, st.placements), OptionalRankCode(newRating, NextPlacements(st.placements)), c.now)
  }

  /** A standing after one change of its own. */
  function Played(st: Standing, ch: Change, abandoned: bool): Standing {
    st.(rating := ch.newRating, placements := NextPlacements(st.placements), played := st.played + 1,
        wins := st.wins + (if ch.outcome.Win? then 1 else 0),
        losses := st.losses + (if ch.outcome.Loss? then 1 else 0),
        ties := st.ties + (if ch.outcome.Tie? then 1 else 0),
        abandons := st.abandons + (if abandoned then 1 else 0),
        peak := if ch.newRating > st.peak then ch.newRating else st.peak,
        reachedAt := if ch.total != 0 then ch.createdAt else st.reachedAt,
        lastMatch := Some(ch.matchId))
  }

  // ---- The transaction ----

  predicate AllStand(standings: map<(SeasonId, UserId), Standing>, season: SeasonId, parts: seq<Participant>) {
    forall i | 0 <= i < |parts| :: (season, parts[i].user) in standings
  }

  /** INSERT ... ON CONFLICT DO NOTHING for every participant. */
  function Ensured(standings: map<(SeasonId, UserId), Standing>, season: SeasonId, parts: seq<Participant>, rating: int, now: Instant)
    : (r: map<(SeasonId, UserId), Standing>)
    ensures AllStand(r, season, parts)
    ensures forall k | k in standings :: k in r && r[k] == standings[k]
    ensures forall k | k in r && k !in standings :: r[k] == NewStanding(rating, now) && k.0 == season && Find(parts, k.1).Some?
  {
    if parts == [] then standings
    else
      var before := Ensured(standings, season, parts[..|parts| - 1], rating, now);
      var k := (season, parts[|parts| - 1].user);
      FindLocates(parts);
      if k in before then before else before[k := NewStanding(rating, now)]
  }

  lemma FindLocates(parts: seq<Participant>)
    requires parts != []
    ensures Find(parts, parts[|parts| - 1].user).Some?
    ensures forall u | Find(parts[..|parts| - 1], u).Some? :: Find(parts, u).Some?
  {
  }

  function PlayChanges(standings: map<(SeasonId, UserId), Standing>, parts: seq<Participant>, c: Pairing): seq<Change>
    requires AllStand(standings, c.season, parts)
  {
    if parts == [] then []
    else
      var last := parts[|parts| - 1];
      PlayChanges(standings, parts[..|parts| - 1], c) + [ChangeOf(c, last, standings[(c.season, last.user)])]
  }

  function PlayStandings(standings: map<(SeasonId, UserId), Standing>, parts: seq<Participant>, c: Pairing)
    : (r: map<(SeasonId, UserId), Standing>)
    requires AllStand(standings, c.season, parts)
    ensures r.Keys == standings.Keys
  {
    map k | k in standings :: PlayedAt(standings[k], k, parts, c)
  }

  function PlayedAt(st: Standing, k: (SeasonId, UserId), parts: seq<Participant>, c: Pairing): Standing {
    var p := Find(parts, k.1);
    if k.0 == c.season && p.Some? then Played(st, ChangeOf(c, p.value, st), p.value.abandoned) else st
  }

  function Magnitude(input: int): int { if input < 0 then -input else if input == 0 then DEFAULT_ABANDON_PENALTY else input }

  predicate HasChange(changes: seq<Change>, matchId: MatchId, user: UserId) {
    exists i :: 0 <= i < |changes| && changes[i].matchId == matchId && changes[i].user == user
  }

  /** The first insert the table refuses: its penalty must be 0 or -15, and (match, user) is unique. A unique violation
      rolls back and reloads the match, which then still has no marker. */
  function InsertError(changes: seq<Change>, matchId: MatchId, parts: seq<Participant>, magnitude: int): Option<FinalizeError> {
    if parts == [] then None
    else
      var before, last := InsertError(changes, matchId, parts[..|parts| - 1], magnitude), parts[|parts| - 1];
      if before.Some? then before
      else if last.abandoned && magnitude != DEFAULT_ABANDON_PENALTY then Some(CheckViolation)
      else if HasChange(changes, matchId, last.user) then Some(ProgressionPending)
      else None
  }

  function PairingFor(input: FinalizeInput, e: Expectation, season: SeasonId, ratings1: seq<int>, ratings2: seq<int>, one: EloOutcome, two: EloOutcome): Pairing
    requires ratings1 != [] && ratings2 != []
  {
    var a, b := AverageOf(Sum(ratings1), |ratings1|), AverageOf(Sum(ratings2), |ratings2|);
    Pairing(season, input.matchId, input.now, a, b, one, two,
            BaseDelta(input.eloK, ActualScore(one), e(a, b)), BaseDelta(input.eloK, ActualScore(two), e(b, a)), Magnitude(input.abandonPenalty))
  }

  predicate Validated(m: MatchRecord) {
    m.ranked && m.completed && m.result.Some? && !m.result.value.ResultCancelled? && m.season.Some?
  }

  function ValidationError(m: MatchRecord): FinalizeError {
    if !m.ranked then MatchNotRanked else if !m.completed then MatchNotTerminal else MatchNotReady
  }

  function Finalize(l: Ladder, input: FinalizeInput, e: Expectation): (Ladder, FinalizeResult) {
    if input.matchId !in l.matches then (l, Failed(MatchNotFound))
    else
      var m := l.matches[input.matchId];
      if !Validated(m) then (l, Failed(ValidationError(m)))
      else if m.finalizedAt.Some? then (l, Replayed(MatchChanges(l.changes, input.matchId)))
      else if ActiveSeason(l.seasons).None? then (l, Failed(NoActiveSeason))
      else if m.season != ActiveSeason(l.seasons) then (l, Failed(SeasonMismatch))
      else if m.participants == [] then (l, Failed(MatchNotReady))
      else FinalizeFresh(l, input, e, m)
  }

  function InitialRating(input: int): int { if input < 0 then DEFAULT_INITIAL_RATING else input }

  function FinalizeFresh(l: Ladder, input: FinalizeInput, e: Expectation, m: MatchRecord): (Ladder, FinalizeResult)
    requires m.season.Some? && m.result.Some?
  {
    var season, parts := m.season.value, m.participants;
    var standings := Ensured(l.standings, season, parts, InitialRating(input.initialRating), input.now);
    var team1, team2 := TeamRatings(standings, season, parts, 1), TeamRatings(standings, season, parts, 2);
    var one, two := OutcomeForTeam(m.result.value, 1, m.winner), OutcomeForTeam(m.result.value, 2, m.winner);
    if team1 == [] || team2 == [] then (l, Failed(MatchNotReady))
    else if one.None? || two.None? then (l, Failed(InvalidResult))
    else if InsertError(l.changes, input.matchId, parts, Magnitude(input.abandonPenalty)).Some?
    then (l, Failed(InsertError(l.changes, input.matchId, parts, Magnitude(input.abandonPenalty)).value))
    else
      var c := PairingFor(input, e, season, team1, team2, one.value, two.value);
      var changes := PlayChanges(standings, parts, c);
      (Ladder(l.seasons, PlayStandings(standings, parts, c), l.changes + changes,
              l.matches[input.matchId := m.(finalizedAt := Some(input.now))]),
       Applied(changes))
  }
}
