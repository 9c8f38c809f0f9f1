/** What an applied finalization records, read from the recorded changes alone, and exactly when one applies. */
module FinalizedRatings {
  import opened Wrappers
  import opened Game
  import opened Scoring
  import opened Rating
  import opened RatingLedger
  import opened Seasons
  import opened LadderRuns
  import RatingConservation

  /** The ratings one team brought into the match, as its changes recorded them. */
  function OldRatings(h: seq<Change>, slot: int): seq<int> {
    if h == [] then []
    else OldRatings(h[..|h| - 1], slot) + if h[|h| - 1].slot == slot then [h[|h| - 1].oldRating] else []
  }

  /** The integer nearest to the mean, the upper one of two. */
  predicate IsMean(average: int, ratings: seq<int>) {
    ratings != [] && -|ratings| <= 2 * Sum(ratings) - 2 * |ratings| * average < |ratings|
  }

  lemma RoundedMean(sum: nat, n: nat)
    requires n >= 1
    ensures -(n as int) <= 2 * sum - 2 * n * ((sum + n / 2) / n) < n
  {
    var q := (sum + n / 2) / n;
    assert sum + n / 2 == n * q + (sum + n / 2) % n;
    assert 2 * n * q == 2 * (n * q);
  }

  lemma {:induction false} SumIsNatural(ratings: seq<int>)
    requires forall i | 0 <= i < |ratings| :: ratings[i] >= 0
    ensures Sum(ratings) >= 0
  {
    if ratings != [] { SumIsNatural(ratings[..|ratings| - 1]); }
  }

  lemma AverageIsMean(ratings: seq<int>)
    requires ratings != [] && forall i | 0 <= i < |ratings| :: ratings[i] >= 0
    ensures IsMean(AverageOf(Sum(ratings), |ratings|), ratings)
  {
    SumIsNatural(ratings);
    RoundedMean(Sum(ratings), |ratings|);
  }

  // ---- Outcomes and points ----

  /** What the stored result decides for a team: its own win, the other's, a draw, or the named winner of a match that
      was not played out. */
  predicate Decides(result: TeamResult, winner: Option<int>, slot: int, outcome: EloOutcome) {
    match result
    case TeamOneWin => outcome == if slot == 1 then Win else Loss
    case TeamTwoWin => outcome == if slot == 2 then Win else Loss
    case Draw => outcome == Tie
    case ResultCancelled => false
    case _ => winner.Some? && outcome == if winner.value == slot then Win else Loss
  }

  /** The base change is the integer nearest to K times the points scored less the points expected. */
  ghost predicate IsEloChange(base: int, k: int, outcome: EloOutcome, expected: real) {
    var points := if outcome.Win? then 1.0 else if outcome.Loss? then 0.0 else 0.5;
    var exact := (if k <= 0 then 32 else k) as real * (points - expected);
    exact - 0.5 <= base as real <= exact + 0.5
  }

  lemma BaseIsEloChange(k: int, outcome: EloOutcome, expected: real)
    ensures IsEloChange(BaseDelta(k, ActualScore(outcome), expected), k, outcome, expected)
  {
    RoundsToNearest((if k <= 0 then 32 else k) as real * (ActualScore(outcome) - expected));
  }

  lemma OutcomeIsDecided(result: TeamResult, slot: int, winner: Option<int>)
    ensures OutcomeForTeam(result, slot, winner).Some? ==> Decides(result, winner, slot, OutcomeForTeam(result, slot, winner).value)
  {
  }

  // ---- The recorded changes ----

  /** The rating a participant has when the match is finalized: their own, or the initial one. */
  function RatingBefore(l: Ladder, season: SeasonId, user: UserId, initialRating: int): int {
    if (season, user) in l.standings then l.standings[(season, user)].rating else if initialRating < 0 then 800 else initialRating
  }

  /** One change against its match, its team mates and its opponents. */
  ghost predicate Rated(ch: Change, h: seq<Change>, m: MatchRecord, p: Participant, input: FinalizeInput, e: Expectation)
    requires m.result.Some?
  {
    && ch.user == p.user && ch.slot == p.slot && ch.matchId == input.matchId && ch.createdAt == input.now
    && IsMean(ch.ownAverage, OldRatings(h, p.slot)) && IsMean(ch.opponentAverage, OldRatings(h, 3 - p.slot))
    && Decides(m.result.value, m.winner, p.slot, ch.outcome)
    && IsEloChange(ch.base, input.eloK, ch.outcome, e(ch.ownAverage, ch.opponentAverage))
    && ch.penalty == (if p.abandoned then -15 else 0)
    && ch.newRating == Max(0, ch.oldRating + ch.base + ch.penalty)
  }

  /** The pairing of an applied finalization, with the ratings it averaged. */
  lemma AppliedPairing(l: Ladder, input: FinalizeInput, e: Expectation) returns (c: Pairing, standings: Standings)
    requires Finalize(l, input, e).1.Applied?
    ensures var m, (r, result) := l.matches[input.matchId], Finalize(l, input, e);
            && input.matchId in l.matches && Validated(m) && m.season == ActiveSeason(l.seasons)
            && standings == Ensured(l.standings, m.season.value, m.participants, InitialRating(input.initialRating), input.now)
            && var one, two := TeamRatings(standings, m.season.value, m.participants, 1), TeamRatings(standings, m.season.value, m.participants, 2);
               && one != [] && two != []
               && OutcomeForTeam(m.result.value, 1, m.winner).Some? && OutcomeForTeam(m.result.value, 2, m.winner).Some?
               && c == PairingFor(input, e, m.season.value, one, two,
                                  OutcomeForTeam(m.result.value, 1, m.winner).value, OutcomeForTeam(m.result.value, 2, m.winner).value)
               && result.changes == PlayChanges(standings, m.participants, c)
               && r.standings == PlayStandings(standings, m.participants, c)
               && InsertError(l.changes, input.matchId, m.participants, c.magnitude).None?
  {
    var m := l.matches[input.matchId];
    standings := Ensured(l.standings, m.season.value, m.participants, InitialRating(input.initialRating), input.now);
    c := PairingFor(input, e, m.season.value, TeamRatings(standings, m.season.value, m.participants, 1), TeamRatings(standings, m.season.value, m.participants, 2),
                    OutcomeForTeam(m.result.value, 1, m.winner).value, OutcomeForTeam(m.result.value, 2, m.winner).value);
  }

  lemma {:induction false} TeamRatingsAreOldRatings(standings: Standings, parts: seq<Participant>, c: Pairing, slot: int)
    requires AllStand(standings, c.season, parts)
    ensures OldRatings(PlayChanges(standings, parts, c), slot) == TeamRatings(standings, c.season, parts, slot)
  {
    if parts != [] {
      TeamRatingsAreOldRatings(standings, parts[..|parts| - 1], c, slot);
      var h := PlayChanges(standings, parts, c);
      assert h[..|h| - 1] == PlayChanges(standings, parts[..|parts| - 1], c);
    }
  }

  lemma {:induction false} TeamRatingsAreNatural(standings: Standings, parts: seq<Participant>, season: SeasonId, slot: int)
    requires forall k | k in standings :: standings[k].rating >= 0
    ensures forall i | 0 <= i < |TeamRatings(standings, season, parts, slot)| :: TeamRatings(standings, season, parts, slot)[i] >= 0
  {
    if parts != [] { TeamRatingsAreNatural(standings, parts[..|parts| - 1], season, slot); }
  }

  lemma {:induction false} NoIllegalPenalty(changes: seq<Change>, id: MatchId, parts: seq<Participant>, magnitude: int)
    requires InsertError(changes, id, parts, magnitude).None?
    ensures forall i | 0 <= i < |parts| && parts[i].abandoned :: magnitude == 15
  {
    if parts != [] { NoIllegalPenalty(changes, id, parts[..|parts| - 1], magnitude); }
  }

  lemma PairingAverages(c: Pairing, input: FinalizeInput, e: Expectation, one: seq<int>, two: seq<int>, o1: EloOutcome, o2: EloOutcome)
    requires one != [] && two != [] && (forall i | 0 <= i < |one| :: one[i] >= 0) && (forall i | 0 <= i < |two| :: two[i] >= 0)
    requires c == PairingFor(input, e, c.season, one, two, o1, o2)
    ensures IsMean(c.average1, one) && IsMean(c.average2, two)
    ensures IsEloChange(c.base1, input.eloK, o1, e(c.average1, c.average2)) && IsEloChange(c.base2, input.eloK, o2, e(c.average2, c.average1))
  {
    AverageIsMean(one);
    AverageIsMean(two);
    BaseIsEloChange(input.eloK, o1, e(c.average1, c.average2));
    BaseIsEloChange(input.eloK, o2, e(c.average2, c.average1));
  }

  /** The pairing's averages and bases are those of the recorded changes. */
  ghost predicate Fits(c: Pairing, h: seq<Change>, m: MatchRecord, input: FinalizeInput, e: Expectation) {
    && m.result.Some? && c.matchId == input.matchId && c.now == input.now
    && OutcomeForTeam(m.result.value, 1, m.winner) == Some(c.outcome1) && OutcomeForTeam(m.result.value, 2, m.winner) == Some(c.outcome2)
    && IsMean(c.average1, OldRatings(h, 1)) && IsMean(c.average2, OldRatings(h, 2))
    && IsEloChange(c.base1, input.eloK, c.outcome1, e(c.average1, c.average2)) && IsEloChange(c.base2, input.eloK, c.outcome2, e(c.average2, c.average1))
  }

  lemma ChangeIsRated(h: seq<Change>, m: MatchRecord, p: Participant, st: Standing, c: Pairing, input: FinalizeInput, e: Expectation)
    requires Fits(c, h, m, input, e) && (p.slot == 1 || p.slot == 2) && st.rating >= 0 && (p.abandoned ==> c.magnitude == 15)
    ensures Rated(ChangeOf(c, p, st), h, m, p, input, e)
  {
    OutcomeIsDecided(m.result.value, p.slot, m.winner);
  }

  lemma {:induction false} OrderedSlots(parts: seq<Participant>)
    requires Ordered(parts)
    ensures forall i | 0 <= i < |parts| :: parts[i].slot == 1 || parts[i].slot == 2
  {
    if parts != [] { OrderedSlots(parts[..|parts| - 1]); }
  }

  lemma AppliedFits(l: Ladder, input: FinalizeInput, e: Expectation) returns (c: Pairing, standings: Standings)
    requires Telescoping(l) && Owned(l) && Finalize(l, input, e).1.Applied?
    ensures var m, (r, result) := l.matches[input.matchId], Finalize(l, input, e);
            && input.matchId in l.matches && m.season == Some(c.season)
            && standings == Ensured(l.standings, c.season, m.participants, InitialRating(input.initialRating), input.now)
            && (forall k | k in standings :: standings[k].rating >= 0)
            && r.standings == PlayStandings(standings, m.participants, c) && result.changes == PlayChanges(standings, m.participants, c)
            && r.changes == l.changes + result.changes
            && InsertError(l.changes, input.matchId, m.participants, c.magnitude).None?
            && Fits(c, result.changes, m, input, e)
  {
    c, standings := AppliedPairing(l, input, e);
    var parts := l.matches[input.matchId].participants;
    RatingConservation.EnsuredRatings(l, c.season, parts, InitialRating(input.initialRating), input.now);
    TeamRatingsAreNatural(standings, parts, c.season, 1);
    TeamRatingsAreNatural(standings, parts, c.season, 2);
    PairingAverages(c, input, e, TeamRatings(standings, c.season, parts, 1), TeamRatings(standings, c.season, parts, 2), c.outcome1, c.outcome2);
    TeamRatingsAreOldRatings(standings, parts, c, 1);
    TeamRatingsAreOldRatings(standings, parts, c, 2);
  }

  lemma ChangesAreRated(h: seq<Change>, m: MatchRecord, standings: Standings, c: Pairing, input: FinalizeInput, e: Expectation)
    requires AllStand(standings, c.season, m.participants) && Fits(c, h, m, input, e) && h == PlayChanges(standings, m.participants, c)
    requires forall k | k in standings :: standings[k].rating >= 0
    requires forall i | 0 <= i < |m.participants| :: m.participants[i].slot == 1 || m.participants[i].slot == 2
    requires forall i | 0 <= i < |m.participants| && m.participants[i].abandoned :: c.magnitude == 15
    ensures |h| == |m.participants| && forall i | 0 <= i < |h| :: Rated(h[i], h, m, m.participants[i], input, e)
  {
    var parts := m.participants;
    PlayChangesAt(standings, parts, c);
    forall i | 0 <= i < |h| ensures Rated(h[i], h, m, parts[i], input, e) {
      ChangeIsRated(h, m, parts[i], standings[(c.season, parts[i].user)], c, input, e);
    }
  }

  /** Where a change starts and where its standing ends. */
  predicate Reaches(ch: Change, l: Ladder, after: Standings, season: SeasonId, initialRating: int) {
    var k := (season, ch.user);
    && ch.season == season && ch.oldRating == RatingBefore(l, season, ch.user, initialRating)
    && k in after && after[k].rating == ch.newRating && after[k].lastMatch == Some(ch.matchId)
    && after[k].reachedAt == (if k in l.standings && ch.newRating == ch.oldRating then l.standings[k].reachedAt else ch.createdAt)
    && ch.newRank == ShownRank(ch.newRating, after[k].placements)
    && ch.oldRank == ShownRank(ch.oldRating, if k in l.standings then l.standings[k].placements else 0)
  }

  /** A rank is shown once the five placements are done. */
  function ShownRank(rating: int, placements: int): Option<RankCode> { if placements < 5 then None else Some(RankCodeFromRating(rating)) }

  lemma FindsItself(parts: seq<Participant>, i: nat)
    requires DistinctUsers(parts) && i < |parts|
    ensures Find(parts, parts[i].user) == Some(parts[i])
  {
    FindFinds(parts, parts[i].user);
  }

  function StandingBefore(l: Ladder, k: (SeasonId, UserId), initialRating: int, now: Instant): Standing {
    if k in l.standings then l.standings[k] else NewStanding(InitialRating(initialRating), now)
  }

  lemma EnsuredIsBefore(l: Ladder, season: SeasonId, parts: seq<Participant>, user: UserId, initialRating: int, now: Instant)
    requires (season, user) in Ensured(l.standings, season, parts, InitialRating(initialRating), now)
    ensures Ensured(l.standings, season, parts, InitialRating(initialRating), now)[(season, user)] == StandingBefore(l, (season, user), initialRating, now)
  {
  }

  lemma PlayedReaches(l: Ladder, p: Participant, st: Standing, after: Standings, c: Pairing, initialRating: int)
    requires st == StandingBefore(l, (c.season, p.user), initialRating, c.now)
    requires (c.season, p.user) in after && after[(c.season, p.user)] == Played(st, ChangeOf(c, p, st), p.abandoned) && st.rating >= 0
    ensures Reaches(ChangeOf(c, p, st), l, after, c.season, initialRating)
  {
  }

  lemma ChangesReach(l: Ladder, parts: seq<Participant>, standings: Standings, c: Pairing, initialRating: int, now: Instant)
    requires Ordered(parts) && standings == Ensured(l.standings, c.season, parts, InitialRating(initialRating), now) && c.now == now
    requires forall k | k in standings :: standings[k].rating >= 0
    ensures var h, after := PlayChanges(standings, parts, c), PlayStandings(standings, parts, c);
            |h| == |parts| && forall i | 0 <= i < |h| :: Reaches(h[i], l, after, c.season, initialRating)
  {
    PlayChangesAt(standings, parts, c);
    OrderedIsDistinct(parts);
    var h := PlayChanges(standings, parts, c);
    forall i | 0 <= i < |h| ensures Reaches(h[i], l, PlayStandings(standings, parts, c), c.season, initialRating) {
      FindsItself(parts, i);
      EnsuredIsBefore(l, c.season, parts, parts[i].user, initialRating, now);
      PlayedReaches(l, parts[i], standings[(c.season, parts[i].user)], PlayStandings(standings, parts, c), c, initialRating);
    }
  }

  /** An applied finalization records one change per participant, in their order. Each starts from the participant's own
      rating, averages the ratings its own team and the other team brought, and moves by the Elo change for its team's
      outcome against the expectation between those two averages, less 15 for an abandon, down to zero at most; and the
      standing ends there, reached at that instant if it moved. */
  lemma AppliedChangesAreRated(l: Ladder, input: FinalizeInput, e: Expectation)
    requires Inv(l) && Finalize(l, input, e).1.Applied?
    ensures var m, (r, result) := l.matches[input.matchId], Finalize(l, input, e);
            var h := result.changes;
            && input.matchId in l.matches && m.result.Some? && m.season.Some? && |h| == |m.participants|
            && r.changes == l.changes + h
            && (forall i | 0 <= i < |h| :: Rated(h[i], h, m, m.participants[i], input, e))
            && (forall i | 0 <= i < |h| :: Reaches(h[i], l, r.standings, m.season.value, input.initialRating))
  {
    var m := l.matches[input.matchId];
    assert MatchOk(l, input.matchId);
    var c, standings := AppliedFits(l, input, e);
    OrderedSlots(m.participants);
    NoIllegalPenalty(l.changes, input.matchId, m.participants, c.magnitude);
    ChangesAreRated(Finalize(l, input, e).1.changes, m, standings, c, input, e);
    ChangesReach(l, m.participants, standings, c, input.initialRating, input.now);
  }

  // ---- When a finalization applies ----

  predicate HasSlot(parts: seq<Participant>, slot: int) { exists i :: 0 <= i < |parts| && parts[i].slot == slot }

  lemma {:induction false} TeamRatingsNonEmpty(standings: Standings, parts: seq<Participant>, season: SeasonId, slot: int)
    requires AllStand(standings, season, parts)
    ensures TeamRatings(standings, season, parts, slot) != [] <==> HasSlot(parts, slot)
  {
    if parts != [] {
      var init, last := parts[..|parts| - 1], parts[|parts| - 1];
      TeamRatingsNonEmpty(standings, init, season, slot);
      assert HasSlot(parts, slot) <==> HasSlot(init, slot) || last.slot == slot by {
        if HasSlot(init, slot) {
          var i :| 0 <= i < |init| && init[i].slot == slot;
          assert parts[i].slot == slot;
        }
      }
    }
  }

  lemma {:induction false} InsertsUnlessIllegal(changes: seq<Change>, id: MatchId, parts: seq<Participant>, magnitude: int)
    requires MatchChanges(changes, id) == []
    ensures InsertError(changes, id, parts, magnitude).None? <==> forall i | 0 <= i < |parts| && parts[i].abandoned :: magnitude == 15
  {
    if parts != [] {
      InsertsUnlessIllegal(changes, id, parts[..|parts| - 1], magnitude);
      UnchangedMatch(changes, id, parts[|parts| - 1].user);
    }
  }

  predicate AnyAbandoned(parts: seq<Participant>) { exists i :: 0 <= i < |parts| && parts[i].abandoned }

  /** A result that decides something for both teams. */
  predicate Deciding(result: TeamResult, winner: Option<int>) {
    !result.ResultCancelled? && (result.Forfeit? || result.ResultAbandoned? ==> winner.Some?)
  }

  /** What the transaction checks once the match is validated, unfinalized and of the running season. */
  predicate PassesChecks(l: Ladder, input: FinalizeInput, m: MatchRecord)
    requires m.season.Some? && m.result.Some?
  {
    var standings := Ensured(l.standings, m.season.value, m.participants, InitialRating(input.initialRating), input.now);
    && TeamRatings(standings, m.season.value, m.participants, 1) != [] && TeamRatings(standings, m.season.value, m.participants, 2) != []
    && OutcomeForTeam(m.result.value, 1, m.winner).Some? && OutcomeForTeam(m.result.value, 2, m.winner).Some?
    && InsertError(l.changes, input.matchId, m.participants, Magnitude(input.abandonPenalty)).None?
  }

  lemma FreshCases(l: Ladder, input: FinalizeInput, e: Expectation, m: MatchRecord)
    requires m.season.Some? && m.result.Some?
    ensures FinalizeFresh(l, input, e, m).1.Applied? <==> PassesChecks(l, input, m)
  {
  }

  lemma PassesChecksIff(l: Ladder, input: FinalizeInput, m: MatchRecord)
    requires m.season.Some? && m.result.Some? && MatchChanges(l.changes, input.matchId) == []
    ensures PassesChecks(l, input, m) <==>
              && Deciding(m.result.value, m.winner) && HasSlot(m.participants, 1) && HasSlot(m.participants, 2)
              && (AnyAbandoned(m.participants) ==> input.abandonPenalty in {-15, 0, 15})
  {
    var standings := Ensured(l.standings, m.season.value, m.participants, InitialRating(input.initialRating), input.now);
    TeamRatingsNonEmpty(standings, m.participants, m.season.value, 1);
    TeamRatingsNonEmpty(standings, m.participants, m.season.value, 2);
    InsertsUnlessIllegal(l.changes, input.matchId, m.participants, Magnitude(input.abandonPenalty));
  }

  /** A finalization applies exactly to a completed ranked match of the running season that is not yet rated, decides
      something, has players on both teams, and charges abandons the one penalty the table admits. */
  lemma FinalizationAppliesIff(l: Ladder, input: FinalizeInput, e: Expectation)
    requires Inv(l)
    ensures Finalize(l, input, e).1.Applied? <==>
              && input.matchId in l.matches
              && var m := l.matches[input.matchId];
                 && m.ranked && m.completed && m.finalizedAt.None? && m.season == Some(|l.seasons| - 1)
                 && m.result.Some? && Deciding(m.result.value, m.winner)
                 && HasSlot(m.participants, 1) && HasSlot(m.participants, 2)
                 && (AnyAbandoned(m.participants) ==> input.abandonPenalty in {-15, 0, 15})
  {
    ActiveIsLast(l.seasons);
    if input.matchId in l.matches {
      var m := l.matches[input.matchId];
      assert MatchOk(l, input.matchId);
      if Validated(m) && m.finalizedAt.None? {
        FreshCases(l, input, e, m);
        PassesChecksIff(l, input, m);
      }
    }
  }
}
