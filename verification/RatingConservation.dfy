/** How a match that was played out is rated. */
module PlayedResults {
  import opened Wrappers
  import opened Game
  import opened ScoreLedger
  import opened MatchLifecycle
  import opened Rating
  import opened MatchCoupling

  function OutcomeByScores(own: int, other: int): EloOutcome { if own > other then Win else if own < other then Loss else Tie }

  /** Over every run, a completed match is rated by the scores of its rounds: the team with the larger sum wins, the other
      loses, equal sums tie. So never do both teams lose, and the base rating deltas of a played match always cancel. */
  lemma PlayedMatchIsRatedByScores(w: World, cs: seq<Cmd>, e: Expectation, k: int, a: int, b: int)
    requires Inv(w) && w.row.Some? && Complementary(e) && k >= 1
    requires Run(w, cs).row.Some? && Run(w, cs).row.value.status.MatchCompleted?
    ensures var r := Run(w, cs);
            var m := r.row.value;
            var one := SumOverRounds(r.rows.players, r.rows.guesses, 1, |r.rows.rounds|);
            var two := SumOverRounds(r.rows.players, r.rows.guesses, 2, |r.rows.rounds|);
            && m.result.Some?
            && OutcomeForTeam(m.result.value, 1, m.winner) == Some(OutcomeByScores(one, two))
            && OutcomeForTeam(m.result.value, 2, m.winner) == Some(OutcomeByScores(two, one))
            && (m.winner.Some? <==> one != two)
            && BaseDelta(k, ActualScore(OutcomeByScores(one, two)), e(a, b)) + BaseDelta(k, ActualScore(OutcomeByScores(two, one)), e(b, a)) == 0
  {
    MatchAndGameStayCoupled(w, cs);
    var m := Run(w, cs).row.value;
    BaseDeltasCancelIff(e, k, a, b, m.result.value, m.winner);
  }
}

/** Where rating comes from: with equal teams, only abandon penalties and the zero floor change the total. */
module RatingConservation {
  import opened Wrappers
  import opened Game
  import opened Scoring
  import opened Rating
  import opened RatingLedger
  import opened Seasons
  import opened LadderRuns

  function SumPenalties(h: seq<Change>): int { if h == [] then 0 else SumPenalties(h[..|h| - 1]) + h[|h| - 1].penalty }

  /** What the zero floor hands back to one player. */
  function FloorGain(ch: Change): int { ch.newRating - (ch.oldRating + ch.base + ch.penalty) }

  function SumFloorGains(h: seq<Change>): int { if h == [] then 0 else SumFloorGains(h[..|h| - 1]) + FloorGain(h[|h| - 1]) }

  function TeamSize(parts: seq<Participant>, slot: int): nat {
    if parts == [] then 0 else TeamSize(parts[..|parts| - 1], slot) + if parts[|parts| - 1].slot == slot then 1 else 0
  }

  lemma {:induction false} TotalsSplit(standings: Standings, parts: seq<Participant>, c: Pairing)
    requires AllStand(standings, c.season, parts) && Ordered(parts)
    requires forall i | 0 <= i < |parts| :: standings[(c.season, parts[i].user)].rating >= 0
    ensures var h := PlayChanges(standings, parts, c);
            && SumTotals(h) == TeamSize(parts, 1) * c.base1 + TeamSize(parts, 2) * c.base2 + SumPenalties(h) + SumFloorGains(h)
            && forall i | 0 <= i < |h| :: FloorGain(h[i]) >= 0 && (FloorGain(h[i]) > 0 ==> h[i].newRating == 0)
  {
    if parts != [] {
      var init := parts[..|parts| - 1];
      TotalsSplit(standings, init, c);
      var h := PlayChanges(standings, parts, c);
      assert h[..|h| - 1] == PlayChanges(standings, init, c);
      OneMore(TeamSize(init, 1), c.base1);
      OneMore(TeamSize(init, 2), c.base2);
    }
  }

  lemma OneMore(n: int, base: int)
    ensures (n + 1) * base == n * base + base
  {
  }

  /** Both bases come from the same averages and complementary expectations. */
  predicate ZeroSumPairing(c: Pairing, e: Expectation, eloK: int, result: TeamResult, winner: Option<int>) {
    && OutcomeForTeam(result, 1, winner) == Some(c.outcome1) && OutcomeForTeam(result, 2, winner) == Some(c.outcome2)
    && c.base1 == BaseDelta(eloK, ActualScore(c.outcome1), e(c.average1, c.average2))
    && c.base2 == BaseDelta(eloK, ActualScore(c.outcome2), e(c.average2, c.average1))
  }

  lemma PairingConserves(standings: Standings, parts: seq<Participant>, c: Pairing, e: Expectation, eloK: int, result: TeamResult, winner: Option<int>)
    requires AllStand(standings, c.season, parts) && Ordered(parts) && TeamSize(parts, 1) == TeamSize(parts, 2) >= 1
    requires forall i | 0 <= i < |parts| :: standings[(c.season, parts[i].user)].rating >= 0
    requires Complementary(e) && ZeroSumPairing(c, e, eloK, result, winner)
    ensures var h := PlayChanges(standings, parts, c);
            && (SumTotals(h) == SumPenalties(h) + SumFloorGains(h) <==> !BothLose(result, winner))
            && forall i | 0 <= i < |h| :: FloorGain(h[i]) >= 0 && (FloorGain(h[i]) > 0 ==> h[i].newRating == 0)
  {
    BasesCancelIff(c, e, eloK, result, winner);
    EqualTeamsSplit(standings, parts, c);
  }

  lemma BasesCancelIff(c: Pairing, e: Expectation, eloK: int, result: TeamResult, winner: Option<int>)
    requires Complementary(e) && ZeroSumPairing(c, e, eloK, result, winner)
    ensures c.base1 + c.base2 == 0 <==> !BothLose(result, winner)
  {
    BaseDeltasCancelIff(e, if eloK <= 0 then DEFAULT_ELO_K else eloK, c.average1, c.average2, result, winner);
  }

  lemma EqualTeamsSplit(standings: Standings, parts: seq<Participant>, c: Pairing)
    requires AllStand(standings, c.season, parts) && Ordered(parts) && TeamSize(parts, 1) == TeamSize(parts, 2) >= 1
    requires forall i | 0 <= i < |parts| :: standings[(c.season, parts[i].user)].rating >= 0
    ensures var h := PlayChanges(standings, parts, c);
            && (SumTotals(h) == SumPenalties(h) + SumFloorGains(h) <==> c.base1 + c.base2 == 0)
            && forall i | 0 <= i < |h| :: FloorGain(h[i]) >= 0 && (FloorGain(h[i]) > 0 ==> h[i].newRating == 0)
  {
    TotalsSplit(standings, parts, c);
    TimesZeroIff(TeamSize(parts, 1), c.base1, c.base2);
  }

  lemma AppliedPairing(l: Ladder, input: FinalizeInput, e: Expectation) returns (c: Pairing, standings: Standings)
    requires Finalize(l, input, e).1.Applied?
    ensures var m := l.matches[input.matchId];
            && input.matchId in l.matches && m.result.Some? && m.season == Some(c.season)
            && standings == Ensured(l.standings, c.season, m.participants, InitialRating(input.initialRating), input.now)
            && Finalize(l, input, e).1.changes == PlayChanges(standings, m.participants, c)
            && ZeroSumPairing(c, e, input.eloK, m.result.value, m.winner)
  {
    var m := l.matches[input.matchId];
    standings := Ensured(l.standings, m.season.value, m.participants, InitialRating(input.initialRating), input.now);
    c := PairingFor(input, e, m.season.value, TeamRatings(standings, m.season.value, m.participants, 1), TeamRatings(standings, m.season.value, m.participants, 2),
                    OutcomeForTeam(m.result.value, 1, m.winner).value, OutcomeForTeam(m.result.value, 2, m.winner).value);
  }

  lemma EnsuredRatings(l: Ladder, season: SeasonId, parts: seq<Participant>, rating: nat, now: Instant)
    requires Telescoping(l) && Owned(l)
    ensures forall k | k in Ensured(l.standings, season, parts, rating, now) :: Ensured(l.standings, season, parts, rating, now)[k].rating >= 0
  {
    var standings := Ensured(l.standings, season, parts, rating, now);
    forall k | k in standings ensures standings[k].rating >= 0 { EnsuredTelescopes(l, season, parts, rating, now, k); }
  }

  /** An applied finalization between equal teams conserves rating up to abandon penalties and the zero floor, unless
      the match was won by neither team. */
  lemma FinalizationConservesRating(l: Ladder, input: FinalizeInput, e: Expectation)
    requires Inv(l) && Complementary(e) && Finalize(l, input, e).1.Applied?
    requires var m := l.matches[input.matchId]; TeamSize(m.participants, 1) == TeamSize(m.participants, 2) >= 1
    ensures var m, h := l.matches[input.matchId], Finalize(l, input, e).1.changes;
            && (SumTotals(h) == SumPenalties(h) + SumFloorGains(h) <==> !BothLose(m.result.value, m.winner))
            && forall i | 0 <= i < |h| :: FloorGain(h[i]) >= 0 && (FloorGain(h[i]) > 0 ==> h[i].newRating == 0)
  {
    var m := l.matches[input.matchId];
    assert MatchOk(l, input.matchId);
    var c, standings := AppliedPairing(l, input, e);
    EnsuredRatings(l, c.season, m.participants, InitialRating(input.initialRating), input.now);
    PairingConserves(standings, m.participants, c, e, input.eloK, m.result.value, m.winner);
  }

  /** The assumption on expected scores can be met. */
  lemma EvenOddsAreComplementary()
    ensures Complementary((a: int, b: int) => 0.5)
  {
  }

  lemma TimesZeroIff(n: int, a: int, b: int)
    requires n >= 1
    ensures n * a + n * b == 0 <==> a + b == 0
  {
    assert n * a + n * b == n * (a + b);
  }
}
