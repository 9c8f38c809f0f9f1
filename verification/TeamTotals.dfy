/** Team totals as the loops in multiplayer.go and lifecycle.go accumulate them. */
module TeamTotals {
  import opened Wrappers
  import opened Scoring
  import opened Game
  import opened ScoreLedger

  /** SumTeamTotals; loadTeamOutcome runs the same loop over the stored rows. */
  method SumTeamTotals(players: seq<Player>) returns (one: int, two: int)
    ensures one == TeamTotal(players, 1) && two == TeamTotal(players, 2)
  {
    one, two := 0, 0;
    var i := 0;
    while i < |players|
      invariant 0 <= i <= |players| && one == TeamTotal(players[..i], 1) && two == TeamTotal(players[..i], 2)
    {
      if players[i].teamSlot == Some(1) { one := one + players[i].totalScore; }
      if players[i].teamSlot == Some(2) { two := two + players[i].totalScore; }
      assert players[..i + 1][..i] == players[..i];
      i := i + 1;
    }
    assert players[..i] == players;
  }

  /** Indexes the round's guesses by player, a later one replacing an earlier one, then sums by team. */
  method SumRoundTeamScores(players: seq<Player>, guesses: seq<Guess>) returns (one: int, two: int)
    ensures one == RoundTeamScore(players, guesses, 1) && two == RoundTeamScore(players, guesses, 2)
  {
    var scoreByPlayer: map<PlayerId, int> := map[];
    var i := 0;
    while i < |guesses|
      invariant 0 <= i <= |guesses|
      invariant forall p: PlayerId :: (if p in scoreByPlayer then scoreByPlayer[p] else 0) == LastScore(guesses[..i], p)
    {
      assert guesses[..i + 1][..i] == guesses[..i];
      scoreByPlayer := scoreByPlayer[guesses[i].player := guesses[i].score];
      i := i + 1;
    }
    assert guesses[..i] == guesses;
    one, two := 0, 0;
    i := 0;
    while i < |players|
      invariant 0 <= i <= |players|
      invariant one == RoundTeamScore(players[..i], guesses, 1) && two == RoundTeamScore(players[..i], guesses, 2)
    {
      var score := if players[i].id in scoreByPlayer then scoreByPlayer[players[i].id] else 0;
      if players[i].teamSlot == Some(1) { one := one + score; }
      if players[i].teamSlot == Some(2) { two := two + score; }
      assert players[..i + 1][..i] == players[..i];
      i := i + 1;
    }
    assert players[..i] == players;
  }

  method BuildTerminalMatchResult(players: seq<Player>, completedAt: Instant) returns (terminal: Terminal)
    ensures terminal == BuildTerminal(players, completedAt)
  {
    var one, two := SumTeamTotals(players);
    var (result, winner) := DecideTeamResult(one, two);
    terminal := Terminal(result, winner, one, two, completedAt);
  }
}
