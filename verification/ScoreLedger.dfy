/** The score ledger: running totals, guesses and terminal team totals always agree. */
module ScoreLedger {
  import opened Wrappers
  import opened Modes
  import opened Scoring
  import opened Game

  /** The sum of one player's guess scores. */
  function SumFor(guesses: seq<Guess>, player: PlayerId): int {
    if guesses == [] then 0
    else SumFor(guesses[..|guesses| - 1], player) + if guesses[|guesses| - 1].player == player then guesses[|guesses| - 1].score else 0
  }

  predicate Sound(g: Guess) {
    && 0 <= g.accuracy <= MAX_ROUND_SCORE && 0 <= g.bonus <= MAX_SPEED_BONUS
    && g.score == g.accuracy + g.bonus
    && (g.timedOut ==> g.score == 0)
  }

  predicate DistinctPlayers(players: seq<Player>) { forall i, j | 0 <= i < j < |players| :: players[i].id != players[j].id }

  predicate OneGuessPerRound(guesses: seq<Guess>) {
    forall i, j | 0 <= i < j < |guesses| :: guesses[i].round != guesses[j].round || guesses[i].player != guesses[j].player
  }

  predicate GuessesSound(guesses: seq<Guess>, players: seq<Player>, n: nat) {
    forall i | 0 <= i < |guesses| :: Sound(guesses[i]) && 1 <= guesses[i].round <= n && IsMember(players, guesses[i].player)
  }

  predicate TotalsAgree(players: seq<Player>, guesses: seq<Guess>) {
    forall i | 0 <= i < |players| :: players[i].totalScore == SumFor(guesses, players[i].id)
  }

  predicate Ledger(t: Rows) {
    && DistinctPlayers(t.players) && OneGuessPerRound(t.guesses)
    && GuessesSound(t.guesses, t.players, |t.rounds|)
    && TotalsAgree(t.players, t.guesses)
    && (!IsMultiplayerMode(t.game.mode) ==> |t.players| == 1 && t.game.totalScore == t.players[0].totalScore)
  }

  /** Appending a new guess and crediting its player keeps every total equal to its sum. */
  lemma RecordGuess(players: seq<Player>, guesses: seq<Guess>, n: nat, g: Guess)
    requires DistinctPlayers(players) && OneGuessPerRound(guesses) && GuessesSound(guesses, players, n) && TotalsAgree(players, guesses)
    requires Sound(g) && 1 <= g.round <= n && IsMember(players, g.player) && !HasGuess(guesses, g.round, g.player)
    ensures var players' := Credit(players, g.player, g.score);
            && DistinctPlayers(players') && OneGuessPerRound(guesses + [g])
            && GuessesSound(guesses + [g], players', n) && TotalsAgree(players', guesses + [g])
  {
    var players', guesses' := Credit(players, g.player, g.score), guesses + [g];
    assert guesses'[..|guesses|] == guesses;
    MembersKept(players, players');
  }

  lemma MembersKept(players: seq<Player>, players': seq<Player>)
    requires |players'| >= |players| && forall i | 0 <= i < |players| :: players'[i].id == players[i].id
    ensures forall p | IsMember(players, p) :: IsMember(players', p)
  {
    forall p | IsMember(players, p) ensures IsMember(players', p) {
      var i :| 0 <= i < |players| && players[i].id == p;
      assert players'[i].id == p;
    }
  }

  lemma CreditZero(players: seq<Player>, player: PlayerId)
    ensures Credit(players, player, 0) == players
  {
  }

  lemma SubmitGuessLedger(t: Rows, number: int, player: PlayerId, rawAccuracy: int, now: Instant)
    requires Ledger(t) && IsMember(t.players, player)
    requires SubmitGuess(t, number, player, rawAccuracy, now).Committed? && 1 <= number <= |t.rounds|
    ensures Ledger(SubmitGuess(t, number, player, rawAccuracy, now).rows)
  {
    var (accuracy, bonus, total) := ComposeGuessScores(Solo, rawAccuracy, 0, 0);
    RecordGuess(t.players, t.guesses, |t.rounds|, Guess(number, player, accuracy, bonus, total, false, now));
  }

  lemma ExpireSoloRoundLedger(t: Rows, number: int, player: PlayerId, now: Instant)
    requires Ledger(t) && IsMember(t.players, player)
    requires ExpireSoloRound(t, number, player, now).Committed? && 1 <= number <= |t.rounds|
    ensures Ledger(ExpireSoloRound(t, number, player, now).rows)
  {
    RecordGuess(t.players, t.guesses, |t.rounds|, ZeroGuess(number, player, now));
    CreditZero(t.players, player);
  }

  lemma ScoredLedger(t: Rows, round: Round, player: PlayerId, rawAccuracy: int, now: Instant)
    requires Ledger(t) && IsMultiplayerMode(t.game.mode) && IsMember(t.players, player)
    requires 1 <= round.number <= |t.rounds| && !HasGuess(t.guesses, round.number, player)
    ensures Ledger(Scored(t, round, player, rawAccuracy, now))
  {
    var (accuracy, bonus, total) := ScoreWithSpeedBonus(t.game.mode, rawAccuracy, round.startsAt, round.endsAt, now);
    RecordGuess(t.players, t.guesses, |t.rounds|, Guess(round.number, player, accuracy, bonus, total, false, now));
  }

  // ---- Zero-fill ----

  /** The zeros are for distinct active players without a guess, and cover all of them. */
  lemma {:induction false} MissingZerosCover(players: seq<Player>, guesses: seq<Guess>, number: int, now: Instant)
    requires DistinctPlayers(players)
    ensures var zs := MissingZeros(players, guesses, number, now);
            && (forall i | 0 <= i < |zs| ::
                  zs[i] == ZeroGuess(number, zs[i].player, now) && IsMember(players, zs[i].player) && !HasGuess(guesses, number, zs[i].player))
            && (forall i, j | 0 <= i < j < |zs| :: zs[i].player != zs[j].player)
            && (forall k | 0 <= k < |players| && players[k].status.PlayerActive? && !HasGuess(guesses, number, players[k].id) ::
                  exists i :: 0 <= i < |zs| && zs[i].player == players[k].id)
  {
    if players != [] {
      var init, last := players[..|players| - 1], players[|players| - 1];
      MissingZerosCover(init, guesses, number, now);
      MembersKept(init, players);
      var before := MissingZeros(init, guesses, number, now);
      var zs := MissingZeros(players, guesses, number, now);
      assert forall i | 0 <= i < |before| :: zs[i] == before[i];
      forall k | 0 <= k < |players| && players[k].status.PlayerActive? && !HasGuess(guesses, number, players[k].id)
        ensures exists i :: 0 <= i < |zs| && zs[i].player == players[k].id
      {
        if k < |init| {
          assert init[k] == players[k];
          var i :| 0 <= i < |before| && before[i].player == players[k].id;
          assert zs[i].player == players[k].id;
        } else {
          assert zs[|before|].player == players[k].id;
        }
      }
      assert IsMember(players, last.id);
    }
  }

  lemma {:induction false} ZeroScoresAddNothing(guesses: seq<Guess>, zeros: seq<Guess>, player: PlayerId)
    requires forall i | 0 <= i < |zeros| :: zeros[i].score == 0
    ensures SumFor(guesses + zeros, player) == SumFor(guesses, player)
  {
    if zeros == [] {
      assert guesses + zeros == guesses;
    } else {
      var all := guesses + zeros;
      assert all[..|all| - 1] == guesses + zeros[..|zeros| - 1];
      ZeroScoresAddNothing(guesses, zeros[..|zeros| - 1], player);
    }
  }

  /** Zero-fill leaves every player active at that moment with a guess for the round, keeps all earlier guesses
      and every running total, and keeps the ledger; with it, that guess is the player's only one. */
  lemma ZeroFillIsExact(t: Rows, number: int, now: Instant)
    requires Ledger(t) && 1 <= number <= |t.rounds|
    ensures var filled := ZeroFilled(t, number, now);
            && Ledger(filled) && t.guesses <= filled.guesses
            && EveryoneGuessed(filled, number)
            && (forall k | |t.guesses| <= k < |filled.guesses| :: filled.guesses[k] == ZeroGuess(number, filled.guesses[k].player, now))
  {
    var zs := MissingZeros(t.players, t.guesses, number, now);
    MissingZerosCover(t.players, t.guesses, number, now);
    ZerosAreNew(t.guesses, zs, number);
    FilledCovers(t.players, t.guesses, zs, number);
    ZerosKeepTotals(t.players, t.guesses, zs);
  }

  predicate EveryoneGuessed(t: Rows, number: int) {
    forall k | 0 <= k < |t.players| && t.players[k].status.PlayerActive? :: HasGuess(t.guesses, number, t.players[k].id)
  }

  lemma ZerosKeepTotals(players: seq<Player>, guesses: seq<Guess>, zs: seq<Guess>)
    requires TotalsAgree(players, guesses) && forall i | 0 <= i < |zs| :: zs[i].score == 0
    ensures TotalsAgree(players, guesses + zs)
  {
    forall i | 0 <= i < |players| ensures players[i].totalScore == SumFor(guesses + zs, players[i].id) {
      ZeroScoresAddNothing(guesses, zs, players[i].id);
    }
  }

  lemma FilledCovers(players: seq<Player>, guesses: seq<Guess>, zs: seq<Guess>, number: int)
    requires forall i | 0 <= i < |zs| :: zs[i].round == number
    requires forall k | 0 <= k < |players| && players[k].status.PlayerActive? && !HasGuess(guesses, number, players[k].id) ::
               exists i :: 0 <= i < |zs| && zs[i].player == players[k].id
    ensures forall k | 0 <= k < |players| && players[k].status.PlayerActive? :: HasGuess(guesses + zs, number, players[k].id)
  {
    var all := guesses + zs;
    forall k | 0 <= k < |players| && players[k].status.PlayerActive? ensures HasGuess(all, number, players[k].id) {
      if HasGuess(guesses, number, players[k].id) {
        var i :| 0 <= i < |guesses| && guesses[i].round == number && guesses[i].player == players[k].id;
        assert all[i] == guesses[i];
      } else {
        var i :| 0 <= i < |zs| && zs[i].player == players[k].id;
        assert all[|guesses| + i] == zs[i];
      }
    }
  }

  lemma ZerosAreNew(guesses: seq<Guess>, zs: seq<Guess>, number: int)
    requires OneGuessPerRound(guesses)
    requires forall i | 0 <= i < |zs| :: zs[i].round == number && !HasGuess(guesses, number, zs[i].player)
    requires forall i, j | 0 <= i < j < |zs| :: zs[i].player != zs[j].player
    ensures OneGuessPerRound(guesses + zs)
  {
    var all := guesses + zs;
    forall i, j | 0 <= i < j < |all| ensures all[i].round != all[j].round || all[i].player != all[j].player {
      if i < |guesses| <= j {
        assert all[j] == zs[j - |guesses|];
        assert all[i] == guesses[i];
      }
    }
  }

  /** The round that completeMultiplayerRound closes: zero-filled, ledger kept, totals untouched. */
  lemma CompleteMultiplayerRoundLedger(t: Rows, number: int, now: Instant)
    requires Ledger(t) && 1 <= number <= |t.rounds|
    ensures var tx := CompleteMultiplayerRound(t, number, now);
            Ledger(tx.rows) && tx.rows.players == t.players && t.guesses <= tx.rows.guesses && EveryoneGuessed(tx.rows, number)
  {
    ZeroFillIsExact(t, number, now);
  }

  // ---- Terminal totals ----

  /** The guesses of one round, as a WHERE round_id = ? query returns them. */
  function RoundGuesses(guesses: seq<Guess>, number: int): seq<Guess> {
    if guesses == [] then []
    else RoundGuesses(guesses[..|guesses| - 1], number) + if guesses[|guesses| - 1].round == number then [guesses[|guesses| - 1]] else []
  }

  /** The score the per-round map holds for a player: the last guess wins, a missing one is zero. */
  function LastScore(guesses: seq<Guess>, player: PlayerId): int {
    if guesses == [] then 0
    else if guesses[|guesses| - 1].player == player then guesses[|guesses| - 1].score
    else LastScore(guesses[..|guesses| - 1], player)
  }

  /** SumRoundTeamScores for one team. */
  function RoundTeamScore(players: seq<Player>, roundGuesses: seq<Guess>, slot: int): int {
    if players == [] then 0
    else
      RoundTeamScore(players[..|players| - 1], roundGuesses, slot)
      + if players[|players| - 1].teamSlot == Some(slot) then LastScore(roundGuesses, players[|players| - 1].id) else 0
  }

  function SumOverRounds(players: seq<Player>, guesses: seq<Guess>, slot: int, n: nat): int {
    if n == 0 then 0
    else SumOverRounds(players, guesses, slot, n - 1) + RoundTeamScore(players, RoundGuesses(guesses, n), slot)
  }

  /** One player's scores in rounds 1..n, round by round. */
  function PlayerRounds(guesses: seq<Guess>, player: PlayerId, n: nat): int {
    if n == 0 then 0 else PlayerRounds(guesses, player, n - 1) + LastScore(RoundGuesses(guesses, n), player)
  }

  lemma {:induction false} NoScoreWithoutGuess(guesses: seq<Guess>, number: int, player: PlayerId)
    requires !HasGuess(guesses, number, player)
    ensures LastScore(RoundGuesses(guesses, number), player) == 0
  {
    if guesses != [] {
      var init, g := guesses[..|guesses| - 1], guesses[|guesses| - 1];
      assert !HasGuess(init, number, player);
      NoScoreWithoutGuess(init, number, player);
      var rg := RoundGuesses(guesses, number);
      if g.round == number {
        assert g.player != player;
        assert rg[..|rg| - 1] == RoundGuesses(init, number);
      } else {
        assert rg == RoundGuesses(init, number);
      }
    }
  }

  /** What a guess adds to a player's score in a round. */
  function Share(g: Guess, player: PlayerId, number: int): int { if g.round == number && g.player == player then g.score else 0 }

  lemma AppendLastScore(guesses: seq<Guess>, init: seq<Guess>, g: Guess, number: int, player: PlayerId)
    requires guesses == init + [g] && OneGuessPerRound(guesses)
    ensures LastScore(RoundGuesses(guesses, number), player) == LastScore(RoundGuesses(init, number), player) + Share(g, player, number)
  {
    assert guesses[..|guesses| - 1] == init;
    var rg := RoundGuesses(guesses, number);
    if g.round == number {
      assert rg[..|rg| - 1] == RoundGuesses(init, number);
      if g.player == player {
        assert !HasGuess(init, number, player);
        NoScoreWithoutGuess(init, number, player);
      }
    } else {
      assert rg == RoundGuesses(init, number);
    }
  }

  function ShareUpTo(g: Guess, player: PlayerId, n: nat): int { if 1 <= g.round <= n && g.player == player then g.score else 0 }

  lemma {:induction false} AppendPlayerRounds(guesses: seq<Guess>, init: seq<Guess>, g: Guess, player: PlayerId, n: nat)
    requires guesses == init + [g] && OneGuessPerRound(guesses)
    ensures PlayerRounds(guesses, player, n) == PlayerRounds(init, player, n) + ShareUpTo(g, player, n)
  {
    if n > 0 {
      AppendPlayerRounds(guesses, init, g, player, n - 1);
      AppendLastScore(guesses, init, g, n, player);
      assert ShareUpTo(g, player, n) == ShareUpTo(g, player, n - 1) + Share(g, player, n);
    }
  }

  lemma {:induction false} PlayerRoundsIsSum(guesses: seq<Guess>, player: PlayerId, n: nat)
    requires OneGuessPerRound(guesses) && forall i | 0 <= i < |guesses| :: 1 <= guesses[i].round <= n
    ensures PlayerRounds(guesses, player, n) == SumFor(guesses, player)
    decreases |guesses|
  {
    if guesses == [] {
      EmptyPlayerRounds(player, n);
    } else {
      var init := guesses[..|guesses| - 1];
      PlayerRoundsIsSum(init, player, n);
      AppendPlayerRounds(guesses, init, guesses[|guesses| - 1], player, n);
    }
  }

  lemma {:induction false} EmptyPlayerRounds(player: PlayerId, n: nat)
    ensures PlayerRounds([], player, n) == 0
  {
    if n > 0 { EmptyPlayerRounds(player, n - 1); }
  }

  lemma {:induction false} SumOverRoundsSplits(players: seq<Player>, guesses: seq<Guess>, slot: int, n: nat)
    requires players != []
    ensures var init, p := players[..|players| - 1], players[|players| - 1];
            SumOverRounds(players, guesses, slot, n)
              == SumOverRounds(init, guesses, slot, n) + if p.teamSlot == Some(slot) then PlayerRounds(guesses, p.id, n) else 0
  {
    if n > 0 { SumOverRoundsSplits(players, guesses, slot, n - 1); }
  }

  lemma {:induction false} TeamTotalIsSumOverRounds(players: seq<Player>, guesses: seq<Guess>, slot: int, n: nat)
    requires OneGuessPerRound(guesses) && TotalsAgree(players, guesses)
    requires forall i | 0 <= i < |guesses| :: 1 <= guesses[i].round <= n
    ensures TeamTotal(players, slot) == SumOverRounds(players, guesses, slot, n)
  {
    if players == [] {
      NoPlayersNoScore(guesses, slot, n);
    } else {
      var init, p := players[..|players| - 1], players[|players| - 1];
      assert TotalsAgree(init, guesses);
      TeamTotalIsSumOverRounds(init, guesses, slot, n);
      SumOverRoundsSplits(players, guesses, slot, n);
      PlayerRoundsIsSum(guesses, p.id, n);
    }
  }

  lemma {:induction false} NoPlayersNoScore(guesses: seq<Guess>, slot: int, n: nat)
    ensures SumOverRounds([], guesses, slot, n) == 0
  {
    if n > 0 { NoPlayersNoScore(guesses, slot, n - 1); }
  }

  /** The terminal team totals are the sums over the game's rounds of the per-round team scores. */
  lemma TerminalTotalsAreRoundSums(t: Rows, now: Instant)
    requires Ledger(t)
    ensures var terminal := BuildTerminal(t.players, now);
            && terminal.teamOneScore == SumOverRounds(t.players, t.guesses, 1, |t.rounds|)
            && terminal.teamTwoScore == SumOverRounds(t.players, t.guesses, 2, |t.rounds|)
            && (terminal.winner == Some(1) <==> SumOverRounds(t.players, t.guesses, 1, |t.rounds|) > SumOverRounds(t.players, t.guesses, 2, |t.rounds|))
            && (terminal.winner == Some(2) <==> SumOverRounds(t.players, t.guesses, 2, |t.rounds|) > SumOverRounds(t.players, t.guesses, 1, |t.rounds|))
            && (terminal.winner.None? <==> terminal.result.Draw?)
  {
    TeamTotalIsSumOverRounds(t.players, t.guesses, 1, |t.rounds|);
    TeamTotalIsSumOverRounds(t.players, t.guesses, 2, |t.rounds|);
  }
}
