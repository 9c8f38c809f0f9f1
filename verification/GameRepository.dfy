/** The game transactions as they run: rows read, checked and updated statement by statement, with the match row the
    lifecycle hooks update inside the same transaction. */
module GameRepository {
  import opened Wrappers
  import opened Modes
  import opened Scoring
  import opened Game
  import opened MatchLifecycle
  import opened TeamTotals

  datatype Result = Done(out: Outcome) | Failed(error: TxError)

  /** What a transaction leaves behind: its rows and outcome, or nothing but its error. */
  function Settled(before: Rows, tx: Tx): (Rows, Result) {
    match tx
    case Committed(rows, out) => (rows, Done(out))
    case Aborted(error) => (before, Failed(error))
  }

  class Repository {
    var game: GameRow
    var rounds: seq<Round>
    var players: seq<Player>
    var guesses: seq<Guess>
    // The matches row of this game, for a matchmade one.
    var row: Option<MatchRow>

    function Contents(): Rows
      reads this
    {
      Rows(game, rounds, players, guesses)
    }

    function Database(): World
      reads this
    {
      World(Contents(), row)
    }

    constructor (world: World)
      ensures Database() == world
    {
      game, rounds, players, guesses, row := world.rows.game, world.rows.rounds, world.rows.players, world.rows.guesses, world.row;
    }

    // ---- Starting and practising ----

    method StartGame(now: Instant, timerSeconds: Option<int>) returns (result: Result)
      modifies this
      ensures (Contents(), result) == Settled(old(Contents()), Game.StartGame(old(Contents()), now, timerSeconds)) && row == old(row)
    {
      if !game.status.Pending? { return Failed(InvalidTransition); }
      game := game.(status := Active);
      rounds := Activate(rounds, 1, now, Deadline(timerSeconds, now));
      return Done(QUIET);
    }

    method AppendPracticeRound(key: string, now: Instant) returns (result: Result)
      modifies this
      ensures (Contents(), result) == Settled(old(Contents()), Game.AppendPracticeRound(old(Contents()), key, now)) && row == old(row)
    {
      if key == "" { return Failed(InvalidGameRequest); }
      if !game.mode.Practice? { return Failed(WrongGameMode); }
      if !game.status.Active? { return Failed(GameNotActive); }
      if HasKey(rounds, key) { return Done(QUIET); }
      var latest := Latest(rounds);
      if latest.None? { return Failed(RowNotFound); }
      if !latest.value.status.RoundCompleted? { return Failed(CurrentRoundIncomplete); }
      var next := Round(latest.value.number + 1, RoundActive, Some(now), None, Some(key));
      rounds := rounds + [next];
      game := game.(roundCount := next.number);
      return Done(QUIET);
    }

    method EndPractice() returns (result: Result)
      modifies this
      ensures (Contents(), result) == Settled(old(Contents()), Game.EndPractice(old(Contents()))) && row == old(row)
    {
      if !game.mode.Practice? { return Failed(WrongGameMode); }
      if game.status.Completed? { return Done(QUIET); }
      if !game.status.Active? && !game.status.Pending? { return Failed(GameNotActive); }
      game := game.(status := Completed);
      rounds := CancelOpen(rounds);
      return Done(QUIET);
    }

    // ---- Solo guesses ----

    /** Closes the round, then opens the next pending one or completes the game. */
    method CloseAndAdvance(number: int, now: Instant, endsAt: Option<Instant>, completes: bool) returns (out: Outcome)
      modifies this`rounds, this`game
      ensures var tx := Game.CloseAndAdvance(old(Contents()), number, now, endsAt, completes);
              Contents() == tx.rows && out == tx.out
    {
      rounds := Close(rounds, number);
      out := QUIET.(roundCompleted := true);
      var next := NextPending(rounds);
      if next.Some? {
        rounds := Activate(rounds, next.value, now, endsAt);
      } else if completes {
        out := out.(gameCompleted := true);
        game := game.(status := Completed);
      }
    }

    method SubmitGuessTx(number: int, player: PlayerId, rawAccuracy: int, now: Instant) returns (result: Result)
      modifies this
      ensures (Contents(), result) == Settled(old(Contents()), SubmitGuess(old(Contents()), number, player, rawAccuracy, now)) && row == old(row)
    {
      var round := FindRound(rounds, number);
      if round.None? { return Failed(RowNotFound); }
      if !round.value.status.RoundActive? { return Failed(RoundClosed); }
      if round.value.endsAt.Some? && now > round.value.endsAt.value { return Failed(RoundClosed); }
      var (accuracy, bonus, total) := ComposeGuessScores(Solo, rawAccuracy, 0, 0);
      if HasGuess(guesses, number, player) { return Failed(UniqueViolation); }
      guesses := guesses + [Guess(number, player, accuracy, bonus, total, false, now)];
      players := Credit(players, player, total);
      game := game.(totalScore := game.totalScore + total);
      var out := CloseAndAdvance(number, now, Deadline(game.timerSeconds, now), !game.mode.Practice?);
      return Done(out);
    }

    method ExpireSoloRoundTx(number: int, player: PlayerId, now: Instant) returns (result: Result)
      modifies this
      ensures (Contents(), result) == Settled(old(Contents()), ExpireSoloRound(old(Contents()), number, player, now)) && row == old(row)
    {
      var round := FindRound(rounds, number);
      if round.None? { return Failed(RowNotFound); }
      if !round.value.status.RoundActive? || round.value.endsAt.None? || now < round.value.endsAt.value { return Failed(RoundClosed); }
      if HasGuess(guesses, number, player) { return Failed(UniqueViolation); }
      guesses := guesses + [ZeroGuess(number, player, now)];
      var out := CloseAndAdvance(number, now, Deadline(game.timerSeconds, now), true);
      return Done(out);
    }

    // ---- Multiplayer rounds ----

    /** Collects who has submitted, then inserts a zero for every active player who has not. */
    method InsertMissingMultiplayerGuesses(number: int, now: Instant)
      modifies this`guesses
      ensures Contents() == ZeroFilled(old(Contents()), number, now)
    {
      ghost var before := guesses;
      var submitted: set<PlayerId> := {};
      var i := 0;
      while i < |guesses|
        invariant 0 <= i <= |guesses| && guesses == before
        invariant forall p: PlayerId :: p in submitted <==> HasGuess(guesses[..i], number, p)
      {
        HasGuessGrows(guesses, i, number);
        if guesses[i].round == number { submitted := submitted + {guesses[i].player}; }
        i := i + 1;
      }
      assert guesses[..i] == guesses;
      i := 0;
      while i < |players|
        invariant 0 <= i <= |players|
        invariant guesses == before + MissingZeros(players[..i], before, number, now)
      {
        var p := players[i];
        assert players[..i + 1][..i] == players[..i];
        if p.status.PlayerActive? && p.id !in submitted { guesses := guesses + [ZeroGuess(number, p.id, now)]; }
        i := i + 1;
      }
      assert players[..i] == players;
    }

    method CompleteMultiplayerRound(number: int, now: Instant) returns (out: Outcome)
      modifies this`guesses, this`rounds, this`game
      ensures var tx := Game.CompleteMultiplayerRound(old(Contents()), number, now);
              Contents() == tx.rows && out == tx.out
    {
      InsertMissingMultiplayerGuesses(number, now);
      out := CloseAndAdvance(number, now, NextRoundEndsAt(game.mode, game.timerSeconds, now), true);
      if out.gameCompleted {
        var terminal := BuildTerminalMatchResult(players, now);
        out := out.(terminal := Some(terminal));
      }
    }

    method MultiplayerProgress(number: int) returns (submitted: nat, eligible: nat)
      ensures submitted == CountGuesses(guesses, number) && eligible == CountActive(players)
    {
      submitted, eligible := CountGuesses(guesses, number), CountActive(players);
    }

    /** The statements of one multiplayer guess, before its hooks. */
    method RecordMultiplayerGuess(number: int, player: PlayerId, rawAccuracy: int, now: Instant) returns (result: Result)
      modifies this`game, this`rounds, this`players, this`guesses
      ensures (Contents(), result) == Settled(old(Contents()), SubmitMultiplayerGuess(old(Contents()), number, player, rawAccuracy, now))
    {
      if !IsMultiplayerMode(game.mode) || !game.status.Active? { return Failed(GameNotActive); }
      var found := FindRound(rounds, number);
      if found.None? { return Failed(RowNotFound); }
      var round := found.value;
      FindRoundFinds(rounds, number);
      if !round.status.RoundActive? || !CanGuessBeforeStart(game.mode, round.startsAt, now) { return Failed(RoundClosed); }
      if round.endsAt.Some? && now > round.endsAt.value { return Failed(RoundClosed); }
      var (accuracy, bonus, total) := ScoreWithSpeedBonus(game.mode, rawAccuracy, round.startsAt, round.endsAt, now);
      if HasGuess(guesses, number, player) { return Failed(UniqueViolation); }
      guesses := guesses + [Guess(number, player, accuracy, bonus, total, false, now)];
      players := Credit(players, player, total);
      var activates := IsRankedMode(game.mode);
      assert Contents() == Scored(old(Contents()), round, player, rawAccuracy, now);
      var submitted, eligible := MultiplayerProgress(number);
      if eligible > 0 && submitted >= eligible {
        var out := CompleteMultiplayerRound(number, now);
        return Done(out.(activatesMatch := activates));
      }
      return Done(QUIET.(activatesMatch := activates));
    }

    // ---- Hooks ----

    method ApplyTerminalResultHook(terminal: Terminal, progression: Progression)
      requires row.Some?
      modifies this`row
      ensures row == Some(ApplyTerminalResult(old(row).value, terminal, progression))
    {
      var m := row.value;
      if m.status.Matched? { m := m.(status := MatchActive, participants := Mirror(m.participants, Participating)); }
      if IsTerminalMatch(m.status) && m.finalizedAt.Some? {
        row := Some(m);
        return;
      }
      m := m.(teamOneScore := terminal.teamOneScore, teamTwoScore := terminal.teamTwoScore, result := Some(terminal.result),
              winner := terminal.winner, status := MatchCompleted);
      m := m.(participants := Mirror(m.participants, ParticipantCompleted));
      row := Some(TryFinalizeProgression(m, terminal.completedAt, progression));
    }

    method ApplyGameCompletedHook(now: Instant, progression: Progression)
      requires row.Some?
      modifies this`row
      ensures row == Some(ApplyGameCompleted(old(row).value, players, now, progression))
    {
      var m := row.value;
      if m.status.Matched? { m := m.(status := MatchActive, participants := Mirror(m.participants, Participating)); }
      if m.status.MatchCompleted? {
        row := Some(TryFinalizeProgression(m, now, progression));
        return;
      }
      if !m.status.MatchActive? {
        row := Some(m);
        return;
      }
      if m.result.None? {
        var one, two := SumTeamTotals(players);
        var (result, winner) := DecideTeamResult(one, two);
        m := m.(teamOneScore := one, teamTwoScore := two, result := Some(result), winner := winner);
      }
      m := m.(status := MatchCompleted, participants := Mirror(m.participants, ParticipantCompleted));
      row := Some(TryFinalizeProgression(m, now, progression));
    }

    method ApplyMatchActiveHook()
      requires row.Some?
      modifies this`row
      ensures row.Some? && ApplyMatchActive(old(row).value) == Moved(row.value)
    {
      var m := row.value;
      if m.status.MatchActive? || IsTerminalMatch(m.status) { return; }
      row := Some(m.(status := MatchActive, participants := Mirror(m.participants, ParticipantStatusFor(MatchActive))));
    }

    /** Runs what a multiplayer transaction calls: activation in both hook slots, the terminal result, then completion in both. */
    method RunHooks(out: Outcome, now: Instant, progression: Progression)
      requires row.Some?
      modifies this`row
      ensures row.Some?
      ensures var active := if out.activatesMatch then ActivateTwice(old(row).value) else Moved(old(row).value);
              && active.Moved?
              && row.value == (
                   if out.terminal.None? then active.row
                   else
                     var written := ApplyTerminalResult(active.row, out.terminal.value, progression);
                     ApplyGameCompleted(ApplyGameCompleted(written, players, now, progression), players, now, progression))
    {
      if out.activatesMatch {
        ApplyMatchActiveHook();
        ApplyMatchActiveHook();
      }
      if out.terminal.Some? {
        ApplyTerminalResultHook(out.terminal.value, progression);
        ApplyGameCompletedHook(now, progression);
        ApplyGameCompletedHook(now, progression);
      }
    }

    // ---- Whole transactions with their hooks ----

    method SubmitMultiplayerGuessTx(number: int, player: PlayerId, rawAccuracy: int, now: Instant, progression: Progression) returns (out: Outcome)
      modifies this
      ensures (Database(), out) == Exec(old(Database()), GuessMulti(number, player, rawAccuracy, now, progression))
    {
      if !IsMember(players, player) { return QUIET; }
      var result := RecordMultiplayerGuess(number, player, rawAccuracy, now);
      if result.Failed? { return QUIET; }
      out := result.out;
      if row.Some? { RunHooks(out, now, progression); }
    }

    method CloseExpiredMultiplayerRoundTx(now: Instant, progression: Progression) returns (out: Outcome)
      modifies this
      ensures (Database(), out) == Exec(old(Database()), CloseExpired(now, progression))
    {
      if !IsMultiplayerMode(game.mode) || !game.status.Active? || IsCasualMode(game.mode) { return QUIET; }
      var active := FindActive(rounds);
      if active.None? || active.value.endsAt.None? || now < active.value.endsAt.value { return QUIET; }
      InsertMissingMultiplayerGuesses(active.value.number, now);
      out := CompleteMultiplayerRound(active.value.number, now);
      if row.Some? { RunHooks(out, now, progression); }
    }

    /** Creates the rounds of a room that has none, opens the first, and activates the match. The first round is read
        last; when there is none everything written is rolled back. */
    method StartPrivateRoomGameTx(now: Instant, timerSeconds: Option<int>) returns (out: Outcome)
      modifies this
      ensures (Database(), out) == Exec(old(Database()), StartRoom(now, timerSeconds))
    {
      if game.roundCount < 0 || !IsMultiplayerMode(game.mode) || !game.status.Pending? { return QUIET; }
      var before := (game, rounds, row);
      if rounds == [] { rounds := PendingRounds(game.roundCount); }
      game := game.(status := Active);
      rounds := Activate(rounds, 1, now, Deadline(timerSeconds, now));
      if row.Some? {
        ApplyMatchActiveHook();
        ApplyMatchActiveHook();
      }
      if FindRound(rounds, 1).None? {
        game, rounds, row := before.0, before.1, before.2;
        return QUIET;
      }
      return QUIET.(activatesMatch := true);
    }

    /** Ends the game and its open rounds, then calls both hook slots; a refusal rolls everything back. */
    method CancelMultiplayerGameTx(to: GameStatus, failureCode: string) returns (out: Outcome)
      modifies this
      ensures (Database(), out) == Exec(old(Database()), CancelGame(to, failureCode))
    {
      out := QUIET;
      if !IsPartyLobbyMode(game.mode) && |failureCode| > 64 { return; }
      if !to.Abandoned? && !to.Cancelled? { return; }
      if !IsMultiplayerMode(game.mode) { return; }
      if !game.status.Active? && !game.status.Pending? { return; }
      var before := (game, rounds, row);
      game := game.(status := to);
      rounds := CancelOpen(rounds);
      if row.Some? {
        var moved := ApplyGameCancelled(row.value, failureCode);
        if moved.Moved? {
          row := Some(moved.row);
          moved := ApplyGameCancelled(row.value, failureCode);
        }
        if moved.Refused? {
          game, rounds, row := before.0, before.1, before.2;
          return;
        }
        row := Some(moved.row);
      }
    }
  }

  lemma HasGuessGrows(guesses: seq<Guess>, i: nat, number: int)
    requires i < |guesses|
    ensures forall p: PlayerId :: HasGuess(guesses[..i + 1], number, p) <==>
              HasGuess(guesses[..i], number, p) || (guesses[i].round == number && guesses[i].player == p)
  {
    var init, all := guesses[..i], guesses[..i + 1];
    assert all[i] == guesses[i];
    forall p: PlayerId
      ensures HasGuess(all, number, p) <==> HasGuess(init, number, p) || (guesses[i].round == number && guesses[i].player == p)
    {
      if HasGuess(init, number, p) {
        var j :| 0 <= j < |init| && init[j].round == number && init[j].player == p;
        assert all[j] == init[j];
      }
      if HasGuess(all, number, p) {
        var j :| 0 <= j < |all| && all[j].round == number && all[j].player == p;
        assert j < i ==> init[j] == all[j];
      }
    }
  }
}
