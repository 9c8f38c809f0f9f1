/** Safety of whole runs of a game and its match. */
module MatchCoupling {
  import opened Wrappers
  import opened Modes
  import opened Scoring
  import opened Game
  import opened GameInvariants
  import opened ScoreLedger
  import opened MatchLifecycle

  predicate AllAre(ps: seq<ParticipantStatus>, s: ParticipantStatus) { forall i | 0 <= i < |ps| :: ps[i] == s }

  predicate InProgress(m: MatchRow) {
    && (m.status.Matched? || m.status.MatchActive?)
    && m.result.None? && m.finalizedAt.None? && m.failureCode.None?
    && forall i | 0 <= i < |m.participants| :: IsActiveParticipant(m.participants[i])
  }

  predicate CarriesResult(m: MatchRow, players: seq<Player>) {
    && m.status.MatchCompleted? && m.failureCode.None? && AllAre(m.participants, ParticipantCompleted)
    && m.teamOneScore == TeamTotal(players, 1) && m.teamTwoScore == TeamTotal(players, 2)
    && m.result == Some(DecideTeamResult(m.teamOneScore, m.teamTwoScore).0)
    && m.winner == DecideTeamResult(m.teamOneScore, m.teamTwoScore).1
  }

  predicate CalledOff(m: MatchRow) {
    && m.finalizedAt.None?
    && ((m.status.MatchCancelled? && m.failureCode.None? && AllAre(m.participants, ParticipantCancelled))
        || (m.status.FailedToStart? && m.failureCode.Some? && 1 <= |m.failureCode.value| <= 64 && AllAre(m.participants, ParticipantFailed)))
  }

  /** The match is where its game is. */
  predicate CoupledRow(game: GameRow, players: seq<Player>, m: MatchRow) {
    && IsMatchmadeMode(game.mode)
    && match game.status
       case Pending => InProgress(m)
       case Active => InProgress(m)
       case Completed => CarriesResult(m, players)
       case Abandoned => CalledOff(m)
       case Cancelled => CalledOff(m)
  }

  predicate Coupled(w: World) { w.row.Some? ==> CoupledRow(w.rows.game, w.rows.players, w.row.value) }

  ghost predicate Inv(w: World) { Shape(w.rows) && Ledger(w.rows) && Coupled(w) }

  // ---- One step ----

  lemma NonMember(guesses: seq<Guess>, player: PlayerId)
    requires forall i | 0 <= i < |guesses| :: guesses[i].player != player
    ensures SumFor(guesses, player) == 0
  {
  }

  lemma JoinLedger(t: Rows, player: PlayerId)
    requires Ledger(t) && IsMultiplayerMode(t.game.mode) && !IsMember(t.players, player)
    ensures Ledger(t.(players := t.players + [Player(player, PlayerActive, None, 0)]))
  {
    var players := t.players + [Player(player, PlayerActive, None, 0)];
    MembersKept(t.players, players);
    NonMember(t.guesses, player);
  }

  lemma StatusLedger(t: Rows, player: PlayerId, status: PlayerStatus)
    requires Ledger(t)
    ensures Ledger(t.(players := WithStatus(t.players, player, status)))
  {
    MembersKept(t.players, WithStatus(t.players, player, status));
  }

  lemma {:induction false} StatusKeepsTotals(players: seq<Player>, player: PlayerId, status: PlayerStatus, slot: int)
    ensures TeamTotal(WithStatus(players, player, status), slot) == TeamTotal(players, slot)
  {
    if players != [] {
      var init := players[..|players| - 1];
      assert WithStatus(players, player, status)[..|players| - 1] == WithStatus(init, player, status);
      StatusKeepsTotals(init, player, status, slot);
    }
  }

  /** Every transaction keeps the round shape and counts the rounds it closes. */
  lemma TransactShape(t: Rows, c: Cmd)
    requires Shape(t)
    ensures KeepsShape(t, Transact(t, c))
  {
    match c
    case StartSolo(now, timer) => StartGameShape(t, now, timer);
    case StartRoom(now, timer) => if t.game.roundCount >= 0 { StartPrivateRoomShape(t, t.game.roundCount, now, timer); }
    case NextPractice(key, now) => AppendPracticeShape(t, key, now);
    case FinishPractice => EndPracticeShape(t);
    case GuessSolo(number, player, raw, now) => SubmitGuessShape(t, number, player, raw, now);
    case ExpireDaily(number, player, now) => ExpireSoloRoundShape(t, number, player, now);
    case GuessMulti(number, player, raw, now, _) => SubmitMultiplayerGuessShape(t, number, player, raw, now);
    case CloseExpired(now, _) => CloseExpiredShape(t, now);
    case CancelGame(to, _) => CancelShape(t, to);
    case ReplayCompleted(_, _) => PlayersOnlyShape(t, t.players);
    case SetPlayerStatus(player, status) => PlayersOnlyShape(t, WithStatus(t.players, player, status));
    case JoinRoom(player) => PlayersOnlyShape(t, t.players + [Player(player, PlayerActive, None, 0)]);
  }

  lemma PlayersOnlyShape(t: Rows, players: seq<Player>)
    requires Shape(t)
    ensures KeepsShape(t, Committed(t.(players := players), QUIET))
  {
    var a: nat :| ShapeAt(t, a);
    ShapeWitness(t, Committed(t.(players := players), QUIET), a);
  }

  lemma TransactLedger(t: Rows, c: Cmd)
    requires Shape(t) && Ledger(t) && Transact(t, c).Committed?
    ensures Ledger(Transact(t, c).rows)
  {
    var a: nat :| ShapeAt(t, a);
    match c
    case GuessSolo(number, player, raw, now) =>
      FindRoundFinds(t.rounds, number);
      SubmitGuessLedger(t, number, player, raw, now);
    case ExpireDaily(number, player, now) =>
      FindRoundFinds(t.rounds, number);
      ExpireSoloRoundLedger(t, number, player, now);
    case GuessMulti(number, player, raw, now, _) => GuessMultiLedger(t, a, number, player, raw, now);
    case CloseExpired(now, _) => CloseExpiredLedger(t, a, now);
    case SetPlayerStatus(player, status) => StatusLedger(t, player, status);
    case JoinRoom(player) => JoinLedger(t, player);
    case _ =>
  }

  lemma CloseExpiredLedger(t: Rows, a: nat, now: Instant)
    requires ShapeAt(t, a) && Ledger(t) && CloseExpiredMultiplayerRound(t, now).Committed?
    ensures var tx := CloseExpiredMultiplayerRound(t, now);
            Ledger(tx.rows) && EveryoneGuessed(tx.rows, a + 1) && t.guesses <= tx.rows.guesses && tx.rows.players == t.players
  {
    CloseExpiredClosesTheActiveRound(t, a, now);
    ZeroFillIsExact(t, a + 1, now);
    CompleteMultiplayerRoundLedger(ZeroFilled(t, a + 1, now), a + 1, now);
  }

  lemma GuessMultiLedger(t: Rows, a: nat, number: int, player: PlayerId, raw: int, now: Instant)
    requires ShapeAt(t, a) && Ledger(t) && IsMember(t.players, player)
    requires SubmitMultiplayerGuess(t, number, player, raw, now).Committed?
    ensures Ledger(SubmitMultiplayerGuess(t, number, player, raw, now).rows)
  {
    SubmitMultiplayerGuessAt(t, a, number, player, raw, now);
    var scored := Scored(t, t.rounds[a], player, raw, now);
    ScoredLedger(t, t.rounds[a], player, raw, now);
    CompleteMultiplayerRoundLedger(scored, a + 1, now);
  }

  /** The activation hook, alone or before the terminal ones. */
  lemma ActivationKeepsProgress(m: MatchRow)
    requires InProgress(m)
    ensures ActivateTwice(m) == ApplyMatchActive(m) && ActivateTwice(m).Moved? && InProgress(ActivateTwice(m).row)
    ensures ActivateTwice(m).row.status.MatchActive?
  {
  }

  /** The terminal hook writes the result, and the two completion hooks after it change nothing. */
  lemma TerminalHooksComplete(m: MatchRow, players: seq<Player>, now: Instant, p: Progression)
    requires InProgress(m)
    ensures var written := ApplyTerminalResult(m, BuildTerminal(players, now), p);
            CarriesResult(written, players) && ApplyGameCompleted(written, players, now, p) == written
  {
  }

  lemma ReplayKeepsResult(m: MatchRow, players: seq<Player>, at: Instant, p: Progression)
    requires CarriesResult(m, players)
    ensures var again := ApplyGameCompleted(m, players, at, p);
            CarriesResult(again, players) && again.(finalizedAt := m.finalizedAt) == m
  {
  }

  lemma CancelHooks(m: MatchRow, code: string)
    requires InProgress(m) && |code| <= 64
    ensures var once := ApplyGameCancelled(m, code);
            once.Moved? && CalledOff(once.row) && ApplyGameCancelled(once.row, code) == once
  {
  }

  /** The hooks of a multiplayer transaction keep the match coupled to the game row it commits. */
  lemma MultiplayerHooks(t: Rows, m: MatchRow, c: Cmd, tx: Tx)
    requires CoupledRow(t.game, t.players, m) && tx.Committed? && ReportsTerminal(t.game, tx, Now(c))
    requires c.GuessMulti? || c.CloseExpired?
    ensures var moved := AfterHooks(m, t, c, tx);
            moved.Moved? && CoupledRow(tx.rows.game, tx.rows.players, moved.row)
  {
    ActivationKeepsProgress(m);
    var active := if tx.out.activatesMatch then ActivateTwice(m) else Moved(m);
    TerminalHooksComplete(active.row, tx.rows.players, Now(c), ProgressionOf(c));
  }

  lemma QuietHooks(t: Rows, m: MatchRow, c: Cmd)
    requires Shape(t) && CoupledRow(t.game, t.players, m) && Transact(t, c).Committed?
    requires !c.GuessMulti? && !c.CloseExpired? && !c.CancelGame? && !c.ReplayCompleted?
    ensures var tx := Transact(t, c);
            var moved := AfterHooks(m, t, c, tx);
            moved.Moved? && CoupledRow(tx.rows.game, tx.rows.players, moved.row)
  {
    if InProgress(m) { ActivationKeepsProgress(m); }
    if c.SetPlayerStatus? {
      StatusKeepsTotals(t.players, c.player, c.status, 1);
      StatusKeepsTotals(t.players, c.player, c.status, 2);
    }
  }

  lemma HooksKeepCoupling(t: Rows, m: MatchRow, c: Cmd)
    requires Shape(t) && CoupledRow(t.game, t.players, m) && Transact(t, c).Committed?
    ensures var tx := Transact(t, c);
            var moved := AfterHooks(m, t, c, tx);
            moved.Moved? && CoupledRow(tx.rows.game, tx.rows.players, moved.row)
  {
    match c
    case GuessMulti(number, player, raw, now, p) =>
      SubmitMultiplayerGuessShape(t, number, player, raw, now);
      MultiplayerHooks(t, m, c, Transact(t, c));
    case CloseExpired(now, p) =>
      CloseExpiredShape(t, now);
      MultiplayerHooks(t, m, c, Transact(t, c));
    case CancelGame(_, code) => if InProgress(m) { CancelHooks(m, code); }
    case ReplayCompleted(now, p) => ReplayKeepsResult(m, t.players, now, p);
    case _ => QuietHooks(t, m, c);
  }

  lemma ExecKeepsInv(w: World, c: Cmd)
    requires Inv(w)
    ensures Inv(Exec(w, c).0)
    ensures Exec(w, c).0.row.Some? == w.row.Some? && Exec(w, c).0.rows.game.mode == w.rows.game.mode
  {
    TransactShape(w.rows, c);
    var tx := Transact(w.rows, c);
    if tx.Committed? {
      TransactLedger(w.rows, c);
      if w.row.Some? { HooksKeepCoupling(w.rows, w.row.value, c); }
    }
  }

  // ---- Whole runs ----

  /** The invariant every step relies on holds after every run. */
  lemma {:induction false} RunKeepsInv(w: World, cs: seq<Cmd>)
    requires Inv(w)
    ensures Inv(Run(w, cs))
    ensures Run(w, cs).row.Some? == w.row.Some? && Run(w, cs).rows.game.mode == w.rows.game.mode
  {
    if cs != [] {
      RunKeepsInv(w, cs[..|cs| - 1]);
      ExecKeepsInv(Run(w, cs[..|cs| - 1]), cs[|cs| - 1]);
    }
  }

  /** What a round behind the first unfinished one is. */
  function Behind(status: GameStatus): RoundStatus { if status.Pending? || status.Active? then RoundPending else RoundCancelled }

  /** After every run rounds are numbered from 1 up to the game's count, their creation keys are distinct and they read
      completed up to the first unfinished one; only that one can be active, only in an active game, and it is active in
      every started game that has rounds and is not a practice session. Behind it every round is pending, or cancelled
      once the game has ended. */
  lemma RoundsStayInShape(w: World, cs: seq<Cmd>)
    requires Inv(w)
    ensures var t := Run(w, cs).rows;
            var done := Done(t.rounds);
            && Numbered(t.rounds) && KeysUnique(t.rounds) && done <= |t.rounds|
            && (forall i | 0 <= i < |t.rounds| :: t.rounds[i].status.RoundCompleted? <==> i < done)
            && (forall i | 0 <= i < |t.rounds| && t.rounds[i].status.RoundActive? :: i == done && t.game.status.Active?)
            && (t.game.status.Active? && !t.game.mode.Practice? && t.rounds != [] ==> done < |t.rounds| && t.rounds[done].status.RoundActive?)
            && (if t.rounds == [] then IsPartyLobbyMode(t.game.mode) else |t.rounds| == t.game.roundCount)
            && (forall i | done < i < |t.rounds| :: t.rounds[i].status == Behind(t.game.status))
            && (done < |t.rounds| && !t.game.status.Active? ==> t.rounds[done].status == Behind(t.game.status))
            && (t.game.status.Completed? && !t.game.mode.Practice? ==> done == |t.rounds|)
  {
    RunKeepsInv(w, cs);
    var t := Run(w, cs).rows;
    ActiveRoundFacts(t);
    var a: nat :| ShapeAt(t, a);
    ShapeCountsDone(t, a);
  }

  /** After every run each player's total is the sum of their guesses, a solo game's total is its player's, there is at
      most one guess per round and player, and each scores its accuracy plus its bonus, within 0..5250. */
  lemma ScoresAlwaysAgree(w: World, cs: seq<Cmd>)
    requires Inv(w)
    ensures var t := Run(w, cs).rows;
            && (forall i | 0 <= i < |t.players| :: t.players[i].totalScore == SumFor(t.guesses, t.players[i].id))
            && (!IsMultiplayerMode(t.game.mode) ==> |t.players| == 1 && t.game.totalScore == t.players[0].totalScore)
            && OneGuessPerRound(t.guesses)
            && (forall i | 0 <= i < |t.guesses| ::
                  t.guesses[i].score == t.guesses[i].accuracy + t.guesses[i].bonus && 0 <= t.guesses[i].score <= MAX_COMBINED_ROUND_SCORE)
  {
    RunKeepsInv(w, cs);
  }

  /** A matchmade game and its match end together: over every run, completed iff completed, called off iff
      abandoned or cancelled, and a completed match carries the scores summed over the game's rounds. */
  lemma MatchAndGameStayCoupled(w: World, cs: seq<Cmd>)
    requires Inv(w) && w.row.Some?
    ensures var r := Run(w, cs);
            && r.row.Some?
            && var g, m := r.rows.game.status, r.row.value;
            && (m.status.MatchCompleted? <==> g.Completed?)
            && (m.status.MatchCancelled? || m.status.FailedToStart? <==> g.Abandoned? || g.Cancelled?)
            && (m.status.MatchCompleted? ==>
                  var n := |r.rows.rounds|;
                  && m.teamOneScore == SumOverRounds(r.rows.players, r.rows.guesses, 1, n)
                  && m.teamTwoScore == SumOverRounds(r.rows.players, r.rows.guesses, 2, n)
                  && m.result == Some(DecideTeamResult(m.teamOneScore, m.teamTwoScore).0)
                  && m.winner == DecideTeamResult(m.teamOneScore, m.teamTwoScore).1)
  {
    RunKeepsInv(w, cs);
    TerminalTotalsAreRoundSums(Run(w, cs).rows, 0);
  }

  lemma TerminalStep(w: World, c: Cmd)
    requires Inv(w) && w.row.Some? && IsTerminalMatch(w.row.value.status)
    ensures var r := Exec(w, c).0;
            && r.row.Some? && r.row.value.(finalizedAt := w.row.value.finalizedAt) == w.row.value
            && r.rows.game.status == w.rows.game.status
  {
    if c.GuessMulti? { SubmitMultiplayerGuessShape(w.rows, c.number, c.player, c.rawAccuracy, c.now); }
    if c.ReplayCompleted? && w.rows.game.status.Completed? { ReplayKeepsResult(w.row.value, w.rows.players, c.now, c.progression); }
  }

  /** Once terminal, a match never changes again, whatever runs next: only the rating marker may still be set. */
  lemma {:induction false} TerminalMatchIsFrozen(w: World, cs: seq<Cmd>)
    requires Inv(w) && w.row.Some? && IsTerminalMatch(w.row.value.status)
    ensures var r := Run(w, cs);
            && r.row.Some? && r.row.value.(finalizedAt := w.row.value.finalizedAt) == w.row.value
            && r.rows.game.status == w.rows.game.status
  {
    if cs != [] {
      var init := cs[..|cs| - 1];
      TerminalMatchIsFrozen(w, init);
      RunKeepsInv(w, init);
      TerminalStep(Run(w, init), cs[|cs| - 1]);
    }
  }

  /** No transaction but the multiplayer ones completes a multiplayer game or reports a result. */
  lemma OthersDoNotComplete(t: Rows, c: Cmd)
    requires IsMultiplayerMode(t.game.mode) && !c.GuessMulti? && !c.CloseExpired? && Transact(t, c).Committed?
    ensures var tx := Transact(t, c);
            tx.out.terminal.None? && (tx.rows.game.status.Completed? <==> t.game.status.Completed?)
  {
  }

  lemma TransactFires(t: Rows, c: Cmd)
    requires Shape(t) && IsMultiplayerMode(t.game.mode) && Transact(t, c).Committed?
    ensures var tx := Transact(t, c);
            && (tx.out.terminal.Some? <==> tx.rows.game.status.Completed? && !t.game.status.Completed?)
            && (t.game.status.Completed? ==> tx.rows.game.status.Completed?)
  {
    match c
    case GuessMulti(number, player, raw, now, _) => SubmitMultiplayerGuessShape(t, number, player, raw, now);
    case CloseExpired(now, _) => CloseExpiredShape(t, now);
    case _ => OthersDoNotComplete(t, c);
  }

  /** A step completes a multiplayer game exactly when it fires the terminal hook. */
  lemma FiringCompletes(w: World, c: Cmd)
    requires Inv(w) && IsMultiplayerMode(w.rows.game.mode)
    ensures var (r, out) := Exec(w, c);
            && (out.terminal.Some? <==> r.rows.game.status.Completed? && !w.rows.game.status.Completed?)
            && (w.rows.game.status.Completed? ==> r.rows.game.status.Completed?)
            && Done(r.rows.rounds) == Done(w.rows.rounds) + if out.roundCompleted then 1 else 0
  {
    TransactShape(w.rows, c);
    if Transact(w.rows, c).Committed? {
      TransactFires(w.rows, c);
      if w.row.Some? { HooksKeepCoupling(w.rows, w.row.value, c); }
    }
  }

  /** Over any run of a multiplayer game the closed rounds are exactly counted and never exceed the rounds there
      are, and the terminal hook fires at most once: once iff the run completes the game. */
  lemma {:induction false} ClosesAndFiringsAreExact(w: World, cs: seq<Cmd>)
    requires Inv(w) && IsMultiplayerMode(w.rows.game.mode)
    ensures var r := Run(w, cs);
            && RoundsClosed(w, cs) == Done(r.rows.rounds) - Done(w.rows.rounds) <= |r.rows.rounds|
            && TerminalFirings(w, cs) == (if r.rows.game.status.Completed? && !w.rows.game.status.Completed? then 1 else 0)
            && (w.rows.game.status.Completed? ==> r.rows.game.status.Completed?)
  {
    RunKeepsInv(w, cs);
    var a: nat :| ShapeAt(Run(w, cs).rows, a);
    ShapeCountsDone(Run(w, cs).rows, a);
    if cs != [] {
      var init := cs[..|cs| - 1];
      ClosesAndFiringsAreExact(w, init);
      RunKeepsInv(w, init);
      FiringCompletes(Run(w, init), cs[|cs| - 1]);
    }
  }

  /** A round closed exactly: everyone active has a guess for it and the ledger makes it the only one, earlier
      guesses stay in place, totals equal their sums, and one unfinished round fewer is left. */
  predicate ClosedExactly(t: Rows, after: Rows, number: int) {
    && t.guesses <= after.guesses && OneGuessPerRound(after.guesses)
    && EveryoneGuessed(after, number)
    && TotalsAgree(after.players, after.guesses)
    && |after.rounds| == |t.rounds| && Done(after.rounds) == Done(t.rounds) + 1
  }

  lemma CloseExpiredIsExact(t: Rows, now: Instant)
    requires Shape(t) && Ledger(t) && CloseExpiredMultiplayerRound(t, now).Committed?
    ensures ClosedExactly(t, CloseExpiredMultiplayerRound(t, now).rows, Done(t.rounds) + 1)
    ensures CloseExpiredMultiplayerRound(t, now).rows.players == t.players
  {
    var a: nat :| ShapeAt(t, a);
    ShapeCountsDone(t, a);
    CloseExpiredShape(t, now);
    CloseExpiredLedger(t, a, now);
    CloseExpiredClosesTheActiveRound(t, a, now);
    RoundsKept(ZeroFilled(t, a + 1, now), a, now);
  }

  lemma RoundsKept(t: Rows, a: nat, now: Instant)
    ensures |CompleteMultiplayerRound(t, a + 1, now).rows.rounds| == |t.rounds|
  {
  }

  lemma SubmittedRoundIsFilled(t: Rows, a: nat, now: Instant)
    requires Ledger(t) && a < |t.rounds| && CloseIfAllSubmitted(t, a + 1, now).out.roundCompleted
    ensures var after := CloseIfAllSubmitted(t, a + 1, now).rows;
            && Ledger(after) && EveryoneGuessed(after, a + 1) && t.guesses <= after.guesses && |after.rounds| == |t.rounds|
  {
    CompleteMultiplayerRoundLedger(t, a + 1, now);
    RoundsKept(t, a, now);
  }

  lemma OneMoreDone(t: Rows, after: Rows, a: nat)
    requires ShapeAt(t, a) && ShapeAt(after, a + 1)
    ensures Done(after.rounds) == Done(t.rounds) + 1
  {
    ShapeCountsDone(t, a);
    ShapeCountsDone(after, a + 1);
  }

  lemma ScoredThenClosed(t: Rows, a: nat, player: PlayerId, raw: int, now: Instant)
    requires ShapeAt(t, a) && Ledger(t) && IsMember(t.players, player) && IsMultiplayerMode(t.game.mode)
    requires a < |t.rounds| && t.game.status.Active? && !HasGuess(t.guesses, a + 1, player)
    requires CloseIfAllSubmitted(Scored(t, t.rounds[a], player, raw, now), a + 1, now).out.roundCompleted
    ensures ClosedExactly(t, CloseIfAllSubmitted(Scored(t, t.rounds[a], player, raw, now), a + 1, now).rows, a + 1)
  {
    var scored := Scored(t, t.rounds[a], player, raw, now);
    ScoredLedger(t, t.rounds[a], player, raw, now);
    CloseIfAllSubmittedShape(scored, a, now);
    SubmittedRoundIsFilled(scored, a, now);
    OneMoreDone(t, CloseIfAllSubmitted(scored, a + 1, now).rows, a);
  }

  lemma GuessClosesExactly(t: Rows, number: int, player: PlayerId, raw: int, now: Instant)
    requires Shape(t) && Ledger(t) && IsMember(t.players, player)
    requires SubmitMultiplayerGuess(t, number, player, raw, now).Committed?
    requires SubmitMultiplayerGuess(t, number, player, raw, now).out.roundCompleted
    ensures ClosedExactly(t, SubmitMultiplayerGuess(t, number, player, raw, now).rows, Done(t.rounds) + 1)
  {
    var a: nat :| ShapeAt(t, a);
    ShapeCountsDone(t, a);
    SubmitMultiplayerGuessAt(t, a, number, player, raw, now);
    ScoredThenClosed(t, a, player, raw, now);
  }

  /** Whenever a multiplayer round closes, by the last guess or by its deadline, it closes exactly. */
  lemma ClosingARoundIsExact(w: World, c: Cmd)
    requires Inv(w) && IsMultiplayerMode(w.rows.game.mode) && Exec(w, c).1.roundCompleted
    ensures ClosedExactly(w.rows, Exec(w, c).0.rows, Done(w.rows.rounds) + 1)
    ensures c.GuessMulti? || (c.CloseExpired? && Exec(w, c).0.rows.players == w.rows.players)
  {
    if c.CloseExpired? { CloseExpiredIsExact(w.rows, c.now); }
    if c.GuessMulti? { GuessClosesExactly(w.rows, c.number, c.player, c.rawAccuracy, c.now); }
  }
}
