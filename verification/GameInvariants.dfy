/** What every game transaction keeps: the shape of the round list and the score ledger. */
module GameInvariants {
  import opened Wrappers
  import opened Modes
  import opened Scoring
  import opened Game

  // ---- Round shape ----

  predicate Numbered(rounds: seq<Round>) { forall i | 0 <= i < |rounds| :: rounds[i].number == i + 1 }

  predicate KeysUnique(rounds: seq<Round>) {
    forall i, j | 0 <= i < j < |rounds| :: rounds[i].creationKey.Some? ==> rounds[i].creationKey != rounds[j].creationKey
  }

  predicate AllFrom(rounds: seq<Round>, a: nat, s: RoundStatus) { forall i | a <= i < |rounds| :: rounds[i].status == s }

  /** What the game's status allows after the first `a` rounds. */
  predicate Stage(status: GameStatus, mode: Mode, rounds: seq<Round>, a: nat)
    requires a <= |rounds|
  {
    match status
    case Pending => a == 0 && AllFrom(rounds, 0, RoundPending)
    case Active =>
      if a < |rounds| then rounds[a].status.RoundActive? && AllFrom(rounds, a + 1, RoundPending)
      else rounds == [] || mode.Practice?
    case Completed => AllFrom(rounds, a, RoundCancelled) && (a == |rounds| || mode.Practice?)
    case Abandoned => AllFrom(rounds, a, RoundCancelled)
    case Cancelled => AllFrom(rounds, a, RoundCancelled)
  }

  /** The rounds are numbered 1..n and read completed * `a`, then what the game's status allows.
      A game without rounds is a hosted room that has not been started through its room. */
  predicate ShapeOf(game: GameRow, rounds: seq<Round>, a: nat) {
    && a <= |rounds|
    && Numbered(rounds) && KeysUnique(rounds)
    && (if rounds == [] then IsPartyLobbyMode(game.mode) else game.roundCount == |rounds|)
    && (forall i | 0 <= i < a :: rounds[i].status.RoundCompleted?)
    && Stage(game.status, game.mode, rounds, a)
  }

  predicate ShapeAt(t: Rows, a: nat) { ShapeOf(t.game, t.rounds, a) }

  ghost predicate Shape(t: Rows) { exists a: nat :: ShapeAt(t, a) }

  /** The number of completed rounds. */
  function Done(rounds: seq<Round>): nat {
    if rounds == [] then 0
    else Done(rounds[..|rounds| - 1]) + if rounds[|rounds| - 1].status.RoundCompleted? then 1 else 0
  }

  lemma {:induction false} DoneCounts(rounds: seq<Round>, a: nat)
    requires a <= |rounds|
    requires forall i | 0 <= i < |rounds| :: rounds[i].status.RoundCompleted? <==> i < a
    ensures Done(rounds) == a
  {
    if rounds != [] {
      DoneCounts(rounds[..|rounds| - 1], if a == |rounds| then a - 1 else a);
    }
  }

  lemma ShapeCountsDone(t: Rows, a: nat)
    requires ShapeAt(t, a)
    ensures Done(t.rounds) == a
  {
    DoneCounts(t.rounds, a);
  }

  /** The facts callers rely on: an active round belongs to an active game, there is at most one, and a
      started game other than a practice session or an unopened room has exactly one until it ends. */
  lemma ActiveRoundFacts(t: Rows)
    requires Shape(t)
    ensures forall i | 0 <= i < |t.rounds| && t.rounds[i].status.RoundActive? :: t.game.status.Active? && i == Done(t.rounds)
    ensures t.game.status.Active? && !t.game.mode.Practice? && t.rounds != [] ==>
              Done(t.rounds) < |t.rounds| && t.rounds[Done(t.rounds)].status.RoundActive?
  {
    var a: nat :| ShapeAt(t, a);
    ShapeCountsDone(t, a);
  }

  ghost predicate KeepsShape(t: Rows, tx: Tx) {
    tx.Committed? ==>
      && Shape(tx.rows)
      && Done(tx.rows.rounds) == Done(t.rounds) + (if tx.out.roundCompleted then 1 else 0)
      && tx.rows.game.mode == t.game.mode
      && (tx.out.gameCompleted ==> tx.rows.game.status.Completed? && !t.game.status.Completed?)
  }

  lemma ShapeWitness(t: Rows, tx: Tx, a: nat)
    requires ShapeAt(t, a)
    requires tx.Committed? ==> ShapeAt(tx.rows, if tx.out.roundCompleted then a + 1 else a)
    requires tx.Committed? ==> tx.rows.game.mode == t.game.mode
    requires tx.Committed? && tx.out.gameCompleted ==> tx.rows.game.status.Completed? && !t.game.status.Completed?
    ensures KeepsShape(t, tx)
  {
    ShapeCountsDone(t, a);
    if tx.Committed? {
      ShapeCountsDone(tx.rows, if tx.out.roundCompleted then a + 1 else a);
    }
  }

  /** Starting a game always keeps the shape, but it leaves a playable round iff the game already has rounds. */
  lemma StartGameShape(t: Rows, now: Instant, timerSeconds: Option<int>)
    requires Shape(t)
    ensures var tx := StartGame(t, now, timerSeconds);
            && KeepsShape(t, tx)
            && (tx.Committed? ==> (FindActive(tx.rows.rounds).Some? <==> t.rounds != []))
  {
    var a: nat :| ShapeAt(t, a);
    var tx := StartGame(t, now, timerSeconds);
    ShapeWitness(t, tx, a);
    if tx.Committed? {
      FindActiveFinds(tx.rows.rounds);
      if t.rounds != [] { assert tx.rows.rounds[0].status.RoundActive?; }
    }
  }

  lemma StartPrivateRoomShape(t: Rows, count: nat, now: Instant, timerSeconds: Option<int>)
    requires Shape(t) && count == t.game.roundCount
    ensures var tx := StartPrivateRoomGame(t, count, now, timerSeconds);
            KeepsShape(t, tx) && (tx.Committed? ==> tx.rows.rounds != [])
  {
    var a: nat :| ShapeAt(t, a);
    var tx := StartPrivateRoomGame(t, count, now, timerSeconds);
    if tx.Committed? {
      var created := if t.rounds == [] then PendingRounds(count) else t.rounds;
      assert Numbered(created) && KeysUnique(created);
      FindRoundFinds(tx.rows.rounds, 1);
      assert created[0].number == 1;
    }
    ShapeWitness(t, tx, a);
  }

  /** Practice rounds grow one at a time, and a creation key makes at most one round. */
  lemma AppendPracticeShape(t: Rows, key: string, now: Instant)
    requires Shape(t)
    ensures var tx := AppendPracticeRound(t, key, now);
            && KeepsShape(t, tx)
            && (tx.Committed? ==> HasKey(tx.rows.rounds, key))
            && (tx.Committed? ==> |tx.rows.rounds| == |t.rounds| + if HasKey(t.rounds, key) then 0 else 1)
            && (tx.Committed? ==> AppendPracticeRound(tx.rows, key, now) == Committed(tx.rows, QUIET))
  {
    var a: nat :| ShapeAt(t, a);
    var tx := AppendPracticeRound(t, key, now);
    if tx.Committed? && !HasKey(t.rounds, key) {
      LatestIsGreatest(t.rounds);
      var latest := Latest(t.rounds).value;
      var n := |t.rounds|;
      var i :| 0 <= i < n && t.rounds[i] == latest;
      assert t.rounds[n - 1].number <= latest.number;
      assert tx.rows.rounds[n].creationKey == Some(key);
    }
    ShapeWitness(t, tx, a);
  }

  lemma EndPracticeShape(t: Rows)
    requires Shape(t)
    ensures KeepsShape(t, EndPractice(t))
  {
    var a: nat :| ShapeAt(t, a);
    ShapeWitness(t, EndPractice(t), a);
  }

  lemma CancelShape(t: Rows, to: GameStatus)
    requires Shape(t)
    ensures KeepsShape(t, CancelMultiplayerGame(t, to))
  {
    var a: nat :| ShapeAt(t, a);
    ShapeWitness(t, CancelMultiplayerGame(t, to), a);
  }

  /** Closing the active round leaves the round after it as the least-numbered pending one. */
  lemma NextAfterClose(rounds: seq<Round>, a: nat)
    requires Numbered(rounds) && a < |rounds| && AllFrom(rounds, a + 1, RoundPending)
    requires forall i | 0 <= i <= a :: !rounds[i].status.RoundPending?
    ensures NextPending(Close(rounds, a + 1)) == if a + 1 < |rounds| then Some(a + 2) else None
  {
    var closed := Close(rounds, a + 1);
    NextPendingIsLeast(closed);
    var next := NextPending(closed);
    if a + 1 < |closed| {
      assert closed[a + 1].status.RoundPending?;
      var i :| 0 <= i < |closed| && closed[i].status.RoundPending? && closed[i].number == next.value;
      assert i == a + 1;
    }
  }

  lemma AdvancedShape(rounds: seq<Round>, a: nat, now: Instant, endsAt: Option<Instant>)
    requires Numbered(rounds) && KeysUnique(rounds) && a < |rounds|
    requires forall i | 0 <= i < a :: rounds[i].status.RoundCompleted?
    requires rounds[a].status.RoundActive? && AllFrom(rounds, a + 1, RoundPending)
    ensures var r := Advanced(rounds, a + 1, now, endsAt);
            && |r| == |rounds| && Numbered(r) && KeysUnique(r)
            && (forall i | 0 <= i < a + 1 :: r[i].status.RoundCompleted?)
            && (a + 1 < |r| ==> r[a + 1].status.RoundActive? && AllFrom(r, a + 2, RoundPending))
  {
    NextAfterClose(rounds, a);
    CloseKeepsIdentity(rounds, a + 1);
    if a + 1 < |rounds| {
      var closed := Close(rounds, a + 1);
      assert Advanced(rounds, a + 1, now, endsAt) == Activate(closed, a + 2, now, endsAt);
      ActivateKeepsIdentity(closed, a + 2, now, endsAt);
    }
  }

  lemma CloseAndAdvanceShape(t: Rows, a: nat, now: Instant, endsAt: Option<Instant>, completes: bool)
    requires ShapeOf(t.game, t.rounds, a) && a < |t.rounds| && t.game.status.Active?
    requires completes || t.game.mode.Practice?
    ensures var tx := CloseAndAdvance(t, a + 1, now, endsAt, completes);
            && ShapeOf(tx.rows.game, tx.rows.rounds, a + 1)
            && (tx.out.gameCompleted <==> completes && a + 1 == |t.rounds|)
  {
    NextAfterClose(t.rounds, a);
    AdvancedShape(t.rounds, a, now, endsAt);
  }

  lemma CloseKeepsIdentity(rounds: seq<Round>, number: int)
    requires Numbered(rounds) && KeysUnique(rounds)
    ensures Numbered(Close(rounds, number)) && KeysUnique(Close(rounds, number))
  {
    var closed := Close(rounds, number);
    forall i, j | 0 <= i < j < |closed| ensures closed[i].creationKey.Some? ==> closed[i].creationKey != closed[j].creationKey {
      assert closed[i].creationKey == rounds[i].creationKey && closed[j].creationKey == rounds[j].creationKey;
    }
  }

  lemma ActivateKeepsIdentity(rounds: seq<Round>, number: int, now: Instant, endsAt: Option<Instant>)
    requires Numbered(rounds) && KeysUnique(rounds)
    ensures Numbered(Activate(rounds, number, now, endsAt)) && KeysUnique(Activate(rounds, number, now, endsAt))
  {
    var active := Activate(rounds, number, now, endsAt);
    forall i, j | 0 <= i < j < |active| ensures active[i].creationKey.Some? ==> active[i].creationKey != active[j].creationKey {
      assert active[i].creationKey == rounds[i].creationKey && active[j].creationKey == rounds[j].creationKey;
    }
  }

  /** A round found active is the one the shape says is active. */
  lemma FoundActive(t: Rows, a: nat, round: Round)
    requires ShapeOf(t.game, t.rounds, a) && round in t.rounds && round.status.RoundActive?
    ensures t.game.status.Active? && a < |t.rounds| && round == t.rounds[a] && round.number == a + 1
  {
    var i :| 0 <= i < |t.rounds| && t.rounds[i] == round;
    assert i == a;
  }

  /** SubmitGuess never reads the game's status; the shape alone makes that safe. */
  lemma SubmitGuessShape(t: Rows, number: int, player: PlayerId, rawAccuracy: int, now: Instant)
    requires Shape(t)
    ensures var tx := SubmitGuess(t, number, player, rawAccuracy, now);
            && KeepsShape(t, tx)
            && (tx.Committed? ==> t.game.status.Active? && tx.out.roundCompleted && number == Done(t.rounds) + 1)
  {
    var a: nat :| ShapeAt(t, a);
    var tx := SubmitGuess(t, number, player, rawAccuracy, now);
    if tx.Committed? {
      FindRoundFinds(t.rounds, number);
      FoundActive(t, a, FindRound(t.rounds, number).value);
      var (accuracy, bonus, total) := ComposeGuessScores(Solo, rawAccuracy, 0, 0);
      var scored := t.(game := t.game.(totalScore := t.game.totalScore + total), players := Credit(t.players, player, total),
                       guesses := t.guesses + [Guess(number, player, accuracy, bonus, total, false, now)]);
      CloseAndAdvanceShape(scored, a, now, Deadline(t.game.timerSeconds, now), !t.game.mode.Practice?);
      ShapeCountsDone(t, a);
    }
    ShapeWitness(t, tx, a);
  }

  lemma ExpireSoloRoundShape(t: Rows, number: int, player: PlayerId, now: Instant)
    requires Shape(t)
    ensures var tx := ExpireSoloRound(t, number, player, now);
            && KeepsShape(t, tx)
            && (tx.Committed? ==> t.game.status.Active? && tx.out.roundCompleted && number == Done(t.rounds) + 1)
  {
    var a: nat :| ShapeAt(t, a);
    var tx := ExpireSoloRound(t, number, player, now);
    if tx.Committed? {
      FindRoundFinds(t.rounds, number);
      FoundActive(t, a, FindRound(t.rounds, number).value);
      var timedOut := t.(guesses := t.guesses + [ZeroGuess(number, player, now)]);
      CloseAndAdvanceShape(timedOut, a, now, Deadline(t.game.timerSeconds, now), true);
      ShapeCountsDone(t, a);
    }
    ShapeWitness(t, tx, a);
  }

  /** What a multiplayer transaction promises its lifecycle hooks: a terminal result exactly when it completes
      the game, carrying the team totals it committed. */
  ghost predicate ReportsTerminal(game: GameRow, tx: Tx, now: Instant) {
    tx.Committed? ==>
      && game.status.Active?
      && tx.rows.game == game.(status := if tx.out.gameCompleted then Completed else Active)
      && tx.out.terminal == (if tx.out.gameCompleted then Some(BuildTerminal(tx.rows.players, now)) else None)
      && (tx.out.gameCompleted ==> tx.out.roundCompleted)
  }

  lemma CompleteMultiplayerRoundShape(t: Rows, a: nat, now: Instant)
    requires ShapeOf(t.game, t.rounds, a) && a < |t.rounds| && t.game.status.Active?
    ensures var tx := CompleteMultiplayerRound(t, a + 1, now);
            && tx.Committed? && tx.out.roundCompleted && ReportsTerminal(t.game, tx, now)
            && ShapeOf(tx.rows.game, tx.rows.rounds, a + 1)
            && (tx.out.gameCompleted <==> a + 1 == |t.rounds|)
  {
    CloseAndAdvanceShape(ZeroFilled(t, a + 1, now), a, now, NextRoundEndsAt(t.game.mode, t.game.timerSeconds, now), true);
  }

  lemma CloseIfAllSubmittedShape(t: Rows, a: nat, now: Instant)
    requires ShapeOf(t.game, t.rounds, a) && a < |t.rounds| && t.game.status.Active?
    ensures var tx := CloseIfAllSubmitted(t, a + 1, now);
            && tx.Committed? && ReportsTerminal(t.game, tx, now)
            && ShapeOf(tx.rows.game, tx.rows.rounds, if tx.out.roundCompleted then a + 1 else a)
  {
    CompleteMultiplayerRoundShape(t, a, now);
  }

  lemma SubmitMultiplayerGuessAt(t: Rows, a: nat, number: int, player: PlayerId, rawAccuracy: int, now: Instant)
    requires ShapeOf(t.game, t.rounds, a) && SubmitMultiplayerGuess(t, number, player, rawAccuracy, now).Committed?
    ensures var tx := SubmitMultiplayerGuess(t, number, player, rawAccuracy, now);
            && a < |t.rounds| && t.rounds[a].status.RoundActive? && number == a + 1
            && IsMultiplayerMode(t.game.mode) && t.game.status.Active? && !HasGuess(t.guesses, number, player)
            && tx == CloseIfAllSubmitted(Scored(t, t.rounds[a], player, rawAccuracy, now), a + 1, now)
            && ShapeOf(tx.rows.game, tx.rows.rounds, if tx.out.roundCompleted then a + 1 else a)
            && ReportsTerminal(t.game, tx, now)
  {
    FindRoundFinds(t.rounds, number);
    var round := FindRound(t.rounds, number).value;
    FoundActive(t, a, round);
    CloseIfAllSubmittedShape(Scored(t, round, player, rawAccuracy, now), a, now);
  }

  lemma SubmitMultiplayerGuessShape(t: Rows, number: int, player: PlayerId, rawAccuracy: int, now: Instant)
    requires Shape(t)
    ensures var tx := SubmitMultiplayerGuess(t, number, player, rawAccuracy, now);
            && KeepsShape(t, tx) && ReportsTerminal(t.game, tx, now)
            && (tx.Committed? ==> number == Done(t.rounds) + 1)
  {
    var a: nat :| ShapeAt(t, a);
    var tx := SubmitMultiplayerGuess(t, number, player, rawAccuracy, now);
    if tx.Committed? {
      SubmitMultiplayerGuessAt(t, a, number, player, rawAccuracy, now);
      ShapeCountsDone(t, a);
    }
    ShapeWitness(t, tx, a);
  }

  lemma CloseExpiredClosesTheActiveRound(t: Rows, a: nat, now: Instant)
    requires ShapeOf(t.game, t.rounds, a) && CloseExpiredMultiplayerRound(t, now).Committed?
    ensures a < |t.rounds| && t.rounds[a].status.RoundActive? && t.game.status.Active?
    ensures CloseExpiredMultiplayerRound(t, now) == CompleteMultiplayerRound(ZeroFilled(t, a + 1, now), a + 1, now)
  {
    FindActiveFinds(t.rounds);
    FoundActive(t, a, FindActive(t.rounds).value);
  }

  lemma CloseExpiredAt(t: Rows, a: nat, now: Instant)
    requires ShapeOf(t.game, t.rounds, a) && CloseExpiredMultiplayerRound(t, now).Committed?
    ensures var tx := CloseExpiredMultiplayerRound(t, now);
            && ShapeOf(tx.rows.game, tx.rows.rounds, a + 1) && ReportsTerminal(t.game, tx, now) && tx.out.roundCompleted
  {
    CloseExpiredClosesTheActiveRound(t, a, now);
    CompleteMultiplayerRoundShape(ZeroFilled(t, a + 1, now), a, now);
  }

  lemma CloseExpiredShape(t: Rows, now: Instant)
    requires Shape(t)
    ensures var tx := CloseExpiredMultiplayerRound(t, now);
            && KeepsShape(t, tx) && ReportsTerminal(t.game, tx, now)
            && (tx.Committed? ==> tx.out.roundCompleted)
  {
    var a: nat :| ShapeAt(t, a);
    var tx := CloseExpiredMultiplayerRound(t, now);
    if tx.Committed? {
      CloseExpiredAt(t, a, now);
    }
    ShapeWitness(t, tx, a);
  }
}
