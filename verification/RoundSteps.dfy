/** What starts, guesses, timeouts and closes write, column by column, and exactly when they do. */
module RoundSteps {
  import opened Wrappers
  import opened Modes
  import opened Scoring
  import opened Game
  import opened GameInvariants
  import opened ScoreLedger
  import opened MatchLifecycle
  import opened MatchCoupling

  // ---- What a guess is worth ----

  function LegalAccuracy(raw: int): int { if raw < 0 then 0 else if raw > 5000 then 5000 else raw }

  /** Whole milliseconds between two instants in order; time differences saturate. */
  function WholeMillis(from: Instant, to: Instant): nat
    requires from <= to
  {
    (if to - from > INT64_MAX then INT64_MAX else to - from) / 1_000_000
  }

  /** min(250, floor(accuracy * 0.05 * remaining / duration)); a window below one millisecond is worth nothing. */
  function DocumentedPoints(accuracy: int, remaining: nat, duration: nat): int {
    if duration == 0 then 0
    else
      var points := (accuracy as real * 0.05 * remaining as real / duration as real).Floor;
      if points > 250 then 250 else points
  }

  function DocumentedBonus(accuracy: int, startsAt: Instant, endsAt: Instant, at: Instant): int
    requires startsAt <= at <= endsAt
  {
    DocumentedPoints(accuracy, WholeMillis(at, endsAt), WholeMillis(startsAt, endsAt))
  }

  /** Only a ranked guess inside a round that has both ends earns the bonus. */
  predicate DeservedBonus(mode: Mode, round: Round, accuracy: int, at: Instant, bonus: int) {
    if IsRankedMode(mode) && round.startsAt.Some? && round.endsAt.Some?
    then round.startsAt.value <= at <= round.endsAt.value && bonus == DocumentedBonus(accuracy, round.startsAt.value, round.endsAt.value, at)
    else bonus == 0
  }

  lemma WindowInOrder(startsAt: Instant, endsAt: Instant, at: Instant)
    requires startsAt <= at <= endsAt
    ensures var remaining, duration := WholeMillis(at, endsAt), WholeMillis(startsAt, endsAt);
            && remaining <= duration
            && RoundTimerWindowMs(Some(startsAt), Some(endsAt), at) == (remaining, if duration == 0 then 1 else duration)
  {
  }

  lemma PointsAreTheBonus(accuracy: nat, remaining: nat, duration: nat)
    requires accuracy <= MAX_ROUND_SCORE && remaining <= duration
    ensures SpeedBonusV1(accuracy, remaining, if duration == 0 then 1 else duration) == DocumentedPoints(accuracy, remaining, duration)
  {
    if duration > 0 {
      BonusMatchesDocumentedFormula(accuracy, remaining, duration);
      PointsAreNatural(accuracy, remaining, duration);
    }
  }

  lemma BonusIsDocumented(accuracy: int, startsAt: Instant, endsAt: Instant, at: Instant)
    requires startsAt <= at <= endsAt && 0 <= accuracy <= MAX_ROUND_SCORE
    ensures var (remainingMs, durationMs) := RoundTimerWindowMs(Some(startsAt), Some(endsAt), at);
            SpeedBonusV1(accuracy, remainingMs, durationMs) == DocumentedBonus(accuracy, startsAt, endsAt, at)
  {
    WindowInOrder(startsAt, endsAt, at);
    PointsAreTheBonus(accuracy, WholeMillis(at, endsAt), WholeMillis(startsAt, endsAt));
  }

  lemma PointsAreNatural(accuracy: nat, remaining: nat, duration: nat)
    requires duration > 0
    ensures (accuracy as real * 0.05 * remaining as real / duration as real).Floor >= 0
  {
    var product := accuracy as real * 0.05 * remaining as real;
    NonNegativeQuotient(product, duration as real);
  }

  lemma NonNegativeQuotient(n: real, d: real)
    requires n >= 0.0 && d > 0.0
    ensures n / d >= 0.0
  {
  }

  lemma ScoreIsDeserved(mode: Mode, round: Round, raw: int, at: Instant)
    requires IsRankedMode(mode) && round.startsAt.Some? && round.endsAt.Some? ==> round.startsAt.value <= at <= round.endsAt.value
    ensures var (accuracy, bonus, total) := ScoreWithSpeedBonus(mode, raw, round.startsAt, round.endsAt, at);
            accuracy == LegalAccuracy(raw) && DeservedBonus(mode, round, accuracy, at, bonus) && total == accuracy + bonus
  {
    if IsRankedMode(mode) && round.startsAt.Some? && round.endsAt.Some? {
      BonusIsDocumented(LegalAccuracy(raw), round.startsAt.value, round.endsAt.value, at);
    }
  }

  // ---- Recording ----

  /** The guess is stored right behind the earlier ones, and only its player's total moves, by its score. */
  predicate Recorded(t: Rows, after: Rows, g: Guess) {
    && |after.guesses| > |t.guesses| && after.guesses[..|t.guesses|] == t.guesses && after.guesses[|t.guesses|] == g
    && |after.players| == |t.players|
    && forall i | 0 <= i < |t.players| ::
         after.players[i] == t.players[i].(totalScore := t.players[i].totalScore + if t.players[i].id == g.player then g.score else 0)
  }

  predicate IsOpenRound(t: Rows, number: int) { 1 <= number <= |t.rounds| && t.rounds[number - 1].status.RoundActive? }

  /** A member without a guess for the open round, within its window; an early guess is refused in ranked modes only. */
  predicate AdmitsMultiplayer(t: Rows, number: int, player: PlayerId, now: Instant) {
    && IsMultiplayerMode(t.game.mode) && IsMember(t.players, player) && IsOpenRound(t, number) && !HasGuess(t.guesses, number, player)
    && var round := t.rounds[number - 1];
       && (IsRankedMode(t.game.mode) && round.startsAt.Some? ==> round.startsAt.value <= now)
       && (round.endsAt.Some? ==> now <= round.endsAt.value)
  }

  lemma OpenRoundIsFound(t: Rows, number: int)
    requires Shape(t)
    ensures var found := FindRound(t.rounds, number);
            && (found.Some? && found.value.status.RoundActive? <==> IsOpenRound(t, number))
            && (IsOpenRound(t, number) ==> found == Some(t.rounds[number - 1]) && t.game.status.Active?)
  {
    FindRoundFinds(t.rounds, number);
    ActiveRoundFacts(t);
    assert Numbered(t.rounds);
    if 1 <= number <= |t.rounds| { assert t.rounds[number - 1].number == number; }
  }

  lemma MultiplayerCommitsIff(t: Rows, number: int, player: PlayerId, raw: int, now: Instant, p: Progression)
    requires Shape(t)
    ensures Transact(t, GuessMulti(number, player, raw, now, p)).Committed? <==> AdmitsMultiplayer(t, number, player, now)
    ensures AdmitsMultiplayer(t, number, player, now) ==>
              Transact(t, GuessMulti(number, player, raw, now, p)) == CloseIfAllSubmitted(Scored(t, t.rounds[number - 1], player, raw, now), number, now)
  {
    OpenRoundIsFound(t, number);
  }

  /** A command takes effect exactly when its transaction commits: under the invariant no hook refuses. */
  lemma ExecIsTransact(w: World, c: Cmd)
    requires Inv(w)
    ensures var tx := Transact(w.rows, c);
            if tx.Committed? then Exec(w, c).0.rows == tx.rows && Exec(w, c).1 == tx.out else Exec(w, c) == (w, QUIET)
  {
    if Transact(w.rows, c).Committed? && w.row.Some? { HooksKeepCoupling(w.rows, w.row.value, c); }
  }

  function ActivePlayers(players: seq<Player>): set<PlayerId> { set p | p in players && p.status.PlayerActive? :: p.id }

  function Submitters(guesses: seq<Guess>, number: int): set<PlayerId> { set g | g in guesses && g.round == number :: g.player }

  /** A timed-out zero, made at `now`, for an active player who has not guessed. */
  predicate IsFiller(t: Rows, g: Guess, number: int, now: Instant) {
    g == Guess(number, g.player, 0, 0, 0, true, now) && g.player in ActivePlayers(t.players) && g.player !in Submitters(t.guesses, number)
  }

  predicate FillersFrom(t: Rows, after: Rows, number: int, now: Instant, from: nat) {
    forall k | from <= k < |after.guesses| :: IsFiller(t, after.guesses[k], number, now)
  }

  predicate AllFillers(t: Rows, zs: seq<Guess>, number: int, now: Instant) { forall i | 0 <= i < |zs| :: IsFiller(t, zs[i], number, now) }

  lemma FillersBehind(t: Rows, zs: seq<Guess>, after: Rows, number: int, now: Instant)
    requires AllFillers(t, zs, number, now) && after.guesses == t.guesses + zs
    ensures FillersFrom(t, after, number, now, |t.guesses|)
  {
    forall k | |t.guesses| <= k < |after.guesses| ensures IsFiller(t, after.guesses[k], number, now) {
      assert after.guesses[k] == zs[k - |t.guesses|];
    }
  }

  lemma ZerosAreFillers(t: Rows, number: int, now: Instant)
    ensures FillersFrom(t, ZeroFilled(t, number, now), number, now, |t.guesses|)
  {
    ZerosOfActive(t, t.players, number, now);
    FillersBehind(t, MissingZeros(t.players, t.guesses, number, now), ZeroFilled(t, number, now), number, now);
  }

  lemma {:induction false} ZerosOfActive(t: Rows, players: seq<Player>, number: int, now: Instant)
    requires forall p | p in players :: p in t.players
    ensures AllFillers(t, MissingZeros(players, t.guesses, number, now), number, now)
  {
    if players != [] {
      var init, last := players[..|players| - 1], players[|players| - 1];
      ZerosOfActive(t, init, number, now);
      SubmittersGuessed(t.guesses, number, last.id);
      assert last.status.PlayerActive? ==> last.id in ActivePlayers(t.players);
    }
  }

  lemma SubmittersGuessed(guesses: seq<Guess>, number: int, player: PlayerId)
    ensures player in Submitters(guesses, number) <==> HasGuess(guesses, number, player)
  {
    if HasGuess(guesses, number, player) {
      var i :| 0 <= i < |guesses| && guesses[i].round == number && guesses[i].player == player;
      assert guesses[i] in guesses;
    }
  }

  /** What a multiplayer guess leaves behind it, whether or not it closes the round. */
  lemma GuessThenFill(t: Rows, number: int, player: PlayerId, raw: int, now: Instant)
    requires Shape(t) && Ledger(t) && AdmitsMultiplayer(t, number, player, now)
    ensures var n, scored := |t.guesses|, Scored(t, t.rounds[number - 1], player, raw, now);
            var after := CloseIfAllSubmitted(scored, number, now).rows;
            && |scored.guesses| == n + 1 && Recorded(t, after, scored.guesses[n]) && FillersFrom(scored, after, number, now, n + 1)
  {
    assert Numbered(t.rounds);
    var scored := Scored(t, t.rounds[number - 1], player, raw, now);
    ScoredLedger(t, t.rounds[number - 1], player, raw, now);
    ZerosAreFillers(scored, number, now);
  }

  /** A multiplayer guess is recorded iff its player is a member without one for the open round and it is in time; then
      it stores the accuracy the player reached, clamped, with the bonus the documented formula gives for this round and
      instant, in a ranked mode; its player's total rises by that score and nobody else's moves. Anything stored behind
      it fills in for the missing when it closes the round. A refused guess changes nothing. */
  lemma MultiplayerGuessIsRecordedIff(w: World, number: int, player: PlayerId, raw: int, now: Instant, p: Progression)
    requires Inv(w)
    ensures var t, (r, out) := w.rows, Exec(w, GuessMulti(number, player, raw, now, p));
            if AdmitsMultiplayer(t, number, player, now) then
              && |r.rows.guesses| > |t.guesses|
              && var g, accuracy := r.rows.guesses[|t.guesses|], LegalAccuracy(raw);
                 && g == Guess(number, player, accuracy, g.bonus, accuracy + g.bonus, false, now)
                 && DeservedBonus(t.game.mode, t.rounds[number - 1], accuracy, now, g.bonus)
                 && Recorded(t, r.rows, g)
                 && forall k | |t.guesses| < k < |r.rows.guesses| :: r.rows.guesses[k] == Guess(number, r.rows.guesses[k].player, 0, 0, 0, true, now)
            else r == w && out == QUIET
  {
    var t := w.rows;
    ExecIsTransact(w, GuessMulti(number, player, raw, now, p));
    MultiplayerCommitsIff(t, number, player, raw, now, p);
    if AdmitsMultiplayer(t, number, player, now) {
      assert Numbered(t.rounds);
      GuessThenFill(t, number, player, raw, now);
      ScoreIsDeserved(t.game.mode, t.rounds[number - 1], raw, now);
    }
  }

  // ---- When a guess closes its round ----

  lemma {:induction false} ActiveAreCounted(players: seq<Player>)
    requires DistinctPlayers(players)
    ensures CountActive(players) == |ActivePlayers(players)|
  {
    if players != [] {
      var init, last := players[..|players| - 1], players[|players| - 1];
      ActiveAreCounted(init);
      assert players == init + [last];
      if last.status.PlayerActive? {
        assert ActivePlayers(players) == ActivePlayers(init) + {last.id};
      } else {
        assert ActivePlayers(players) == ActivePlayers(init);
      }
    }
  }

  lemma {:induction false} SubmittersAreCounted(guesses: seq<Guess>, number: int)
    requires OneGuessPerRound(guesses)
    ensures CountGuesses(guesses, number) == |Submitters(guesses, number)|
  {
    if guesses != [] {
      var init, last := guesses[..|guesses| - 1], guesses[|guesses| - 1];
      SubmittersAreCounted(init, number);
      assert guesses == init + [last];
      if last.round == number {
        assert Submitters(guesses, number) == Submitters(init, number) + {last.player};
      } else {
        assert Submitters(guesses, number) == Submitters(init, number);
      }
    }
  }

  lemma ScoredCounts(t: Rows, round: Round, player: PlayerId, raw: int, now: Instant)
    requires Ledger(t) && IsMultiplayerMode(t.game.mode) && IsMember(t.players, player)
    requires 1 <= round.number <= |t.rounds| && !HasGuess(t.guesses, round.number, player)
    ensures var scored := Scored(t, round, player, raw, now);
            && CountActive(scored.players) == |ActivePlayers(t.players)|
            && CountGuesses(scored.guesses, round.number) == |Submitters(t.guesses, round.number) + {player}|
  {
    var scored := Scored(t, round, player, raw, now);
    ScoredLedger(t, round, player, raw, now);
    ActiveAreCounted(scored.players);
    SubmittersAreCounted(scored.guesses, round.number);
    SameActive(t.players, scored.players);
    assert Submitters(scored.guesses, round.number) == Submitters(t.guesses, round.number) + {player};
  }

  lemma SameActive(players: seq<Player>, credited: seq<Player>)
    requires |credited| == |players| && forall i | 0 <= i < |players| :: credited[i].id == players[i].id && credited[i].status == players[i].status
    ensures ActivePlayers(credited) == ActivePlayers(players)
  {
    forall id | id in ActivePlayers(players) ensures id in ActivePlayers(credited) {
      var i :| 0 <= i < |players| && players[i].status.PlayerActive? && players[i].id == id;
      assert credited[i] in credited;
    }
    forall id | id in ActivePlayers(credited) ensures id in ActivePlayers(players) {
      var i :| 0 <= i < |credited| && credited[i].status.PlayerActive? && credited[i].id == id;
      assert players[i] in players;
    }
  }

  /** A guess closes its round exactly when, with it, as many players have guessed as are active. */
  lemma GuessClosesIff(w: World, number: int, player: PlayerId, raw: int, now: Instant, p: Progression)
    requires Inv(w) && AdmitsMultiplayer(w.rows, number, player, now)
    ensures Exec(w, GuessMulti(number, player, raw, now, p)).1.roundCompleted
       <==> 0 < |ActivePlayers(w.rows.players)| <= |Submitters(w.rows.guesses, number) + {player}|
  {
    ExecIsTransact(w, GuessMulti(number, player, raw, now, p));
    MultiplayerCommitsIff(w.rows, number, player, raw, now, p);
    assert Numbered(w.rows.rounds);
    ScoredCounts(w.rows, w.rows.rounds[number - 1], player, raw, now);
  }

  // ---- Deadlines ----

  /** A deadline closes the open round iff it is a ranked or hosted game's and has passed; players keep their totals and
      everyone active who has not guessed gets a timed-out zero. */
  lemma DeadlineClosesIff(w: World, now: Instant, p: Progression)
    requires Inv(w)
    ensures var t, (r, out) := w.rows, Exec(w, CloseExpired(now, p));
            if exists i :: 0 <= i < |t.rounds| && IsPastDeadline(t, i, now) then out.roundCompleted && FilledIn(t, r.rows, Done(t.rounds) + 1, now)
            else r == w && out == QUIET
  {
    ExecIsTransact(w, CloseExpired(now, p));
    DeadlineFillsIff(w.rows, now);
  }

  /** The guesses so far stay, followed by the fillers for the round; nobody's total moves. */
  predicate FilledIn(t: Rows, after: Rows, number: int, now: Instant) {
    && after.players == t.players
    && |after.guesses| >= |t.guesses| && after.guesses[..|t.guesses|] == t.guesses && FillersFrom(t, after, number, now, |t.guesses|)
  }

  lemma DeadlineFillsIff(t: Rows, now: Instant)
    requires Shape(t) && Ledger(t)
    ensures var tx := CloseExpiredMultiplayerRound(t, now);
            && (tx.Committed? <==> exists i :: 0 <= i < |t.rounds| && IsPastDeadline(t, i, now))
            && (tx.Committed? ==> tx.out.roundCompleted && FilledIn(t, tx.rows, Done(t.rounds) + 1, now))
  {
    var a: nat :| ShapeAt(t, a);
    ShapeCountsDone(t, a);
    DeadlineCommitsIff(t, a, now);
    if CloseExpiredMultiplayerRound(t, now).Committed? { DeadlineFills(t, a + 1, now); }
  }

  lemma DeadlineCommitsIff(t: Rows, a: nat, now: Instant)
    requires ShapeAt(t, a)
    ensures CloseExpiredMultiplayerRound(t, now).Committed? <==> exists i :: 0 <= i < |t.rounds| && IsPastDeadline(t, i, now)
    ensures CloseExpiredMultiplayerRound(t, now).Committed? ==>
              a < |t.rounds| && CloseExpiredMultiplayerRound(t, now) == CompleteMultiplayerRound(ZeroFilled(t, a + 1, now), a + 1, now)
  {
    FindActiveFinds(t.rounds);
    if FindActive(t.rounds).Some? {
      FoundActive(t, a, FindActive(t.rounds).value);
      assert CloseExpiredMultiplayerRound(t, now).Committed? <==> IsPastDeadline(t, a, now);
    }
  }

  predicate IsPastDeadline(t: Rows, i: nat, now: Instant)
    requires i < |t.rounds|
  {
    && IsMultiplayerMode(t.game.mode) && !IsCasualMode(t.game.mode)
    && t.rounds[i].status.RoundActive? && t.rounds[i].endsAt.Some? && t.rounds[i].endsAt.value <= now
  }

  lemma {:induction false} NothingMissing(players: seq<Player>, guesses: seq<Guess>, number: int, now: Instant)
    requires forall k | 0 <= k < |players| && players[k].status.PlayerActive? :: HasGuess(guesses, number, players[k].id)
    ensures MissingZeros(players, guesses, number, now) == []
  {
    if players != [] { NothingMissing(players[..|players| - 1], guesses, number, now); }
  }

  /** Filling twice, as this path does, adds nothing the second time. */
  lemma DeadlineFills(t: Rows, number: int, now: Instant)
    requires Ledger(t) && 1 <= number <= |t.rounds|
    ensures var tx := CompleteMultiplayerRound(ZeroFilled(t, number, now), number, now);
            tx.Committed? && tx.out.roundCompleted && FilledIn(t, tx.rows, number, now)
  {
    ZeroFillIsExact(t, number, now);
    ZerosAreFillers(t, number, now);
    var filled := ZeroFilled(t, number, now);
    NothingMissing(filled.players, filled.guesses, number, now);
  }

  // ---- Solo guesses ----

  predicate AdmitsSolo(t: Rows, number: int, player: PlayerId, now: Instant) {
    && !IsMultiplayerMode(t.game.mode) && IsMember(t.players, player) && IsOpenRound(t, number) && !HasGuess(t.guesses, number, player)
    && (t.rounds[number - 1].endsAt.Some? ==> now <= t.rounds[number - 1].endsAt.value)
  }

  /** A solo guess is recorded iff its player is the game's and has none for the open round, in time; then it stores the
      clamped accuracy without a bonus, adds it to both totals and closes the round. */
  lemma SoloGuessIsRecordedIff(w: World, number: int, player: PlayerId, raw: int, now: Instant)
    requires Inv(w)
    ensures var t, (r, out) := w.rows, Exec(w, GuessSolo(number, player, raw, now));
            if AdmitsSolo(t, number, player, now) then
              var g := Guess(number, player, LegalAccuracy(raw), 0, LegalAccuracy(raw), false, now);
              && r.rows.guesses == t.guesses + [g] && Recorded(t, r.rows, g)
              && r.rows.game.totalScore == t.game.totalScore + g.score && out.roundCompleted
            else r == w && out == QUIET
  {
    ExecIsTransact(w, GuessSolo(number, player, raw, now));
    OpenRoundIsFound(w.rows, number);
  }

  predicate AdmitsTimeout(t: Rows, number: int, player: PlayerId, now: Instant) {
    && t.game.mode.Daily? && IsMember(t.players, player) && IsOpenRound(t, number) && !HasGuess(t.guesses, number, player)
    && t.rounds[number - 1].endsAt.Some? && t.rounds[number - 1].endsAt.value <= now
  }

  /** A daily round times out iff it is open, past its deadline and without a guess; it stores a timed-out zero, moves no
      total and closes the round. */
  lemma TimeoutIsRecordedIff(w: World, number: int, player: PlayerId, now: Instant)
    requires Inv(w)
    ensures var t, (r, out) := w.rows, Exec(w, ExpireDaily(number, player, now));
            if AdmitsTimeout(t, number, player, now) then
              && r.rows.guesses == t.guesses + [Guess(number, player, 0, 0, 0, true, now)]
              && r.rows.players == t.players && r.rows.game.totalScore == t.game.totalScore && out.roundCompleted
            else r == w && out == QUIET
  {
    ExecIsTransact(w, ExpireDaily(number, player, now));
    OpenRoundIsFound(w.rows, number);
  }

  // ---- What a close opens ----

  /** Casual rounds have no deadline; others end the game's timer after they open. */
  function DeadlineFrom(game: GameRow, now: Instant): Option<Instant> {
    if IsCasualMode(game.mode) || game.timerSeconds.None? then None else Some(now + game.timerSeconds.value * 1_000_000_000)
  }

  /** Round `number` is completed and the round after it opened now, if there is one; the others stay as they were. The
      game completes behind its last round, unless it is a practice session. */
  predicate Turned(t: Rows, after: Rows, number: int, now: Instant) {
    && 1 <= number <= |t.rounds| == |after.rounds|
    && (forall i | 0 <= i < |t.rounds| :: after.rounds[i] ==
          if i == number - 1 then t.rounds[i].(status := RoundCompleted)
          else if i == number then t.rounds[i].(status := RoundActive, startsAt := Some(now), endsAt := DeadlineFrom(t.game, now))
          else t.rounds[i])
    && after.game.status == (if number < |t.rounds| || t.game.mode.Practice? then Active else Completed)
    && after.game.mode == t.game.mode && after.game.roundCount == t.game.roundCount && after.game.timerSeconds == t.game.timerSeconds
  }

  lemma AdvanceTurns(t: Rows, a: nat, now: Instant, completes: bool)
    requires ShapeAt(t, a) && a < |t.rounds| && t.game.status.Active? && (completes <==> !t.game.mode.Practice?)
    ensures Turned(t, CloseAndAdvance(t, a + 1, now, DeadlineFrom(t.game, now), completes).rows, a + 1, now)
  {
    NextAfterClose(t.rounds, a);
    assert Numbered(t.rounds);
  }

  /** Turning depends on the rounds and the game's own columns only. */
  lemma SameRoundsTurn(t: Rows, u: Rows, after: Rows, number: int, now: Instant)
    requires Turned(u, after, number, now) && u.rounds == t.rounds && u.game.(totalScore := t.game.totalScore) == t.game
    ensures Turned(t, after, number, now)
  {
  }

  function SoloScored(t: Rows, number: int, player: PlayerId, raw: int, now: Instant): Rows {
    var (accuracy, bonus, total) := ComposeGuessScores(Solo, raw, 0, 0);
    t.(game := t.game.(totalScore := t.game.totalScore + total), players := Credit(t.players, player, total),
       guesses := t.guesses + [Guess(number, player, accuracy, bonus, total, false, now)])
  }

  lemma SoloAdvances(t: Rows, number: int, player: PlayerId, raw: int, now: Instant)
    requires SubmitGuess(t, number, player, raw, now).Committed?
    ensures FindRound(t.rounds, number).Some? && FindRound(t.rounds, number).value.status.RoundActive?
    ensures SubmitGuess(t, number, player, raw, now)
         == CloseAndAdvance(SoloScored(t, number, player, raw, now), number, now, Deadline(t.game.timerSeconds, now), !t.game.mode.Practice?)
  {
  }

  lemma OpenRoundIsTheFirst(t: Rows, a: nat, number: int)
    requires ShapeAt(t, a) && FindRound(t.rounds, number).Some? && FindRound(t.rounds, number).value.status.RoundActive?
    ensures a < |t.rounds| && t.game.status.Active? && number == a + 1
  {
    FindRoundFinds(t.rounds, number);
    FoundActive(t, a, FindRound(t.rounds, number).value);
  }

  lemma SoloTurns(t: Rows, a: nat, number: int, player: PlayerId, raw: int, now: Instant)
    requires ShapeAt(t, a) && !IsMultiplayerMode(t.game.mode) && SubmitGuess(t, number, player, raw, now).Committed?
    ensures Turned(t, SubmitGuess(t, number, player, raw, now).rows, a + 1, now)
  {
    SoloAdvances(t, number, player, raw, now);
    OpenRoundIsTheFirst(t, a, number);
    AdvanceTurns(SoloScored(t, number, player, raw, now), a, now, !t.game.mode.Practice?);
    SameRoundsTurn(t, SoloScored(t, number, player, raw, now), SubmitGuess(t, number, player, raw, now).rows, a + 1, now);
  }

  function TimedOut(t: Rows, number: int, player: PlayerId, now: Instant): Rows { t.(guesses := t.guesses + [ZeroGuess(number, player, now)]) }

  lemma TimeoutAdvances(t: Rows, number: int, player: PlayerId, now: Instant)
    requires ExpireSoloRound(t, number, player, now).Committed?
    ensures FindRound(t.rounds, number).Some? && FindRound(t.rounds, number).value.status.RoundActive?
    ensures ExpireSoloRound(t, number, player, now)
         == CloseAndAdvance(TimedOut(t, number, player, now), number, now, Deadline(t.game.timerSeconds, now), true)
  {
  }

  lemma TimeoutTurns(t: Rows, a: nat, number: int, player: PlayerId, now: Instant)
    requires ShapeAt(t, a) && t.game.mode.Daily? && ExpireSoloRound(t, number, player, now).Committed?
    ensures Turned(t, ExpireSoloRound(t, number, player, now).rows, a + 1, now)
  {
    TimeoutAdvances(t, number, player, now);
    OpenRoundIsTheFirst(t, a, number);
    AdvanceTurns(TimedOut(t, number, player, now), a, now, true);
    SameRoundsTurn(t, TimedOut(t, number, player, now), ExpireSoloRound(t, number, player, now).rows, a + 1, now);
  }

  lemma MultiplayerTurns(t: Rows, a: nat, now: Instant)
    requires ShapeAt(t, a) && a < |t.rounds| && t.game.status.Active? && IsMultiplayerMode(t.game.mode)
    ensures Turned(t, CompleteMultiplayerRound(t, a + 1, now).rows, a + 1, now)
  {
    AdvanceTurns(ZeroFilled(t, a + 1, now), a, now, true);
  }

  lemma GuessTurns(t: Rows, a: nat, number: int, player: PlayerId, raw: int, now: Instant)
    requires ShapeAt(t, a) && SubmitMultiplayerGuess(t, number, player, raw, now).Committed?
    requires SubmitMultiplayerGuess(t, number, player, raw, now).out.roundCompleted
    ensures Turned(t, SubmitMultiplayerGuess(t, number, player, raw, now).rows, a + 1, now)
  {
    SubmitMultiplayerGuessAt(t, a, number, player, raw, now);
    MultiplayerTurns(Scored(t, t.rounds[a], player, raw, now), a, now);
  }

  lemma DeadlineTurns(t: Rows, a: nat, now: Instant)
    requires ShapeAt(t, a) && CloseExpiredMultiplayerRound(t, now).Committed?
    ensures Turned(t, CloseExpiredMultiplayerRound(t, now).rows, a + 1, now)
  {
    CloseExpiredClosesTheActiveRound(t, a, now);
    MultiplayerTurns(ZeroFilled(t, a + 1, now), a, now);
  }

  lemma OnlyTheseClose(t: Rows, c: Cmd)
    requires Transact(t, c).Committed? && Transact(t, c).out.roundCompleted
    ensures c.GuessSolo? || c.ExpireDaily? || c.GuessMulti? || c.CloseExpired?
  {
  }

  /** Whatever closes a round, the next one opens at that instant with the game's own timer. */
  lemma ClosingOpensTheNext(w: World, c: Cmd)
    requires Inv(w) && Exec(w, c).1.roundCompleted
    ensures c.GuessSolo? || c.ExpireDaily? || c.GuessMulti? || c.CloseExpired?
    ensures Turned(w.rows, Exec(w, c).0.rows, Done(w.rows.rounds) + 1, c.now)
  {
    ExecIsTransact(w, c);
    OnlyTheseClose(w.rows, c);
    var a: nat :| ShapeAt(w.rows, a);
    ShapeCountsDone(w.rows, a);
    TransactTurns(w.rows, a, c);
  }

  lemma TransactTurns(t: Rows, a: nat, c: Cmd)
    requires ShapeAt(t, a) && Transact(t, c).Committed? && Transact(t, c).out.roundCompleted
    requires c.GuessSolo? || c.ExpireDaily? || c.GuessMulti? || c.CloseExpired?
    ensures Turned(t, Transact(t, c).rows, a + 1, c.now)
  {
    match c
    case GuessSolo(number, player, raw, now) => SoloTurns(t, a, number, player, raw, now);
    case ExpireDaily(number, player, now) => TimeoutTurns(t, a, number, player, now);
    case GuessMulti(number, player, raw, now, _) => GuessTurns(t, a, number, player, raw, now);
    case CloseExpired(now, _) => DeadlineTurns(t, a, now);
  }

  // ---- Starts and practice ----

  function StartDeadline(timerSeconds: Option<int>, now: Instant): Option<Instant> {
    if timerSeconds.None? then None else Some(now + timerSeconds.value * 1_000_000_000)
  }

  /** The first round opens now; the others stay. */
  predicate FirstOpened(before: seq<Round>, after: seq<Round>, now: Instant, timerSeconds: Option<int>) {
    && |after| == |before|
    && forall i | 0 <= i < |before| ::
         after[i] == if i == 0 then before[i].(status := RoundActive, startsAt := Some(now), endsAt := StartDeadline(timerSeconds, now)) else before[i]
  }

  /** A solo start takes effect iff the game is pending. */
  lemma SoloStartsIff(w: World, now: Instant, timerSeconds: Option<int>)
    requires Inv(w)
    ensures var t, r := w.rows, Exec(w, StartSolo(now, timerSeconds)).0;
            if t.game.status.Pending? then
              && r.rows == t.(game := t.game.(status := Active), rounds := r.rows.rounds)
              && FirstOpened(t.rounds, r.rows.rounds, now, timerSeconds)
            else r == w
  {
    ExecIsTransact(w, StartSolo(now, timerSeconds));
    assert Numbered(w.rows.rounds);
  }

  /** A room starts iff it is a pending multiplayer game with a positive round count; a room without rounds gets them. */
  lemma RoomStartsIff(w: World, now: Instant, timerSeconds: Option<int>)
    requires Inv(w)
    ensures var t, r := w.rows, Exec(w, StartRoom(now, timerSeconds)).0;
            if IsMultiplayerMode(t.game.mode) && t.game.status.Pending? && t.game.roundCount >= 1 then
              && r.rows == t.(game := t.game.(status := Active), rounds := r.rows.rounds)
              && |r.rows.rounds| == t.game.roundCount
              && (forall i | 0 <= i < |r.rows.rounds| :: r.rows.rounds[i].number == i + 1 && (r.rows.rounds[i].status.RoundActive? <==> i == 0))
              && r.rows.rounds[0].startsAt == Some(now) && r.rows.rounds[0].endsAt == StartDeadline(timerSeconds, now)
              && (t.rounds != [] ==> FirstOpened(t.rounds, r.rows.rounds, now, timerSeconds))
            else r == w
  {
    ExecIsTransact(w, StartRoom(now, timerSeconds));
    var t := w.rows;
    var a: nat :| ShapeAt(t, a);
    if t.game.roundCount >= 0 {
      var created := if t.rounds == [] then PendingRounds(t.game.roundCount) else t.rounds;
      assert Numbered(created);
      FindRoundFinds(Activate(created, 1, now, Deadline(timerSeconds, now)), 1);
      assert created != [] ==> created[0].number == 1;
    }
  }

  /** A practice round is appended iff the key is new and every round so far is completed; it opens now, without a
      deadline, and is counted. */
  lemma PracticeGrowsIff(w: World, key: string, now: Instant)
    requires Inv(w)
    ensures var t, r := w.rows, Exec(w, NextPractice(key, now)).0;
            if key != "" && t.game.mode.Practice? && t.game.status.Active? && !HasKey(t.rounds, key) && Done(t.rounds) == |t.rounds| then
              && r.rows.rounds == t.rounds + [Round(|t.rounds| + 1, RoundActive, Some(now), None, Some(key))]
              && r.rows == t.(game := t.game.(roundCount := |t.rounds| + 1), rounds := r.rows.rounds)
            else r == w
  {
    ExecIsTransact(w, NextPractice(key, now));
    var t := w.rows;
    var a: nat :| ShapeAt(t, a);
    ShapeCountsDone(t, a);
    LatestIsGreatest(t.rounds);
    if t.rounds != [] {
      var latest := Latest(t.rounds).value;
      assert t.rounds[|t.rounds| - 1].number <= latest.number;
      assert latest == t.rounds[|t.rounds| - 1];
    }
  }

  // ---- Endings ----

  /** Rounds still open are cancelled; the others stay. */
  predicate OpenCancelled(before: seq<Round>, after: seq<Round>) {
    && |after| == |before|
    && forall i | 0 <= i < |before| ::
         after[i] == if before[i].status.RoundPending? || before[i].status.RoundActive? then before[i].(status := RoundCancelled) else before[i]
  }

  predicate Running(game: GameRow) { game.status.Pending? || game.status.Active? }

  /** A multiplayer game still running ends with the status asked for, unless its match cannot store the failure code. */
  lemma CancelsIff(w: World, to: GameStatus, code: string)
    requires Inv(w)
    ensures var t, r := w.rows, Exec(w, CancelGame(to, code)).0;
            if IsMultiplayerMode(t.game.mode) && Running(t.game) && (to.Abandoned? || to.Cancelled?) && (IsPartyLobbyMode(t.game.mode) || |code| <= 64) then
              r.rows == t.(game := t.game.(status := to), rounds := r.rows.rounds) && OpenCancelled(t.rounds, r.rows.rounds)
            else r.rows == w.rows
  {
    ExecIsTransact(w, CancelGame(to, code));
  }

  /** A practice session still running ends completed. */
  lemma PracticeEndsIff(w: World)
    requires Inv(w)
    ensures var t, r := w.rows, Exec(w, FinishPractice).0;
            if t.game.mode.Practice? && Running(t.game) then
              r.rows == t.(game := t.game.(status := Completed), rounds := r.rows.rounds) && OpenCancelled(t.rounds, r.rows.rounds)
            else r.rows == w.rows
  {
    ExecIsTransact(w, FinishPractice);
  }

  // ---- The rating marker ----

  /** The commands whose hooks reach the rating finalizer: the one that completes the game, and replays of it. */
  predicate ReachesFinalizer(w: World, c: Cmd) { Exec(w, c).1.terminal.Some? || (c.ReplayCompleted? && w.rows.game.status.Completed?) }

  /** A match is marked as rated only by a finalizer that finalizes, at that instant, once, and never if it is casual. */
  lemma MarkerIsSetIff(w: World, c: Cmd)
    requires Inv(w) && w.row.Some?
    ensures Exec(w, c).0.row.Some?
    ensures var m, r := w.row.value, Exec(w, c).0.row.value;
            && r.casual == m.casual
            && (if m.finalizedAt.None? && !m.casual && ReachesFinalizer(w, c) && ProgressionOf(c).Finalizes? then r.finalizedAt == Some(Now(c)) else r.finalizedAt == m.finalizedAt)
  {
    ExecKeepsInv(w, c);
    var m := w.row.value;
    if c.GuessMulti? { SubmitMultiplayerGuessShape(w.rows, c.number, c.player, c.rawAccuracy, c.now); }
    if c.CloseExpired? { CloseExpiredShape(w.rows, c.now); }
    if Transact(w.rows, c).Committed? {
      if c.GuessMulti? || c.CloseExpired? {
        HooksMark(w.rows, m, c, Transact(w.rows, c));
      } else if !c.CancelGame? && !c.ReplayCompleted? {
        OthersReportNothing(w.rows, c);
      }
    }
  }

  lemma OthersReportNothing(t: Rows, c: Cmd)
    requires !c.GuessMulti? && !c.CloseExpired? && Transact(t, c).Committed?
    ensures Transact(t, c).out.terminal.None?
  {
  }

  lemma HooksMark(t: Rows, m: MatchRow, c: Cmd, tx: Tx)
    requires CoupledRow(t.game, t.players, m) && tx.Committed? && ReportsTerminal(t.game, tx, Now(c)) && (c.GuessMulti? || c.CloseExpired?)
    ensures var moved := AfterHooks(m, t, c, tx);
            && moved.Moved? && moved.row.casual == m.casual
            && moved.row.finalizedAt == if m.finalizedAt.None? && !m.casual && tx.out.terminal.Some? && ProgressionOf(c).Finalizes? then Some(Now(c)) else m.finalizedAt
  {
    MultiplayerHooks(t, m, c, tx);
    ActivationKeepsProgress(m);
    var active := if tx.out.activatesMatch then ActivateTwice(m) else Moved(m);
    TerminalHooksComplete(active.row, tx.rows.players, Now(c), ProgressionOf(c));
  }
}
