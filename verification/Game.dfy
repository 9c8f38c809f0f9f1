/** One game's rows and the transactions that rewrite them.

    Every statement of backend/internal/games/repository.go is scoped to one game id,
    so the state is one row of `games` with its `rounds`, `game_players` and `guesses`.
    A round's row id is its number, which is unique within the game. A transaction is a
    function from the rows to either a commit or an abort, and an abort changes nothing.
  */
module Game {
  import opened Wrappers
  import opened Modes
  import opened Scoring

  type PlayerId = int

  datatype GameStatus = Pending | Active | Completed | Abandoned | Cancelled
  datatype RoundStatus = RoundPending | RoundActive | RoundCompleted | RoundCancelled
  datatype PlayerStatus = PlayerActive | Disconnected | Left | Kicked

  datatype Round = Round(number: int, status: RoundStatus, startsAt: Option<Instant>, endsAt: Option<Instant>, creationKey: Option<string>)

  datatype Player = Player(id: PlayerId, status: PlayerStatus, teamSlot: Option<int>, totalScore: int)

  datatype Guess = Guess(round: int, player: PlayerId, accuracy: int, bonus: int, score: int, timedOut: bool, submittedAt: Instant)

  datatype GameRow = GameRow(mode: Mode, status: GameStatus, roundCount: int, timerSeconds: Option<int>, totalScore: int)

  datatype Rows = Rows(game: GameRow, rounds: seq<Round>, players: seq<Player>, guesses: seq<Guess>)

  datatype TxError =
    | InvalidTransition | WrongGameMode | GameNotActive | RoundClosed | RowNotFound
    | CurrentRoundIncomplete | InvalidGameRequest | UniqueViolation | InvalidRequest | InvalidStatus

  datatype TeamResult = TeamOneWin | TeamTwoWin | Draw | Forfeit | ResultAbandoned | ResultCancelled

  datatype Terminal = Terminal(result: TeamResult, winner: Option<int>, teamOneScore: int, teamTwoScore: int, completedAt: Instant)

  /** What a committed transaction reports; the lifecycle hooks are driven by it. */
  datatype Outcome = Outcome(activatesMatch: bool, roundCompleted: bool, gameCompleted: bool, terminal: Option<Terminal>)

  datatype Tx = Committed(rows: Rows, out: Outcome) | Aborted(error: TxError)

  const QUIET := Outcome(false, false, false, None)

  // ---- Statements ----

  function Deadline(timerSeconds: Option<int>, now: Instant): Option<Instant> {
    if timerSeconds.None? then None else Some(now + timerSeconds.value * 1_000_000_000)
  }

  function NextRoundEndsAt(mode: Mode, timerSeconds: Option<int>, now: Instant): Option<Instant> {
    if IsCasualMode(mode) then None else Deadline(timerSeconds, now)
  }

  /** UPDATE rounds SET status = 'completed' WHERE round_number = number. */
  function Close(rounds: seq<Round>, number: int): (r: seq<Round>)
    ensures |r| == |rounds|
    ensures forall i | 0 <= i < |rounds| :: r[i] == if rounds[i].number == number then rounds[i].(status := RoundCompleted) else rounds[i]
  {
    seq(|rounds|, i requires 0 <= i < |rounds| => if rounds[i].number == number then rounds[i].(status := RoundCompleted) else rounds[i])
  }

  /** UPDATE rounds SET status = 'active', starts_at, ends_at WHERE round_number = number. */
  function Activate(rounds: seq<Round>, number: int, now: Instant, endsAt: Option<Instant>): (r: seq<Round>)
    ensures |r| == |rounds|
    ensures forall i | 0 <= i < |rounds| :: rounds[i].number != number ==> r[i] == rounds[i]
    ensures forall i | 0 <= i < |rounds| :: rounds[i].number == number ==> r[i] == rounds[i].(status := RoundActive, startsAt := Some(now), endsAt := endsAt)
  {
    seq(|rounds|, i requires 0 <= i < |rounds| =>
      if rounds[i].number == number then rounds[i].(status := RoundActive, startsAt := Some(now), endsAt := endsAt) else rounds[i])
  }

  /** UPDATE rounds SET status = 'cancelled' WHERE status IN ('pending', 'active'). */
  function CancelOpen(rounds: seq<Round>): (r: seq<Round>)
    ensures |r| == |rounds|
    ensures forall i | 0 <= i < |rounds| :: r[i] == if IsOpen(rounds[i]) then rounds[i].(status := RoundCancelled) else rounds[i]
  {
    seq(|rounds|, i requires 0 <= i < |rounds| => if IsOpen(rounds[i]) then rounds[i].(status := RoundCancelled) else rounds[i])
  }

  predicate IsOpen(round: Round) { round.status.RoundPending? || round.status.RoundActive? }

  /** UPDATE game_players SET total_score = total_score + score WHERE id = player. */
  function Credit(players: seq<Player>, player: PlayerId, score: int): (r: seq<Player>)
    ensures |r| == |players|
    ensures forall i | 0 <= i < |players| :: r[i] == players[i].(totalScore := players[i].totalScore + if players[i].id == player then score else 0)
  {
    seq(|players|, i requires 0 <= i < |players| =>
      if players[i].id == player then players[i].(totalScore := players[i].totalScore + score) else players[i])
  }

  // ---- Queries ----

  function FindRound(rounds: seq<Round>, number: int): Option<Round> {
    if rounds == [] then None
    else if rounds[0].number == number then Some(rounds[0])
    else FindRound(rounds[1..], number)
  }

  lemma {:induction false} FindRoundFinds(rounds: seq<Round>, number: int)
    ensures var r := FindRound(rounds, number);
            && (r.None? <==> forall i | 0 <= i < |rounds| :: rounds[i].number != number)
            && (r.Some? ==> r.value in rounds && r.value.number == number)
  {
    if rounds != [] { FindRoundFinds(rounds[1..], number); }
  }

  /** WHERE status = 'active', first row. */
  function FindActive(rounds: seq<Round>): Option<Round> {
    if rounds == [] then None
    else if rounds[0].status.RoundActive? then Some(rounds[0])
    else FindActive(rounds[1..])
  }

  lemma {:induction false} FindActiveFinds(rounds: seq<Round>)
    ensures var r := FindActive(rounds);
            && (r.None? <==> forall i | 0 <= i < |rounds| :: !rounds[i].status.RoundActive?)
            && (r.Some? ==> r.value in rounds && r.value.status.RoundActive?)
  {
    if rounds != [] { FindActiveFinds(rounds[1..]); }
  }

  /** WHERE status = 'pending' ORDER BY round_number ASC, first row's number. */
  function NextPending(rounds: seq<Round>): Option<int> {
    if rounds == [] then None
    else
      var rest := NextPending(rounds[1..]);
      if !rounds[0].status.RoundPending? then rest
      else if rest.Some? && rest.value < rounds[0].number then rest
      else Some(rounds[0].number)
  }

  lemma {:induction false} NextPendingIsLeast(rounds: seq<Round>)
    ensures var r := NextPending(rounds);
            && (r.None? <==> forall i | 0 <= i < |rounds| :: !rounds[i].status.RoundPending?)
            && (r.Some? ==> exists i :: 0 <= i < |rounds| && rounds[i].status.RoundPending? && rounds[i].number == r.value)
            && (r.Some? ==> forall i | 0 <= i < |rounds| && rounds[i].status.RoundPending? :: r.value <= rounds[i].number)
  {
    if rounds != [] {
      var rest := rounds[1..];
      NextPendingIsLeast(rest);
      if NextPending(rest).Some? {
        var i :| 0 <= i < |rest| && rest[i].status.RoundPending? && rest[i].number == NextPending(rest).value;
        assert rounds[i + 1] == rest[i];
      }
      forall i | 0 < i < |rounds| ensures rounds[i] == rest[i - 1] { }
    }
  }

  /** ORDER BY round_number DESC, first row. */
  function Latest(rounds: seq<Round>): Option<Round> {
    if rounds == [] then None
    else
      var rest := Latest(rounds[1..]);
      if rest.Some? && rest.value.number > rounds[0].number then rest else Some(rounds[0])
  }

  lemma {:induction false} LatestIsGreatest(rounds: seq<Round>)
    ensures var r := Latest(rounds);
            && (r.None? <==> rounds == [])
            && (r.Some? ==> r.value in rounds && forall i | 0 <= i < |rounds| :: rounds[i].number <= r.value.number)
  {
    if rounds != [] {
      LatestIsGreatest(rounds[1..]);
      forall i | 0 < i < |rounds| ensures rounds[i] == rounds[1..][i - 1] { }
    }
  }

  predicate HasGuess(guesses: seq<Guess>, round: int, player: PlayerId) {
    exists i :: 0 <= i < |guesses| && guesses[i].round == round && guesses[i].player == player
  }

  function CountGuesses(guesses: seq<Guess>, round: int): nat {
    if guesses == [] then 0
    else CountGuesses(guesses[..|guesses| - 1], round) + if guesses[|guesses| - 1].round == round then 1 else 0
  }

  function CountActive(players: seq<Player>): nat {
    if players == [] then 0
    else CountActive(players[..|players| - 1]) + if players[|players| - 1].status.PlayerActive? then 1 else 0
  }

  predicate IsMember(players: seq<Player>, player: PlayerId) {
    exists i :: 0 <= i < |players| && players[i].id == player
  }

  predicate HasKey(rounds: seq<Round>, key: string) {
    exists i :: 0 <= i < |rounds| && rounds[i].creationKey == Some(key)
  }

  // ---- Team totals ----

  function TeamTotal(players: seq<Player>, slot: int): int {
    if players == [] then 0
    else TeamTotal(players[..|players| - 1], slot) + if players[|players| - 1].teamSlot == Some(slot) then players[|players| - 1].totalScore else 0
  }

  function DecideTeamResult(one: int, two: int): (r: (TeamResult, Option<int>))
    ensures r.0.TeamOneWin? <==> one > two
    ensures r.0.TeamTwoWin? <==> two > one
    ensures r.0.Draw? <==> one == two
    ensures r.1 == if one > two then Some(1) else if two > one then Some(2) else None
  {
    if one > two then (TeamOneWin, Some(1)) else if two > one then (TeamTwoWin, Some(2)) else (Draw, None)
  }

  function BuildTerminal(players: seq<Player>, now: Instant): Terminal {
    var one, two := TeamTotal(players, 1), TeamTotal(players, 2);
    var (result, winner) := DecideTeamResult(one, two);
    Terminal(result, winner, one, two, now)
  }

  // ---- Transactions ----

  function StartGame(t: Rows, now: Instant, timerSeconds: Option<int>): Tx {
    if !t.game.status.Pending? then Aborted(InvalidTransition)
    else Committed(t.(game := t.game.(status := Active), rounds := Activate(t.rounds, 1, now, Deadline(timerSeconds, now))), QUIET)
  }

  function PendingRounds(count: nat): (r: seq<Round>)
    ensures |r| == count && forall i | 0 <= i < count :: r[i] == Round(i + 1, RoundPending, None, None, None)
  {
    seq(count, i => Round(i + 1, RoundPending, None, None, None))
  }

  /** `count` is the number of locations the service selected: the game's round_count. */
  function StartPrivateRoomGame(t: Rows, count: nat, now: Instant, timerSeconds: Option<int>): Tx {
    if !IsMultiplayerMode(t.game.mode) || !t.game.status.Pending? then Aborted(InvalidTransition)
    else
      var rounds := Activate(if t.rounds == [] then PendingRounds(count) else t.rounds, 1, now, Deadline(timerSeconds, now));
      if FindRound(rounds, 1).None? then Aborted(RowNotFound)
      else Committed(t.(game := t.game.(status := Active), rounds := rounds), QUIET.(activatesMatch := true))
  }

  function AppendPracticeRound(t: Rows, key: string, now: Instant): Tx {
    if key == "" then Aborted(InvalidGameRequest)
    else if !t.game.mode.Practice? then Aborted(WrongGameMode)
    else if !t.game.status.Active? then Aborted(GameNotActive)
    else if HasKey(t.rounds, key) then Committed(t, QUIET)
    else match Latest(t.rounds)
      case None => Aborted(RowNotFound)
      case Some(latest) =>
        if !latest.status.RoundCompleted? then Aborted(CurrentRoundIncomplete)
        else
          var next := Round(latest.number + 1, RoundActive, Some(now), None, Some(key));
          Committed(t.(game := t.game.(roundCount := next.number), rounds := t.rounds + [next]), QUIET)
  }

  function EndPractice(t: Rows): Tx {
    if !t.game.mode.Practice? then Aborted(WrongGameMode)
    else if t.game.status.Completed? then Committed(t, QUIET)
    else if !t.game.status.Active? && !t.game.status.Pending? then Aborted(GameNotActive)
    else Committed(t.(game := t.game.(status := Completed), rounds := CancelOpen(t.rounds)), QUIET)
  }

  /** Closes round `number` and opens the least-numbered pending one, if there is one. */
  function Advanced(rounds: seq<Round>, number: int, now: Instant, endsAt: Option<Instant>): seq<Round> {
    var closed := Close(rounds, number);
    match NextPending(closed)
    case Some(next) => Activate(closed, next, now, endsAt)
    case None => closed
  }

  /** Advances the rounds, and completes the game when no round was left to open. */
  function CloseAndAdvance(t: Rows, number: int, now: Instant, endsAt: Option<Instant>, completes: bool): Tx {
    var last := completes && NextPending(Close(t.rounds, number)).None?;
    Committed(t.(game := t.game.(status := if last then Completed else t.game.status), rounds := Advanced(t.rounds, number, now, endsAt)),
              QUIET.(roundCompleted := true, gameCompleted := last))
  }

  /** Never reads the game's status: only the round row is checked. */
  function SubmitGuess(t: Rows, number: int, player: PlayerId, rawAccuracy: int, now: Instant): Tx {
    match FindRound(t.rounds, number)
    case None => Aborted(RowNotFound)
    case Some(round) =>
      if !round.status.RoundActive? || (round.endsAt.Some? && now > round.endsAt.value) then Aborted(RoundClosed)
      else if HasGuess(t.guesses, number, player) then Aborted(UniqueViolation)
      else
        var (accuracy, bonus, total) := ComposeGuessScores(Solo, rawAccuracy, 0, 0);
        var scored := t.(game := t.game.(totalScore := t.game.totalScore + total),
                         players := Credit(t.players, player, total),
                         guesses := t.guesses + [Guess(number, player, accuracy, bonus, total, false, now)]);
        CloseAndAdvance(scored, number, now, Deadline(t.game.timerSeconds, now), !t.game.mode.Practice?)
  }

  /** Never reads the game's row before expiring the round. */
  function ExpireSoloRound(t: Rows, number: int, player: PlayerId, now: Instant): Tx {
    match FindRound(t.rounds, number)
    case None => Aborted(RowNotFound)
    case Some(round) =>
      if !round.status.RoundActive? || round.endsAt.None? || now < round.endsAt.value then Aborted(RoundClosed)
      else if HasGuess(t.guesses, number, player) then Aborted(UniqueViolation)
      else
        var timedOut := t.(guesses := t.guesses + [ZeroGuess(number, player, now)]);
        CloseAndAdvance(timedOut, number, now, Deadline(t.game.timerSeconds, now), true)
  }

  function ZeroGuess(number: int, player: PlayerId, now: Instant): Guess {
    Guess(number, player, 0, 0, 0, true, now)
  }

  /** The zero rows for active players, in player order, that have no guess among `guesses` for the round. */
  function MissingZeros(players: seq<Player>, guesses: seq<Guess>, number: int, now: Instant): seq<Guess> {
    if players == [] then []
    else
      var last := players[|players| - 1];
      MissingZeros(players[..|players| - 1], guesses, number, now)
      + if last.status.PlayerActive? && !HasGuess(guesses, number, last.id) then [ZeroGuess(number, last.id, now)] else []
  }

  function ZeroFilled(t: Rows, number: int, now: Instant): Rows {
    t.(guesses := t.guesses + MissingZeros(t.players, t.guesses, number, now))
  }

  function CompleteMultiplayerRound(t: Rows, number: int, now: Instant): Tx {
    var tx := CloseAndAdvance(ZeroFilled(t, number, now), number, now, NextRoundEndsAt(t.game.mode, t.game.timerSeconds, now), true);
    if tx.Committed? && tx.out.gameCompleted
    then tx.(out := tx.out.(terminal := Some(BuildTerminal(t.players, now))))
    else tx
  }

  predicate CanGuessBeforeStart(mode: Mode, startsAt: Option<Instant>, now: Instant) {
    startsAt.None? || !IsRankedMode(mode) || now >= startsAt.value
  }

  function SubmitMultiplayerGuess(t: Rows, number: int, player: PlayerId, rawAccuracy: int, now: Instant): Tx {
    if !IsMultiplayerMode(t.game.mode) || !t.game.status.Active? then Aborted(GameNotActive)
    else match FindRound(t.rounds, number)
      case None => Aborted(RowNotFound)
      case Some(round) =>
        if !round.status.RoundActive? || !CanGuessBeforeStart(t.game.mode, round.startsAt, now)
           || (round.endsAt.Some? && now > round.endsAt.value) then Aborted(RoundClosed)
        else if HasGuess(t.guesses, number, player) then Aborted(UniqueViolation)
        else
          CloseIfAllSubmitted(Scored(t, round, player, rawAccuracy, now), number, now)
  }

  /** The tail of a multiplayer guess: the round closes once as many guesses are in as players are active. */
  function CloseIfAllSubmitted(t: Rows, number: int, now: Instant): Tx {
    var activates := IsRankedMode(t.game.mode);
    if 0 < CountActive(t.players) <= CountGuesses(t.guesses, number) then
      var tx := CompleteMultiplayerRound(t, number, now);
      if tx.Committed? then tx.(out := tx.out.(activatesMatch := activates)) else tx
    else Committed(t, QUIET.(activatesMatch := activates))
  }

  function Scored(t: Rows, round: Round, player: PlayerId, rawAccuracy: int, now: Instant): Rows {
    var (accuracy, bonus, total) := ScoreWithSpeedBonus(t.game.mode, rawAccuracy, round.startsAt, round.endsAt, now);
    t.(players := Credit(t.players, player, total),
       guesses := t.guesses + [Guess(round.number, player, accuracy, bonus, total, false, now)])
  }

  function CloseExpiredMultiplayerRound(t: Rows, now: Instant): Tx {
    if !IsMultiplayerMode(t.game.mode) || !t.game.status.Active? then Aborted(GameNotActive)
    else if IsCasualMode(t.game.mode) then Aborted(RoundClosed)
    else match FindActive(t.rounds)
      case None => Aborted(RowNotFound)
      case Some(round) =>
        if round.endsAt.None? || now < round.endsAt.value then Aborted(RoundClosed)
        else
          CompleteMultiplayerRound(ZeroFilled(t, round.number, now), round.number, now)
  }

  function CancelMultiplayerGame(t: Rows, to: GameStatus): Tx {
    if !to.Abandoned? && !to.Cancelled? then Aborted(InvalidStatus)
    else if !IsMultiplayerMode(t.game.mode) then Aborted(GameNotActive)
    else if !t.game.status.Active? && !t.game.status.Pending? then Committed(t, QUIET)
    else Committed(t.(game := t.game.(status := to), rounds := CancelOpen(t.rounds)), QUIET)
  }
}
