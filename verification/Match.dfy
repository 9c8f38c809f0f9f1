/** The durable match row, the lifecycle hooks that move it inside the game's transaction, and the
    coupling of match and game over every run. */
module MatchLifecycle {
  import opened Wrappers
  import opened Modes
  import opened Scoring
  import opened Game

  datatype MatchStatus = Matched | MatchActive | MatchCompleted | MatchCancelled | FailedToStart
  datatype ParticipantStatus = Assigned | Participating | ParticipantCompleted | ParticipantCancelled | ParticipantFailed

  datatype MatchRow = MatchRow(
    status: MatchStatus, casual: bool, teamOneScore: int, teamTwoScore: int, result: Option<TeamResult>, winner: Option<int>,
    failureCode: Option<string>, finalizedAt: Option<Instant>, participants: seq<ParticipantStatus>)

  /** How the optional rating finalizer behaves when a hook reaches it. */
  datatype Progression = NotConfigured | Finalizes | Defers

  datatype HookResult = Moved(row: MatchRow) | Refused(error: TxError)

  predicate IsTerminalMatch(s: MatchStatus) { s.MatchCompleted? || s.MatchCancelled? || s.FailedToStart? }

  predicate ValidMatchTransition(from: MatchStatus, to: MatchStatus) {
    match from
    case Matched => to.MatchActive? || to.MatchCancelled? || to.FailedToStart?
    case MatchActive => to.MatchCompleted? || to.MatchCancelled? || to.FailedToStart?
    case _ => false
  }

  function ParticipantStatusFor(s: MatchStatus): ParticipantStatus {
    match s
    case MatchActive => Participating
    case MatchCompleted => ParticipantCompleted
    case MatchCancelled => ParticipantCancelled
    case FailedToStart => ParticipantFailed
    case Matched => Assigned
  }

  predicate IsActiveParticipant(p: ParticipantStatus) { p.Assigned? || p.Participating? }

  /** UPDATE match_players SET status = to WHERE status IN ('assigned', 'active'). */
  function Mirror(ps: seq<ParticipantStatus>, to: ParticipantStatus): (r: seq<ParticipantStatus>)
    ensures |r| == |ps| && forall i | 0 <= i < |ps| :: r[i] == if IsActiveParticipant(ps[i]) then to else ps[i]
  {
    seq(|ps|, i requires 0 <= i < |ps| => if IsActiveParticipant(ps[i]) then to else ps[i])
  }

  function TransitionMatch(m: MatchRow, from: MatchStatus, to: MatchStatus, failureCode: string): HookResult {
    if m.status != from then if m.status == to then Moved(m) else Refused(InvalidRequest)
    else if !ValidMatchTransition(from, to) then Refused(InvalidRequest)
    else Moved(m.(status := to, failureCode := if to.FailedToStart? then Some(failureCode) else m.failureCode,
                  participants := Mirror(m.participants, ParticipantStatusFor(to))))
  }

  function ApplyMatchActive(m: MatchRow): HookResult {
    if m.status.MatchActive? || IsTerminalMatch(m.status) then Moved(m) else TransitionMatch(m, Matched, MatchActive, "")
  }

  /** Both hook slots activate the match in turn. */
  function ActivateTwice(m: MatchRow): HookResult {
    var once := ApplyMatchActive(m);
    if once.Refused? then once else ApplyMatchActive(once.row)
  }

  function TryFinalizeProgression(m: MatchRow, at: Instant, progression: Progression): MatchRow {
    if m.finalizedAt.Some? || m.casual || m.result.None? || !progression.Finalizes? then m else m.(finalizedAt := Some(at))
  }

  /** Promotes a matched row to active; every other row passes through. */
  function Promoted(m: MatchRow): MatchRow {
    if m.status.Matched? then m.(status := MatchActive, participants := Mirror(m.participants, Participating)) else m
  }

  function WithResult(m: MatchRow, result: TeamResult, winner: Option<int>, one: int, two: int): MatchRow {
    m.(teamOneScore := one, teamTwoScore := two, result := Some(result), winner := winner, status := MatchCompleted,
       participants := Mirror(m.participants, ParticipantCompleted))
  }

  /** Overwrites the match's status unless it is terminal and already finalized. */
  function ApplyTerminalResult(m: MatchRow, terminal: Terminal, progression: Progression): MatchRow {
    var p := Promoted(m);
    if IsTerminalMatch(p.status) && p.finalizedAt.Some? then p
    else TryFinalizeProgression(WithResult(p, terminal.result, terminal.winner, terminal.teamOneScore, terminal.teamTwoScore), terminal.completedAt, progression)
  }

  function ApplyGameCompleted(m: MatchRow, players: seq<Player>, at: Instant, progression: Progression): MatchRow {
    var p := Promoted(m);
    if p.status.MatchCompleted? then TryFinalizeProgression(p, at, progression)
    else if !p.status.MatchActive? then p
    else if p.result.None? then
      var terminal := BuildTerminal(players, at);
      TryFinalizeProgression(WithResult(p, terminal.result, terminal.winner, terminal.teamOneScore, terminal.teamTwoScore), at, progression)
    else TryFinalizeProgression(p.(status := MatchCompleted, participants := Mirror(p.participants, ParticipantCompleted)), at, progression)
  }

  function ApplyGameCancelled(m: MatchRow, failureCode: string): HookResult {
    if |failureCode| > 64 then Refused(InvalidRequest)
    else if IsTerminalMatch(m.status) then Moved(m)
    else TransitionMatch(m, m.status, if failureCode != "" then FailedToStart else MatchCancelled, failureCode)
  }

  // ---- One game with its match ----

  datatype World = World(rows: Rows, row: Option<MatchRow>)

  datatype Cmd =
    | StartSolo(now: Instant, timerSeconds: Option<int>)
    | StartRoom(now: Instant, timerSeconds: Option<int>)
    | NextPractice(key: string, now: Instant)
    | FinishPractice
    | GuessSolo(number: int, player: PlayerId, rawAccuracy: int, now: Instant)
    | ExpireDaily(number: int, player: PlayerId, now: Instant)
    | GuessMulti(number: int, player: PlayerId, rawAccuracy: int, now: Instant, progression: Progression)
    | CloseExpired(now: Instant, progression: Progression)
    | CancelGame(to: GameStatus, failureCode: string)
    | ReplayCompleted(now: Instant, progression: Progression)
    | SetPlayerStatus(player: PlayerId, status: PlayerStatus)
    | JoinRoom(player: PlayerId)

  /** The transaction a command runs, behind the mode and membership checks the service makes first. */
  function Transact(t: Rows, c: Cmd): Tx {
    match c
    case StartSolo(now, timer) => StartGame(t, now, timer)
    case StartRoom(now, timer) =>
      if t.game.roundCount < 0 then Aborted(InvalidRequest) else StartPrivateRoomGame(t, t.game.roundCount, now, timer)
    case NextPractice(key, now) => AppendPracticeRound(t, key, now)
    case FinishPractice => EndPractice(t)
    case GuessSolo(number, player, raw, now) =>
      if IsMultiplayerMode(t.game.mode) || !IsMember(t.players, player) then Aborted(InvalidRequest) else SubmitGuess(t, number, player, raw, now)
    case ExpireDaily(number, player, now) =>
      if !t.game.mode.Daily? || !IsMember(t.players, player) then Aborted(InvalidRequest) else ExpireSoloRound(t, number, player, now)
    case GuessMulti(number, player, raw, now, _) =>
      if !IsMember(t.players, player) then Aborted(InvalidRequest) else SubmitMultiplayerGuess(t, number, player, raw, now)
    case CloseExpired(now, _) => CloseExpiredMultiplayerRound(t, now)
    case CancelGame(to, code) =>
      if !IsPartyLobbyMode(t.game.mode) && |code| > 64 then Aborted(InvalidRequest) else CancelMultiplayerGame(t, to)
    case ReplayCompleted(_, _) => if t.game.status.Completed? then Committed(t, QUIET) else Aborted(InvalidRequest)
    case SetPlayerStatus(player, status) => Committed(t.(players := WithStatus(t.players, player, status)), QUIET)
    case JoinRoom(player) =>
      if !IsPartyLobbyMode(t.game.mode) || IsMember(t.players, player) then Aborted(InvalidRequest)
      else Committed(t.(players := t.players + [Player(player, PlayerActive, None, 0)]), QUIET)
  }

  function WithStatus(players: seq<Player>, player: PlayerId, status: PlayerStatus): (r: seq<Player>)
    ensures |r| == |players| && forall i | 0 <= i < |players| :: r[i] == if players[i].id == player then players[i].(status := status) else players[i]
  {
    seq(|players|, i requires 0 <= i < |players| => if players[i].id == player then players[i].(status := status) else players[i])
  }

  function Now(c: Cmd): Instant {
    match c
    case GuessMulti(_, _, _, now, _) => now
    case CloseExpired(now, _) => now
    case ReplayCompleted(now, _) => now
    case _ => 0
  }

  function ProgressionOf(c: Cmd): Progression {
    match c
    case GuessMulti(_, _, _, _, p) => p
    case CloseExpired(_, p) => p
    case ReplayCompleted(_, p) => p
    case _ => NotConfigured
  }

  /** The hooks of one committed transaction. Both hook slots hold the same adapter, so each callback runs twice. */
  function AfterHooks(m: MatchRow, before: Rows, c: Cmd, tx: Tx): HookResult
    requires tx.Committed?
  {
    var at, progression := Now(c), ProgressionOf(c);
    match c
    case CancelGame(_, code) =>
      if before.game.status.Active? || before.game.status.Pending? then
        var once := ApplyGameCancelled(m, code);
        if once.Refused? then once else ApplyGameCancelled(once.row, code)
      else Moved(m)
    case ReplayCompleted(_, _) => Moved(ApplyGameCompleted(m, tx.rows.players, at, progression))
    case _ =>
      var active := if tx.out.activatesMatch then ActivateTwice(m) else Moved(m);
      if active.Refused? then active
      else if tx.out.terminal.None? then active
      else
        var written := ApplyTerminalResult(active.row, tx.out.terminal.value, progression);
        var once := ApplyGameCompleted(written, tx.rows.players, at, progression);
        Moved(ApplyGameCompleted(once, tx.rows.players, at, progression))
  }

  /** One command: the transaction and its hooks commit together or not at all. */
  function Exec(w: World, c: Cmd): (World, Outcome) {
    var tx := Transact(w.rows, c);
    if tx.Aborted? then (w, QUIET)
    else if w.row.None? then (World(tx.rows, None), tx.out)
    else
      var moved := AfterHooks(w.row.value, w.rows, c, tx);
      if moved.Refused? then (w, QUIET) else (World(tx.rows, Some(moved.row)), tx.out)
  }

  function Run(w: World, cs: seq<Cmd>): World {
    if cs == [] then w else Exec(Run(w, cs[..|cs| - 1]), cs[|cs| - 1]).0
  }

  /** Rounds closed along a run. */
  function RoundsClosed(w: World, cs: seq<Cmd>): nat {
    if cs == [] then 0
    else RoundsClosed(w, cs[..|cs| - 1]) + if Exec(Run(w, cs[..|cs| - 1]), cs[|cs| - 1]).1.roundCompleted then 1 else 0
  }

  /** Terminal hooks fired along a run. */
  function TerminalFirings(w: World, cs: seq<Cmd>): nat {
    if cs == [] then 0
    else TerminalFirings(w, cs[..|cs| - 1]) + if Exec(Run(w, cs[..|cs| - 1]), cs[|cs| - 1]).1.terminal.Some? then 1 else 0
  }
}
