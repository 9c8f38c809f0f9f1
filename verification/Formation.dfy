/** Forming a matchmade game with its match, atomically, from two equal rosters. */
module Formation {
  import opened Wrappers
  import opened Modes
  import opened Scoring
  import opened Game
  import opened GameInvariants
  import opened ScoreLedger
  import opened MatchLifecycle
  import opened MatchCoupling

  type UserId = int
  type LocationId = int

  /** `eligible` are the active accounts without another match or live game. A player's row id stands for the user. */
  datatype Input = Input(
    mode: Mode, teamOne: seq<UserId>, teamTwo: seq<UserId>, roundCount: int, locations: seq<LocationId>,
    timerSeconds: Option<int>, matchedAt: Instant, startDelay: int, seasonAvailable: bool, eligible: set<UserId>)

  datatype Error = ContentUnavailable | InvalidMode | BadRequest | AccountIneligible

  datatype FormResult = Formed(world: World) | Rejected(error: Error)

  function TeamSizeOf(mode: Mode): Option<nat> {
    match mode
    case RankedSolo => Some(1)
    case CasualSolo => Some(1)
    case RankedDuo => Some(2)
    case CasualDuo => Some(2)
    case RankedSquad => Some(4)
    case CasualSquad => Some(4)
    case _ => None
  }

  /** Every ranked format plays in the one legacy game mode. */
  function FormationGameMode(mode: Mode): Mode { if IsCasualMode(mode) then mode else Ranked }

  predicate DistinctLocations(l: seq<LocationId>) { forall i, j | 0 <= i < j < |l| :: l[i] != l[j] }

  predicate DistinctUsers(l: seq<UserId>) { (forall i | 0 <= i < |l| :: l[i] != 0) && forall i, j | 0 <= i < j < |l| :: l[i] != l[j] }

  /** Checked before the transaction. */
  function RequestError(input: Input): Option<Error> {
    if input.roundCount < 1 || |input.locations| < input.roundCount then Some(ContentUnavailable)
    else if exists i :: 0 <= i < input.roundCount && input.locations[i] == 0 then Some(ContentUnavailable)
    else if !DistinctLocations(input.locations[..input.roundCount]) || |input.teamOne| == 0 || |input.teamOne| != |input.teamTwo| then Some(BadRequest)
    else if TeamSizeOf(input.mode).None? then Some(InvalidMode)
    else if |input.teamOne| != TeamSizeOf(input.mode).value || !DistinctUsers(input.teamOne + input.teamTwo) then Some(BadRequest)
    else None
  }

  /** Checked under the user locks. */
  function AccountError(input: Input): Option<Error> {
    if exists i :: 0 <= i < |input.teamOne + input.teamTwo| && (input.teamOne + input.teamTwo)[i] !in input.eligible then Some(AccountIneligible)
    else if IsRankedMode(input.mode) && !input.seasonAvailable then Some(ContentUnavailable)
    else None
  }

  function NewPlayer(user: UserId, slot: int): Player { Player(user, PlayerActive, Some(slot), 0) }

  function Roster(users: seq<UserId>, slot: int): (r: seq<Player>)
    ensures |r| == |users| && forall i | 0 <= i < |r| :: r[i] == NewPlayer(users[i], slot)
  {
    seq(|users|, i requires 0 <= i < |users| => NewPlayer(users[i], slot))
  }

  function FirstRound(input: Input): Round {
    var startsAt := input.matchedAt + input.startDelay;
    Round(1, RoundActive, Some(startsAt), if IsCasualMode(input.mode) then None else Deadline(input.timerSeconds, startsAt), None)
  }

  function NewRounds(input: Input, n: nat): (r: seq<Round>)
    ensures |r| == n && forall i | 0 <= i < n :: r[i] == if i == 0 then FirstRound(input) else Round(i + 1, RoundPending, None, None, None)
  {
    seq(n, i => if i == 0 then FirstRound(input) else Round(i + 1, RoundPending, None, None, None))
  }

  function NewWorld(input: Input): World
    requires input.roundCount >= 1
  {
    var timer := if IsCasualMode(input.mode) then None else input.timerSeconds;
    var players := Roster(input.teamOne, 1) + Roster(input.teamTwo, 2);
    World(Rows(GameRow(FormationGameMode(input.mode), Active, input.roundCount, timer, 0), NewRounds(input, input.roundCount), players, []),
          Some(MatchRow(MatchActive, IsCasualMode(input.mode), 0, 0, None, None, None, None, seq(|players|, i => Participating))))
  }

  /** A formation key that is already taken returns the stored match. */
  function Form(existing: Option<World>, input: Input): FormResult {
    if RequestError(input).Some? then Rejected(RequestError(input).value)
    else if existing.Some? then Formed(existing.value)
    else if AccountError(input).Some? then Rejected(AccountError(input).value)
    else Formed(NewWorld(input))
  }

  // ---- What formation establishes ----

  lemma RosterSumsZero(players: seq<Player>, guesses: seq<Guess>)
    requires guesses == [] && forall i | 0 <= i < |players| :: players[i].totalScore == 0
    ensures TotalsAgree(players, guesses)
  {
  }

  lemma FormedRounds(input: Input)
    requires input.roundCount >= 1
    ensures ShapeOf(NewWorld(input).rows.game, NewWorld(input).rows.rounds, 0)
  {
  }

  lemma FormedPlayers(input: Input)
    requires DistinctUsers(input.teamOne + input.teamTwo) && input.roundCount >= 1
    ensures DistinctPlayers(NewWorld(input).rows.players) && TotalsAgree(NewWorld(input).rows.players, [])
  {
    var users, players := input.teamOne + input.teamTwo, NewWorld(input).rows.players;
    forall i | 0 <= i < |players| ensures players[i].id == users[i] && players[i].totalScore == 0 { }
    RosterSumsZero(players, []);
  }

  /** A newly formed game and match satisfy the invariant of every later step. */
  lemma FormedWorldIsCoupled(input: Input)
    requires RequestError(input).None?
    ensures Inv(NewWorld(input)) && NewWorld(input).row.Some?
  {
    FormedRounds(input);
    FormedPlayers(input);
    assert ShapeAt(NewWorld(input).rows, 0);
  }

  /** From formation on, over every run of commands, match and game end together: completed iff completed, called off
      iff abandoned or cancelled, and a completed match carries the result of the sums over its rounds. */
  lemma FormedMatchesStayCoupled(input: Input, cs: seq<Cmd>)
    requires RequestError(input).None?
    ensures var r := Run(NewWorld(input), cs);
            && r.row.Some?
            && (r.row.value.status.MatchCompleted? <==> r.rows.game.status.Completed?)
            && (r.row.value.status.MatchCancelled? || r.row.value.status.FailedToStart? <==> r.rows.game.status.Abandoned? || r.rows.game.status.Cancelled?)
            && (r.row.value.status.MatchCompleted? ==>
                  && r.row.value.teamOneScore == SumOverRounds(r.rows.players, r.rows.guesses, 1, |r.rows.rounds|)
                  && r.row.value.teamTwoScore == SumOverRounds(r.rows.players, r.rows.guesses, 2, |r.rows.rounds|)
                  && r.row.value.result == Some(DecideTeamResult(r.row.value.teamOneScore, r.row.value.teamTwoScore).0))
            && Done(r.rows.rounds) == RoundsClosed(NewWorld(input), cs) <= |r.rows.rounds|
            && TerminalFirings(NewWorld(input), cs) == (if r.rows.game.status.Completed? then 1 else 0)
  {
    FormedWorldIsCoupled(input);
    FormedRounds(input);
    ShapeCountsDone(NewWorld(input).rows, 0);
    FormedMode(input);
    MatchAndGameStayCoupled(NewWorld(input), cs);
    ClosesAndFiringsAreExact(NewWorld(input), cs);
  }

  lemma FormedMode(input: Input)
    requires RequestError(input).None?
    ensures IsMultiplayerMode(NewWorld(input).rows.game.mode) && !NewWorld(input).rows.game.status.Completed?
  {
  }

  /** The team size a format asks for; zero for a mode that is not a match format. */
  function PlayersPerTeam(mode: Mode): nat {
    if mode.RankedSolo? || mode.CasualSolo? then 1
    else if mode.RankedDuo? || mode.CasualDuo? then 2
    else if mode.RankedSquad? || mode.CasualSquad? then 4
    else 0
  }

  /** A new formation succeeds exactly when the format exists, both rosters have its size and name distinct eligible users,
      there is a distinct location for every round, and a ranked match has a season. */
  lemma FormsIff(input: Input)
    ensures Form(None, input).Formed? <==>
              && PlayersPerTeam(input.mode) > 0 && |input.teamOne| == |input.teamTwo| == PlayersPerTeam(input.mode)
              && (forall i | 0 <= i < |input.teamOne + input.teamTwo| ::
                    (input.teamOne + input.teamTwo)[i] != 0 && (input.teamOne + input.teamTwo)[i] in input.eligible)
              && (forall i, j | 0 <= i < j < |input.teamOne + input.teamTwo| :: (input.teamOne + input.teamTwo)[i] != (input.teamOne + input.teamTwo)[j])
              && 1 <= input.roundCount <= |input.locations|
              && (forall i | 0 <= i < input.roundCount :: input.locations[i] != 0)
              && (forall i, j | 0 <= i < j < input.roundCount :: input.locations[i] != input.locations[j])
              && (IsRankedMode(input.mode) ==> input.seasonAvailable)
    ensures Form(None, input).Formed? ==> Form(None, input).world == NewWorld(input)
    ensures forall stored: World :: Form(Some(stored), input).Formed? ==> Form(Some(stored), input).world == stored
  {
    if 1 <= input.roundCount <= |input.locations| {
      var first := input.locations[..input.roundCount];
      assert DistinctLocations(first) <==> forall i, j | 0 <= i < j < input.roundCount :: input.locations[i] != input.locations[j];
    }
  }

  // ---- Who plays for whom ----

  function UsersOf(users: seq<UserId>): set<UserId> { set u | u in users }

  /** The players in one team slot. */
  function InSlot(players: seq<Player>, slot: int): set<PlayerId> { set p | p in players && p.teamSlot == Some(slot) :: p.id }

  /** One player per listed user, the first list in slot 1 and the second in slot 2, and nobody else. */
  predicate TeamsAreAsListed(players: seq<Player>, teamOne: seq<UserId>, teamTwo: seq<UserId>) {
    && DistinctPlayers(players) && |players| == |teamOne| + |teamTwo|
    && InSlot(players, 1) == UsersOf(teamOne) && InSlot(players, 2) == UsersOf(teamTwo)
    && (forall i | 0 <= i < |players| :: players[i].teamSlot == Some(1) || players[i].teamSlot == Some(2))
  }

  lemma OneMoreUser(users: seq<UserId>, u: UserId)
    ensures UsersOf(users + [u]) == UsersOf(users) + {u}
  {
  }

  lemma {:induction false} DistinctUsersCount(users: seq<UserId>)
    requires forall i, j | 0 <= i < j < |users| :: users[i] != users[j]
    ensures |UsersOf(users)| == |users|
  {
    if users != [] {
      var init, last := users[..|users| - 1], users[|users| - 1];
      DistinctUsersCount(init);
      assert users == init + [last];
      OneMoreUser(init, last);
      assert last !in UsersOf(init);
    }
  }

  /** Rows of one team behind another's. */
  lemma ListedInSlots(players: seq<Player>, teamOne: seq<UserId>, teamTwo: seq<UserId>)
    requires |players| == |teamOne| + |teamTwo|
    requires forall i | 0 <= i < |teamOne| :: players[i].id == teamOne[i] && players[i].teamSlot == Some(1)
    requires forall i | 0 <= i < |teamTwo| :: players[|teamOne| + i].id == teamTwo[i] && players[|teamOne| + i].teamSlot == Some(2)
    ensures InSlot(players, 1) == UsersOf(teamOne) && InSlot(players, 2) == UsersOf(teamTwo)
    ensures forall i | 0 <= i < |players| :: players[i].teamSlot == Some(1) || players[i].teamSlot == Some(2)
  {
    forall u | u in UsersOf(teamOne) ensures u in InSlot(players, 1) {
      var i :| 0 <= i < |teamOne| && teamOne[i] == u;
      assert players[i] in players;
    }
    forall u | u in UsersOf(teamTwo) ensures u in InSlot(players, 2) {
      var i :| 0 <= i < |teamTwo| && teamTwo[i] == u;
      assert players[|teamOne| + i] in players;
    }
    forall i | |teamOne| <= i < |players| ensures players[i].id == teamTwo[i - |teamOne|] && players[i].teamSlot == Some(2) {
      assert players[|teamOne| + (i - |teamOne|)] == players[i];
    }
  }

  lemma NewTeams(input: Input)
    requires DistinctUsers(input.teamOne + input.teamTwo) && input.roundCount >= 1
    ensures TeamsAreAsListed(NewWorld(input).rows.players, input.teamOne, input.teamTwo)
  {
    FormedPlayers(input);
    ListedInSlots(NewWorld(input).rows.players, input.teamOne, input.teamTwo);
  }

  /** The same people in the same teams. */
  predicate SameTeams(before: seq<Player>, after: seq<Player>) {
    |after| == |before| && forall i | 0 <= i < |before| :: after[i].id == before[i].id && after[i].teamSlot == before[i].teamSlot
  }

  lemma TransactKeepsTeams(t: Rows, c: Cmd)
    requires !IsPartyLobbyMode(t.game.mode) && Transact(t, c).Committed?
    ensures SameTeams(t.players, Transact(t, c).rows.players)
  {
  }

  /** No command moves a player of a matchmade game to another team, or in or out of it. */
  lemma {:induction false} RunKeepsTeams(w: World, cs: seq<Cmd>)
    requires Inv(w) && !IsPartyLobbyMode(w.rows.game.mode)
    ensures SameTeams(w.rows.players, Run(w, cs).rows.players)
  {
    if cs != [] {
      var init := cs[..|cs| - 1];
      RunKeepsTeams(w, init);
      RunKeepsInv(w, init);
      if Transact(Run(w, init).rows, cs[|cs| - 1]).Committed? { TransactKeepsTeams(Run(w, init).rows, cs[|cs| - 1]); }
    }
  }

  lemma SameTeamsAreListed(before: seq<Player>, after: seq<Player>, teamOne: seq<UserId>, teamTwo: seq<UserId>)
    requires SameTeams(before, after) && TeamsAreAsListed(before, teamOne, teamTwo)
    ensures TeamsAreAsListed(after, teamOne, teamTwo)
  {
    forall slot: int ensures InSlot(after, slot) == InSlot(before, slot) { SameSlot(before, after, slot); }
  }

  lemma SameSlot(before: seq<Player>, after: seq<Player>, slot: int)
    requires SameTeams(before, after)
    ensures InSlot(after, slot) == InSlot(before, slot)
  {
    forall id | id in InSlot(before, slot) ensures id in InSlot(after, slot) {
      var i :| 0 <= i < |before| && before[i].teamSlot == Some(slot) && before[i].id == id;
      assert after[i] in after;
    }
    forall id | id in InSlot(after, slot) ensures id in InSlot(before, slot) {
      var i :| 0 <= i < |after| && after[i].teamSlot == Some(slot) && after[i].id == id;
      assert before[i] in before;
    }
  }

  /** From formation on, over every run, the game has exactly one player per listed user: the first list plays for team
      one, the second for team two, nobody else plays, and both teams have the size the format asks for. */
  lemma FormedTeamsStayAsListed(input: Input, cs: seq<Cmd>)
    requires RequestError(input).None?
    ensures var players := Run(NewWorld(input), cs).rows.players;
            && TeamsAreAsListed(players, input.teamOne, input.teamTwo)
            && |InSlot(players, 1)| == |InSlot(players, 2)| == |input.teamOne| >= 1
  {
    FormedWorldIsCoupled(input);
    FormedMode(input);
    NewTeams(input);
    RunKeepsTeams(NewWorld(input), cs);
    SameTeamsAreListed(NewWorld(input).rows.players, Run(NewWorld(input), cs).rows.players, input.teamOne, input.teamTwo);
    assert DistinctUsers(input.teamOne) && DistinctUsers(input.teamTwo) by { PartsAreDistinct(input.teamOne, input.teamTwo); }
    DistinctUsersCount(input.teamOne);
    DistinctUsersCount(input.teamTwo);
  }

  lemma PartsAreDistinct(a: seq<UserId>, b: seq<UserId>)
    requires DistinctUsers(a + b)
    ensures DistinctUsers(a) && DistinctUsers(b)
  {
    forall i | 0 <= i < |a| ensures a[i] == (a + b)[i] { }
    forall i | 0 <= i < |b| ensures b[i] == (a + b)[|a| + i] { }
  }

  // ---- Whose points decide ----

  /** The points of all guesses these users made. */
  function ScoredBy(guesses: seq<Guess>, users: set<UserId>): int {
    if guesses == [] then 0
    else ScoredBy(guesses[..|guesses| - 1], users) + if guesses[|guesses| - 1].player in users then guesses[|guesses| - 1].score else 0
  }

  lemma {:induction false} OneMoreScorer(guesses: seq<Guess>, users: set<UserId>, u: UserId)
    requires u !in users
    ensures ScoredBy(guesses, users + {u}) == ScoredBy(guesses, users) + SumFor(guesses, u)
  {
    if guesses != [] { OneMoreScorer(guesses[..|guesses| - 1], users, u); }
  }

  lemma {:induction false} NobodyScores(guesses: seq<Guess>)
    ensures ScoredBy(guesses, {}) == 0
  {
    if guesses != [] { NobodyScores(guesses[..|guesses| - 1]); }
  }

  lemma OneMoreInSlot(players: seq<Player>, p: Player, slot: int)
    ensures InSlot(players + [p], slot) == InSlot(players, slot) + if p.teamSlot == Some(slot) then {p.id} else {}
  {
  }

  /** A team's total is the points of the guesses its own players made. */
  lemma {:induction false} TeamTotalIsScoredByTeam(players: seq<Player>, guesses: seq<Guess>, slot: int)
    requires DistinctPlayers(players) && TotalsAgree(players, guesses)
    ensures TeamTotal(players, slot) == ScoredBy(guesses, InSlot(players, slot))
  {
    if players == [] {
      assert InSlot(players, slot) == {};
      NobodyScores(guesses);
    } else {
      var init, last := players[..|players| - 1], players[|players| - 1];
      assert DistinctPlayers(init) && TotalsAgree(init, guesses);
      TeamTotalIsScoredByTeam(init, guesses, slot);
      assert players == init + [last];
      OneMoreInSlot(init, last, slot);
      if last.teamSlot == Some(slot) {
        assert last.id !in InSlot(init, slot);
        OneMoreScorer(guesses, InSlot(init, slot), last.id);
      } else {
        assert InSlot(players, slot) == InSlot(init, slot);
      }
    }
  }

  /** From formation on, over every run, a completed match carries for each team exactly the points its listed users' guesses
      scored, and the team with more of them as the winner. */
  lemma FormedScoresAreTheTeams(input: Input, cs: seq<Cmd>)
    requires RequestError(input).None?
    ensures var r := Run(NewWorld(input), cs);
            && r.row.Some?
            && (r.row.value.status.MatchCompleted? ==>
                  var m, one, two := r.row.value, ScoredBy(r.rows.guesses, UsersOf(input.teamOne)), ScoredBy(r.rows.guesses, UsersOf(input.teamTwo));
                  && m.teamOneScore == one && m.teamTwoScore == two
                  && (if one > two then m.result == Some(TeamOneWin) && m.winner == Some(1)
                      else if two > one then m.result == Some(TeamTwoWin) && m.winner == Some(2)
                      else m.result == Some(Draw) && m.winner.None?))
  {
    FormedWorldIsCoupled(input);
    FormedTeamsStayAsListed(input, cs);
    RunKeepsInv(NewWorld(input), cs);
    var r := Run(NewWorld(input), cs);
    TeamTotalIsScoredByTeam(r.rows.players, r.rows.guesses, 1);
    TeamTotalIsScoredByTeam(r.rows.players, r.rows.guesses, 2);
  }

  /** A new game and match are as asked: ranked formats play in the one ranked mode, casual ones in their own; there are
      as many rounds as asked for, the first opens the start delay after the match was made and ends the timer later, or
      never in a casual game; the match is in progress with one participant per player. */
  lemma FormedGameIsAsAsked(input: Input)
    requires RequestError(input).None?
    ensures var w := NewWorld(input);
            var game, rounds, m := w.rows.game, w.rows.rounds, w.row.value;
            && game.status.Active? && game.roundCount == |rounds| == input.roundCount && game.totalScore == 0 && w.rows.guesses == []
            && game.mode == (if IsRankedMode(input.mode) then Ranked else input.mode)
            && game.timerSeconds == (if IsRankedMode(input.mode) then input.timerSeconds else None)
            && (forall i | 0 <= i < |rounds| :: rounds[i].number == i + 1 && (rounds[i].status.RoundActive? <==> i == 0) && (rounds[i].status.RoundPending? <==> i > 0))
            && rounds[0].startsAt == Some(input.matchedAt + input.startDelay)
            && rounds[0].endsAt == (if IsRankedMode(input.mode) && input.timerSeconds.Some?
                                    then Some(input.matchedAt + input.startDelay + input.timerSeconds.value * 1_000_000_000) else None)
            && m.status.MatchActive? && m.casual == !IsRankedMode(input.mode) && |m.participants| == |w.rows.players|
            && (forall i | 0 <= i < |m.participants| :: m.participants[i].Participating?)
            && forall i | 0 <= i < |w.rows.players| :: w.rows.players[i].status.PlayerActive? && w.rows.players[i].totalScore == 0
  {
  }

  // ---- Games without a match ----

  /** CreateGameBundle and the challenge games: one player, every round pending. A hosted room starts without rounds. */
  function NewGame(mode: Mode, roundCount: nat, timerSeconds: Option<int>, owner: UserId): World {
    var rounds := if IsPartyLobbyMode(mode) then [] else PendingRounds(roundCount);
    World(Rows(GameRow(mode, Pending, roundCount, timerSeconds, 0), rounds, [Player(owner, PlayerActive, None, 0)], []), None)
  }

  /** Every game starts within the invariant, so the facts about runs hold for all of them. */
  lemma NewGamesAreWellFormed(mode: Mode, roundCount: nat, timerSeconds: Option<int>, owner: UserId)
    requires roundCount >= 1
    ensures Inv(NewGame(mode, roundCount, timerSeconds, owner))
    ensures var w := NewGame(mode, roundCount, timerSeconds, owner);
            && w.row.None? && w.rows.game == GameRow(mode, Pending, roundCount, timerSeconds, 0)
            && |w.rows.players| == 1 && w.rows.players[0].id == owner && w.rows.players[0].status.PlayerActive? && w.rows.guesses == []
  {
    assert ShapeAt(NewGame(mode, roundCount, timerSeconds, owner).rows, 0);
  }

  /** Active without a round, or called off. */
  predicate Wedged(w: World) {
    && IsPartyLobbyMode(w.rows.game.mode) && w.rows.rounds == [] && w.rows.guesses == []
    && (w.rows.game.status.Active? || w.rows.game.status.Abandoned? || w.rows.game.status.Cancelled?)
  }

  lemma WedgedStays(w: World, c: Cmd)
    requires Wedged(w)
    ensures Wedged(Exec(w, c).0) && !Exec(w, c).1.roundCompleted
  {
  }

  /** A hosted room started through the solo path never recovers: over every run of later commands it has no round and no
      guess, its game is not completed and its room start is refused; it can only be called off. */
  lemma {:induction false} SoloStartWedgesEveryRoom(mode: Mode, roundCount: nat, timerSeconds: Option<int>, owner: UserId, now: Instant, timer: Option<int>, cs: seq<Cmd>)
    requires IsPartyLobbyMode(mode)
    ensures var started := Exec(NewGame(mode, roundCount, timerSeconds, owner), StartSolo(now, timer)).0;
            var r := Run(started, cs);
            && started.rows.game.status.Active? && Wedged(r)
            && (forall later, t :: Exec(r, StartRoom(later, t)).0 == r) && RoundsClosed(started, cs) == 0
  {
    if cs != [] {
      var started := Exec(NewGame(mode, roundCount, timerSeconds, owner), StartSolo(now, timer)).0;
      SoloStartWedgesEveryRoom(mode, roundCount, timerSeconds, owner, now, timer, cs[..|cs| - 1]);
      WedgedStays(Run(started, cs[..|cs| - 1]), cs[|cs| - 1]);
    }
  }

  // ---- The games-side bundle ----

  const RANKED_TIMER_SECONDS := 60

  /** Ranked games without a positive timer get the authoritative one; casual games never have one. */
  function TimerDefault(mode: Mode, timerSeconds: Option<int>): Option<int> {
    if IsCasualMode(mode) then None
    else if IsRankedMode(mode) && (timerSeconds.None? || timerSeconds.value <= 0) then Some(RANKED_TIMER_SECONDS)
    else timerSeconds
  }

  /** CreateTeamGameBundle: the same rows under the mode as given, without a match. None is a refused request, a nil
      user or a user listed twice, which the unique key (game, user) refuses. */
  function TeamGameBundle(input: Input): Option<Rows> {
    if !IsMatchmadeMode(input.mode) || input.roundCount < 1 || |input.locations| < input.roundCount then None
    else if |input.teamOne| == 0 || |input.teamTwo| == 0 || |input.teamOne| != |input.teamTwo| then None
    else if !DistinctUsers(input.teamOne + input.teamTwo) then None
    else
      var timed := input.(timerSeconds := TimerDefault(input.mode, input.timerSeconds));
      var rows := NewWorld(timed).rows;
      Some(rows.(game := rows.game.(mode := input.mode)))
  }

  /** A team game starts with the round shape of an active game, its first round open, and a balanced ledger; a ranked
      one always has a deadline, its timer or a minute after its start, a casual one never. */
  lemma TeamGameIsWellFormed(input: Input)
    requires TeamGameBundle(input).Some?
    ensures var t := TeamGameBundle(input).value;
            && ShapeAt(t, 0) && Ledger(t) && TeamsAreAsListed(t.players, input.teamOne, input.teamTwo)
            && (IsCasualMode(input.mode) ==> t.rounds[0].endsAt.None?)
            && (IsRankedMode(input.mode) ==>
                  var seconds := if input.timerSeconds.None? || input.timerSeconds.value <= 0 then 60 else input.timerSeconds.value;
                  && t.rounds[0].startsAt == Some(input.matchedAt + input.startDelay)
                  && t.rounds[0].endsAt == Some(input.matchedAt + input.startDelay + seconds * 1_000_000_000))
  {
    var timed := input.(timerSeconds := TimerDefault(input.mode, input.timerSeconds));
    FormedRounds(timed);
    FormedPlayers(timed);
    NewTeams(timed);
  }

  // ---- The transaction ----

  /** Inserts one team's players in roster order. */
  method InsertTeam(players: seq<Player>, users: seq<UserId>, slot: int) returns (all: seq<Player>)
    ensures all == players + Roster(users, slot)
  {
    all := players;
    var i := 0;
    while i < |users|
      invariant 0 <= i <= |users| && all == players + Roster(users, slot)[..i]
    {
      all := all + [NewPlayer(users[i], slot)];
      assert Roster(users, slot)[..i + 1] == Roster(users, slot)[..i] + [NewPlayer(users[i], slot)];
      i := i + 1;
    }
    assert Roster(users, slot)[..i] == Roster(users, slot);
  }

  /** Inserts the rounds in order; only the first is active and has a window. */
  method InsertRounds(input: Input, n: nat) returns (rounds: seq<Round>)
    ensures rounds == NewRounds(input, n)
  {
    rounds := [];
    var i := 0;
    while i < n
      invariant 0 <= i <= n && rounds == NewRounds(input, n)[..i]
    {
      var round := Round(i + 1, RoundPending, None, None, None);
      if i == 0 { round := FirstRound(input); }
      rounds := rounds + [round];
      i := i + 1;
    }
  }

  method CreateTeamFormationBundle(existing: Option<World>, input: Input) returns (result: FormResult)
    ensures result == Form(existing, input)
  {
    var error := RequestError(input);
    if error.Some? { return Rejected(error.value); }
    if existing.Some? { return Formed(existing.value); }
    error := AccountError(input);
    if error.Some? { return Rejected(error.value); }
    var casual := IsCasualMode(input.mode);
    var game := GameRow(FormationGameMode(input.mode), Active, input.roundCount, if casual then None else input.timerSeconds, 0);
    var players := InsertTeam([], input.teamOne, 1);
    players := InsertTeam(players, input.teamTwo, 2);
    var rounds := InsertRounds(input, input.roundCount);
    var participants := [];
    var i := 0;
    while i < |players|
      invariant 0 <= i <= |players| && participants == seq(i, j => Participating)
    {
      participants := participants + [Participating];
      i := i + 1;
    }
    assert [] + Roster(input.teamOne, 1) == Roster(input.teamOne, 1);
    return Formed(World(Rows(game, rounds, players, []), Some(MatchRow(MatchActive, casual, 0, 0, None, None, None, None, participants))));
  }
}
