/** Materialized best entries: the incremental upsert against recomputation from the completed games. */
module BestEntries {
  import opened Wrappers
  import opened Ranking
  import opened Leaderboards

  type GameId = int
  type UserId = int
  type MapId = int

  datatype Scope = Global | OnMap(id: MapId)

  /** A completed game: `scores` holds its active players that have an account. */
  datatype Completed = Completed(mapId: MapId, duration: Option<int>, completedAt: int, scores: map<UserId, int>)

  /** A row of leaderboard_entries; the id of `entry` is the game that set it. */
  datatype Row = Row(entry: Entry, gamesPlayed: nat)

  type Boards = map<(Scope, UserId), Row>

  predicate Counts(f: Completed, scope: Scope, user: UserId) { user in f.scores && (scope.Global? || scope.id == f.mapId) }

  function PlayedGames(games: map<GameId, Completed>, scope: Scope, user: UserId): set<GameId> {
    set g | g in games && Counts(games[g], scope, user)
  }

  function Results(games: map<GameId, Completed>, scope: Scope, user: UserId): set<Entry> {
    set g | g in games && Counts(games[g], scope, user) :: Entry(games[g].scores[user], games[g].duration, games[g].completedAt, g)
  }

  /** ORDER BY total_score DESC, duration ASC NULLS LAST, completed_at ASC, game id ASC LIMIT 1. */
  function BestOf(games: map<GameId, Completed>, scope: Scope, user: UserId): Option<Entry> {
    var l := InOrder(Results(games, scope, user));
    if l == [] then None else Some(l[0])
  }

  /** leaderboard_entry_is_better, branch by branch. */
  predicate IsBetter(candidate: Entry, current: Entry) {
    if candidate.score != current.score then candidate.score > current.score
    else if candidate.duration.Some? && current.duration.None? then true
    else if candidate.duration.None? && current.duration.Some? then false
    else if candidate.duration.Some? && current.duration.Some? && candidate.duration.value != current.duration.value
    then candidate.duration.value < current.duration.value
    else if candidate.completedAt != current.completedAt then candidate.completedAt < current.completedAt
    else candidate.id < current.id
  }

  /** INSERT ... ON CONFLICT (leaderboard_id, user_id) DO UPDATE. */
  function Upserted(boards: Boards, key: (Scope, UserId), best: Entry, gamesPlayed: nat): Boards {
    boards[key := Row(if key in boards && !IsBetter(best, boards[key].entry) then boards[key].entry else best, gamesPlayed)]
  }

  function UpsertBest(boards: Boards, games: map<GameId, Completed>, scope: Scope, user: UserId): Boards {
    match BestOf(games, scope, user)
    case None => boards
    case Some(best) => Upserted(boards, (scope, user), best, |PlayedGames(games, scope, user)|)
  }

  function Candidates(games: map<GameId, Completed>, active: set<UserId>, game: GameId): set<UserId> {
    if game !in games then {} else set u | u in games[game].scores && u in active
  }

  /** A row that recomputation would leave alone. */
  predicate Exact(boards: Boards, games: map<GameId, Completed>, scope: Scope, user: UserId) {
    match BestOf(games, scope, user)
    case None => (scope, user) !in boards
    case Some(best) => (scope, user) in boards && boards[(scope, user)] == Row(best, |PlayedGames(games, scope, user)|)
  }

  predicate TouchedBy(games: map<GameId, Completed>, active: set<UserId>, game: GameId, scope: Scope, user: UserId) {
    user in Candidates(games, active, game) && Counts(games[game], scope, user)
  }

  // ---- The best entry ----

  lemma ResultsArePlayed(games: map<GameId, Completed>, scope: Scope, user: UserId)
    ensures Results(games, scope, user) == {} <==> PlayedGames(games, scope, user) == {}
  {
    var results, played := Results(games, scope, user), PlayedGames(games, scope, user);
    forall g | g in played ensures Entry(games[g].scores[user], games[g].duration, games[g].completedAt, g) in results { }
    forall e | e in results ensures e.id in played { }
    if played != {} {
      var g :| g in played;
      assert Entry(games[g].scores[user], games[g].duration, games[g].completedAt, g) in results;
    }
  }

  lemma BestIsLeast(games: map<GameId, Completed>, scope: Scope, user: UserId)
    ensures var best := BestOf(games, scope, user);
            && (best.None? <==> PlayedGames(games, scope, user) == {})
            && (best.Some? ==> best.value in Results(games, scope, user))
            && (best.Some? ==> forall e | e in Results(games, scope, user) :: e == best.value || Before(best.value, e))
  {
    var results := Results(games, scope, user);
    InOrderLists(results);
    ResultsArePlayed(games, scope, user);
    var l := InOrder(results);
    if l != [] { assert l[0] in results; }
    forall e | e in results ensures l != [] && (e == l[0] || Before(l[0], e)) {
      assert e in l;
    }
  }

  lemma BetterIsBefore(x: Entry, y: Entry)
    ensures IsBetter(x, y) <==> Before(x, y)
  {
  }

  /** An upsert lands on the recomputed row iff the stored entry is not strictly better than every game that counts
      now. Withdrawing a player after their best game was materialized is what breaks it: the row keeps that game. */
  lemma UpsertIsExactIff(boards: Boards, games: map<GameId, Completed>, scope: Scope, user: UserId)
    requires PlayedGames(games, scope, user) != {}
    ensures Exact(UpsertBest(boards, games, scope, user), games, scope, user)
       <==> !((scope, user) in boards && forall e | e in Results(games, scope, user) :: Before(boards[(scope, user)].entry, e))
  {
    BestIsLeast(games, scope, user);
    var best := BestOf(games, scope, user).value;
    if (scope, user) in boards {
      BetterIsBefore(best, boards[(scope, user)].entry);
      BeforeIsStrictTotal();
    }
  }

  // ---- Runs ----

  /** `done` remembers which results a materialization has visited. */
  datatype State = State(games: map<GameId, Completed>, active: set<UserId>, boards: Boards, done: set<(GameId, UserId)>)

  datatype Step = Complete(game: GameId, fact: Completed) | Materialize(game: GameId) | SetActive(user: UserId, on: bool)

  /** Each candidate's upserts: the global board, then the game's map board. */
  function UpsertEach(boards: Boards, games: map<GameId, Completed>, mapId: MapId, users: seq<UserId>): Boards {
    if users == [] then boards
    else
      var before, user := UpsertEach(boards, games, mapId, users[..|users| - 1]), users[|users| - 1];
      UpsertBest(UpsertBest(before, games, Global, user), games, OnMap(mapId), user)
  }

  lemma UpsertNext(boards: Boards, games: map<GameId, Completed>, mapId: MapId, users: seq<UserId>, i: nat)
    requires i < |users|
    ensures UpsertEach(boards, games, mapId, users[..i + 1])
         == UpsertBest(UpsertBest(UpsertEach(boards, games, mapId, users[..i]), games, Global, users[i]), games, OnMap(mapId), users[i])
  {
    assert users[..i + 1][..i] == users[..i];
  }

  function MaterializedBoards(boards: Boards, games: map<GameId, Completed>, active: set<UserId>, game: GameId): Boards {
    if game !in games then boards else UpsertEach(boards, games, games[game].mapId, SortedUsers(Candidates(games, active, game)))
  }

  function Next(s: State, step: Step): State {
    match step
    case Complete(g, fact) => if g in s.games then s else s.(games := s.games[g := fact])
    case Materialize(g) =>
      s.(boards := MaterializedBoards(s.boards, s.games, s.active, g),
         done := s.done + set u | u in Candidates(s.games, s.active, g) :: (g, u))
    case SetActive(u, on) => s.(active := if on then s.active + {u} else s.active - {u})
  }

  function Run(s: State, steps: seq<Step>): State {
    if steps == [] then s else Next(Run(s, steps[..|steps| - 1]), steps[|steps| - 1])
  }

  predicate AllVisited(s: State, scope: Scope, user: UserId) {
    forall g | g in PlayedGames(s.games, scope, user) :: (g, user) in s.done
  }

  predicate RowOk(s: State, scope: Scope, user: UserId) {
    && ((scope, user) in s.boards ==> s.boards[(scope, user)].entry in Results(s.games, scope, user))
    && (AllVisited(s, scope, user) ==> Exact(s.boards, s.games, scope, user))
  }

  ghost predicate Inv(s: State) {
    && (forall p | p in s.done :: p.0 in s.games)
    && forall scope: Scope, user: UserId :: RowOk(s, scope, user)
  }

  /** An upsert looks at, and writes, its own row only. */
  lemma UpsertIsLocal(a: Boards, b: Boards, games: map<GameId, Completed>, scope: Scope, user: UserId, k: (Scope, UserId))
    ensures k != (scope, user) ==> (k in UpsertBest(b, games, scope, user) <==> k in b)
    ensures k != (scope, user) && k in b ==> UpsertBest(b, games, scope, user)[k] == b[k]
    ensures k == (scope, user) && SameRow(a, b, k) ==> SameRow(UpsertBest(a, games, scope, user), UpsertBest(b, games, scope, user), k)
  {
  }

  predicate SameRow(a: Boards, b: Boards, k: (Scope, UserId)) {
    (k in a <==> k in b) && (k in a ==> a[k] == b[k])
  }

  /** Upserting many users in turn leaves each row as its own upsert alone would. */
  lemma {:induction false} UpsertEachAt(boards: Boards, games: map<GameId, Completed>, mapId: MapId, users: seq<UserId>, scope: Scope, user: UserId)
    requires forall i, j | 0 <= i < j < |users| :: users[i] < users[j]
    ensures var r := UpsertEach(boards, games, mapId, users);
            if user in users && (scope == Global || scope == OnMap(mapId))
            then SameRow(r, UpsertBest(boards, games, scope, user), (scope, user))
            else SameRow(r, boards, (scope, user))
  {
    if users != [] {
      var init, last := users[..|users| - 1], users[|users| - 1];
      UpsertEachAt(boards, games, mapId, init, scope, user);
      var k, before := (scope, user), UpsertEach(boards, games, mapId, init);
      assert user in users <==> user in init || user == last;
      UpsertIsLocal(boards, before, games, Global, last, k);
      UpsertIsLocal(boards, UpsertBest(before, games, Global, last), games, OnMap(mapId), last, k);
    }
  }

  /** A stored result of a game that still counts is never better than the best, so its upsert is exact. */
  lemma UpsertOfResultIsExact(s: State, scope: Scope, user: UserId)
    requires RowOk(s, scope, user) && PlayedGames(s.games, scope, user) != {}
    ensures Exact(UpsertBest(s.boards, s.games, scope, user), s.games, scope, user)
  {
    UpsertIsExactIff(s.boards, s.games, scope, user);
  }

  lemma SameResults(a: map<GameId, Completed>, b: map<GameId, Completed>, scope: Scope, user: UserId)
    requires PlayedGames(a, scope, user) == PlayedGames(b, scope, user)
    requires forall g | g in PlayedGames(a, scope, user) :: a[g] == b[g]
    ensures Results(a, scope, user) == Results(b, scope, user)
  {
    forall e ensures e in Results(a, scope, user) <==> e in Results(b, scope, user) {
      if e in Results(a, scope, user) { assert e.id in PlayedGames(a, scope, user); }
      if e in Results(b, scope, user) { assert e.id in PlayedGames(b, scope, user); }
    }
  }

  lemma CompleteKeepsRow(s: State, g: GameId, fact: Completed, scope: Scope, user: UserId)
    requires Inv(s) && g !in s.games
    ensures RowOk(Next(s, Complete(g, fact)), scope, user)
  {
    var games' := s.games[g := fact];
    assert RowOk(s, scope, user);
    if Counts(fact, scope, user) {
      assert g in PlayedGames(games', scope, user) && (g, user) !in s.done;
      if (scope, user) in s.boards {
        var k :| k in s.games && Counts(s.games[k], scope, user)
                && s.boards[(scope, user)].entry == Entry(s.games[k].scores[user], s.games[k].duration, s.games[k].completedAt, k);
        assert k in games';
      }
    } else {
      assert PlayedGames(games', scope, user) == PlayedGames(s.games, scope, user);
      SameResults(s.games, games', scope, user);
    }
  }

  /** Every row a materialization touches becomes exact, even if it was stale before; the others keep their row. */
  lemma MaterializeRow(s: State, g: GameId, scope: Scope, user: UserId)
    requires RowOk(s, scope, user)
    ensures var t := Next(s, Materialize(g));
            && (TouchedBy(s.games, s.active, g, scope, user) ==> Exact(t.boards, t.games, scope, user))
            && RowOk(t, scope, user)
  {
    var t := Next(s, Materialize(g));
    BestIsLeast(s.games, scope, user);
    if g in s.games {
      UpsertEachAt(s.boards, s.games, s.games[g].mapId, SortedUsers(Candidates(s.games, s.active, g)), scope, user);
    }
    if TouchedBy(s.games, s.active, g, scope, user) {
      assert g in PlayedGames(s.games, scope, user);
      UpsertOfResultIsExact(s, scope, user);
    } else {
      assert SameRow(t.boards, s.boards, (scope, user));
      assert AllVisited(t, scope, user) ==> AllVisited(s, scope, user);
    }
  }

  // ---- A materialization, in columns ----

  /** The user's games on the whole board, or on one map. */
  function OwnGames(games: map<GameId, Completed>, scope: Scope, user: UserId): set<GameId> {
    set h | h in games && user in games[h].scores && (scope == Global || scope == OnMap(games[h].mapId))
  }

  function EntryOf(games: map<GameId, Completed>, h: GameId, user: UserId): Entry
    requires h in games && user in games[h].scores
  {
    Entry(games[h].scores[user], games[h].duration, games[h].completedAt, h)
  }

  /** The row holds one of the user's games that none of them beats, and their number. */
  ghost predicate IsBestRow(row: Row, games: map<GameId, Completed>, scope: Scope, user: UserId) {
    && row.gamesPlayed == |OwnGames(games, scope, user)|
    && row.entry.id in OwnGames(games, scope, user) && row.entry == EntryOf(games, row.entry.id, user)
    && forall h | h in OwnGames(games, scope, user) :: !Beats(EntryOf(games, h, user), row.entry) && games[h].scores[user] <= row.entry.score
  }

  lemma OwnGamesAreThoseThatCount(games: map<GameId, Completed>, scope: Scope, user: UserId)
    ensures OwnGames(games, scope, user) == PlayedGames(games, scope, user)
  {
    forall h ensures h in OwnGames(games, scope, user) <==> h in PlayedGames(games, scope, user) {
      if h in games { SameScope(games[h], scope, user); }
    }
  }

  lemma SameScope(f: Completed, scope: Scope, user: UserId)
    ensures Counts(f, scope, user) <==> user in f.scores && (scope == Global || scope == OnMap(f.mapId))
  {
  }

  lemma ExactIsBestRow(boards: Boards, games: map<GameId, Completed>, scope: Scope, user: UserId)
    requires Exact(boards, games, scope, user) && OwnGames(games, scope, user) != {}
    ensures (scope, user) in boards && IsBestRow(boards[(scope, user)], games, scope, user)
  {
    OwnGamesAreThoseThatCount(games, scope, user);
    BestIsLeast(games, scope, user);
    var best := BestOf(games, scope, user).value;
    assert best in Results(games, scope, user);
    forall h | h in OwnGames(games, scope, user) ensures !Beats(EntryOf(games, h, user), best) && games[h].scores[user] <= best.score {
      assert EntryOf(games, h, user) in Results(games, scope, user);
      BeatsIsBefore(EntryOf(games, h, user), best);
      BeatsIsBefore(best, EntryOf(games, h, user));
    }
  }

  /** In every reachable state, materializing a completed game puts on the global board and on the board of its map, for
      each of its players whose account is active, the best of that player's games there and their number; it touches no
      other row. */
  lemma MaterializingStoresTheBest(s: State, g: GameId, scope: Scope, user: UserId)
    requires Inv(s)
    ensures var boards := Next(s, Materialize(g)).boards;
            if g in s.games && user in s.games[g].scores && user in s.active && (scope == Global || scope == OnMap(s.games[g].mapId))
            then (scope, user) in boards && IsBestRow(boards[(scope, user)], s.games, scope, user)
            else SameRow(boards, s.boards, (scope, user))
  {
    assert RowOk(s, scope, user);
    MaterializeRow(s, g, scope, user);
    if g in s.games {
      UpsertEachAt(s.boards, s.games, s.games[g].mapId, SortedUsers(Candidates(s.games, s.active, g)), scope, user);
      if user in s.games[g].scores && user in s.active && (scope == Global || scope == OnMap(s.games[g].mapId)) {
        assert g in OwnGames(s.games, scope, user);
        ExactIsBestRow(Next(s, Materialize(g)).boards, s.games, scope, user);
      }
    }
  }

  lemma NextKeepsInv(s: State, step: Step)
    requires Inv(s)
    ensures Inv(Next(s, step))
  {
    var t := Next(s, step);
    forall scope: Scope, user: UserId ensures RowOk(t, scope, user) {
      assert RowOk(s, scope, user);
      match step
      case Complete(g, fact) => if g !in s.games { CompleteKeepsRow(s, g, fact, scope, user); }
      case Materialize(g) => MaterializeRow(s, g, scope, user);
      case SetActive(_, _) => assert AllVisited(t, scope, user) <==> AllVisited(s, scope, user);
    }
  }

  lemma {:induction false} RunKeepsInv(s: State, steps: seq<Step>)
    requires Inv(s)
    ensures Inv(Run(s, steps))
  {
    if steps != [] {
      RunKeepsInv(s, steps[..|steps| - 1]);
      NextKeepsInv(Run(s, steps[..|steps| - 1]), steps[|steps| - 1]);
    }
  }

  /** Incremental refines recomputed: over any interleaving of completions, materializations in any order and with
      repeats, and account status changes, a row whose games have each been visited is exactly the best of them under
      the ORDER BY with their number, and every stored row is a result of its own user and scope. */
  lemma BoardsRefineRecomputation(active: set<UserId>, steps: seq<Step>, scope: Scope, user: UserId)
    ensures var s := Run(State(map[], active, map[], {}), steps);
            && (AllVisited(s, scope, user) ==> Exact(s.boards, s.games, scope, user))
            && ((scope, user) in s.boards ==> s.boards[(scope, user)].entry in Results(s.games, scope, user))
  {
    var init := State(map[], active, map[], {});
    forall sc: Scope, u: UserId ensures RowOk(init, sc, u) { BestIsLeast(init.games, sc, u); }
    RunKeepsInv(init, steps);
    assert RowOk(Run(init, steps), scope, user);
  }

  // ---- The transaction, as it runs ----

  class LeaderboardRepository {
    var boards: Boards

    constructor ()
      ensures boards == map[]
    {
      boards := map[];
    }

    method UpsertBestEntry(games: map<GameId, Completed>, scope: Scope, user: UserId)
      modifies this
      ensures boards == UpsertBest(old(boards), games, scope, user)
    {
      var best := BestOf(games, scope, user);
      if best.Some? {
        var gamesPlayed := |PlayedGames(games, scope, user)|;
        var key := (scope, user);
        if key in boards {
          var entry := boards[key].entry;
          if IsBetter(best.value, entry) { entry := best.value; }
          boards := boards[key := Row(entry, gamesPlayed)];
        } else {
          boards := boards[key := Row(best.value, gamesPlayed)];
        }
      }
    }

    /** Visits the candidates in user order, each on the global board and on the game's map board. */
    method MaterializeCompletedGame(games: map<GameId, Completed>, active: set<UserId>, game: GameId) returns (touched: seq<Scope>)
      modifies this
      ensures boards == MaterializedBoards(old(boards), games, active, game)
      ensures touched == if Candidates(games, active, game) == {} then [] else [Global, OnMap(games[game].mapId)]
    {
      touched := [];
      var candidates := SortedUsers(Candidates(games, active, game));
      if |candidates| == 0 {
        return;
      }
      touched := [Global];
      var scope := OnMap(games[game].mapId);
      var i := 0;
      while i < |candidates|
        invariant 0 <= i <= |candidates|
        invariant touched == if i == 0 then [Global] else [Global, scope]
        invariant boards == UpsertEach(old(boards), games, games[game].mapId, candidates[..i])
      {
        UpsertBestEntry(games, Global, candidates[i]);
        UpsertBestEntry(games, scope, candidates[i]);
        if scope !in touched { touched := touched + [scope]; }
        UpsertNext(old(boards), games, games[game].mapId, candidates, i);
        i := i + 1;
      }
      assert candidates[..i] == candidates;
    }
  }

  predicate UserBefore(x: UserId, y: UserId) { x < y }

  /** ORDER BY user_id ASC. */
  function SortedUsers(users: set<UserId>): (l: seq<UserId>)
    ensures |l| == |users| && (forall u :: u in l <==> u in users) && forall i, j | 0 <= i < j < |l| :: l[i] < l[j]
  {
    SortedIsAscending(users, UserBefore);
    Sorted(users, UserBefore)
  }
}
