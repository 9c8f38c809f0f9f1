/** Stored ranks of a daily board, recomputed after every result, against the pages that show them. */
module DailyRanks {
  import opened Wrappers
  import opened Ranking
  import opened Leaderboards

  type AttemptId = int

  /** The comparison challenges/repository.go keeps beside its ORDER BY. */
  predicate LeaderboardLess(a: Entry, b: Entry) {
    if a.score != b.score then a.score > b.score
    else if a.duration.Some? && b.duration.Some? && a.duration.value != b.duration.value then a.duration.value < b.duration.value
    else if a.duration.Some? && b.duration.None? then true
    else if a.duration.None? && b.duration.Some? then false
    else if a.completedAt != b.completedAt then a.completedAt < b.completedAt
    else a.id < b.id
  }

  lemma LessIsOrderBy(a: Entry, b: Entry)
    ensures LeaderboardLess(a, b) <==> Before(a, b)
  {
  }

  /** Each row carries its place in the sorted list. */
  predicate RanksArePlaces(board: set<Entry>, ranks: map<AttemptId, int>) {
    forall i | 0 <= i < |InOrder(board)| :: InOrder(board)[i].id in ranks && ranks[InOrder(board)[i].id] == i + 1
  }

  predicate UniqueIds(board: set<Entry>) { forall a, b | a in board && b in board && a.id == b.id :: a == b }

  /** Walks the sorted rows and stores each row's index plus one. */
  method RecomputeRanks(board: set<Entry>, stored: map<AttemptId, int>) returns (ranks: map<AttemptId, int>)
    requires UniqueIds(board)
    ensures RanksArePlaces(board, ranks)
    ensures forall id | id in stored && (forall e | e in board :: e.id != id) :: id in ranks && ranks[id] == stored[id]
  {
    var entries := InOrder(board);
    InOrderLists(board);
    ranks := stored;
    var i := 0;
    while i < |entries|
      invariant 0 <= i <= |entries|
      invariant forall j | 0 <= j < i :: entries[j].id in ranks && ranks[entries[j].id] == j + 1
      invariant forall id | id in stored && (forall j | 0 <= j < i :: entries[j].id != id) :: id in ranks && ranks[id] == stored[id]
    {
      assert forall j | 0 <= j < i :: entries[j] in board && entries[i] in board && Before(entries[j], entries[i]);
      ranks := ranks[entries[i].id := i + 1];
      i := i + 1;
    }
    assert forall j | 0 <= j < |entries| :: entries[j] in board;
  }

  /** A row's stored rank is one more than the number of rows that beat it, and no two rows share one. */
  lemma StoredRankCountsBetter(board: set<Entry>, ranks: map<AttemptId, int>, e: Entry)
    requires RanksArePlaces(board, ranks) && e in board
    ensures e.id in ranks && ranks[e.id] == 1 + |Ahead(board, Before, e)|
  {
    BeforeIsStrictTotal();
    InOrderLists(board);
    var i :| 0 <= i < |InOrder(board)| && InOrder(board)[i] == e;
    PlaceIsCount(board, Before, i);
  }

  /** In columns: a stored rank is one more than the number of rows with a higher score, or at equal score a better
      duration, an earlier completion or a lower id; so of two rows the one with the higher score ranks above. */
  lemma StoredRankIsByColumns(board: set<Entry>, ranks: map<AttemptId, int>, e: Entry, other: Entry)
    requires RanksArePlaces(board, ranks) && e in board && other in board
    ensures e.id in ranks && ranks[e.id] == 1 + |Beaters(board, e)|
    ensures other.id in ranks && (e.score > other.score ==> ranks[e.id] < ranks[other.id])
  {
    BoardListsByColumns(board);
    InOrderLists(board);
    var i :| 0 <= i < |InOrder(board)| && InOrder(board)[i] == e;
    var j :| 0 <= j < |InOrder(board)| && InOrder(board)[j] == other;
    assert e.score > other.score ==> Beats(InOrder(board)[i], InOrder(board)[j]);
  }

  /** The rows of a daily page after a cursor, with the ranks stored on them: exactly the ranks a general page computes. */
  lemma DailyPageShowsItsRanks(board: set<Entry>, ranks: map<AttemptId, int>, limit: nat, cursor: Option<Entry>, i: nat)
    requires RanksArePlaces(board, ranks) && i < |ListGeneral(board, limit, cursor)|
    ensures var row := ListGeneral(board, limit, cursor)[i];
            row.entry in board && row.entry.id in ranks && ranks[row.entry.id] == row.rank
  {
    ResumesAt(board, cursor);
    InOrderLists(board);
    var n := CountThrough(board, cursor);
    assert InOrder(board)[n..][i] == InOrder(board)[n + i];
  }
}
