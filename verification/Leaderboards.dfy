/** Score leaderboards: keyset pages against the whole sorted list. */
module Leaderboards {
  import opened Wrappers
  import opened Ranking
  import opened Paging

  // math.MaxInt64, standing in for a missing duration in the seek tuple.
  const NULL_DURATION_SORT_VALUE := 0x7fff_ffff_ffff_ffff

  /** The columns a leaderboard row is ordered by; `id` is unique within one board. Instants start at 0, the zero time. */
  datatype Entry = Entry(score: int, duration: Option<int>, completedAt: int, id: int)

  /** ORDER BY score DESC, duration ASC NULLS LAST, completed_at ASC, id ASC. */
  predicate Before(x: Entry, y: Entry) {
    if x.score != y.score then x.score > y.score
    else if x.duration != y.duration then x.duration.Some? && (y.duration.None? || x.duration.value < y.duration.value)
    else if x.completedAt != y.completedAt then x.completedAt < y.completedAt
    else x.id < y.id
  }

  lemma BeforeIsStrictTotal()
    ensures StrictTotal(Before)
  {
  }

  /** The board as its ORDER BY lists it. */
  function InOrder(board: set<Entry>): seq<Entry> {
    BeforeIsStrictTotal();
    Sorted(board, Before)
  }

  lemma InOrderLists(board: set<Entry>)
    ensures |InOrder(board)| == |board| && forall e :: e in InOrder(board) <==> e in board
    ensures forall i, j | 0 <= i < j < |InOrder(board)| :: Before(InOrder(board)[i], InOrder(board)[j])
  {
    BeforeIsStrictTotal();
    SortedIsAscending(board, Before);
  }

  /** Higher scores first, then shorter recorded durations with missing ones last, then earlier completions, then ids. */
  predicate Beats(x: Entry, y: Entry) {
    || x.score > y.score
    || (x.score == y.score && x.duration.Some? && y.duration.None?)
    || (x.score == y.score && x.duration.Some? && y.duration.Some? && x.duration.value < y.duration.value)
    || (x.score == y.score && x.duration == y.duration && x.completedAt < y.completedAt)
    || (x.score == y.score && x.duration == y.duration && x.completedAt == y.completedAt && x.id < y.id)
  }

  /** The board lists every row once, each behind exactly the rows that beat it on its columns. */
  lemma BoardListsByColumns(board: set<Entry>)
    ensures var l := InOrder(board);
            && |l| == |board| && (forall e :: e in l <==> e in board)
            && (forall i, j | 0 <= i < j < |l| :: Beats(l[i], l[j]) && l[i].score >= l[j].score)
            && (forall i, j | 0 <= i < |l| && 0 <= j < |l| && Beats(l[i], l[j]) :: i < j)
            && forall i | 0 <= i < |l| :: |Beaters(board, l[i])| == i
  {
    BeforeIsStrictTotal();
    InOrderLists(board);
    var l := InOrder(board);
    forall x, y ensures Beats(x, y) <==> Before(x, y) { BeatsIsBefore(x, y); }
    forall i | 0 <= i < |l| ensures |Beaters(board, l[i])| == i {
      PlaceIsCount(board, Before, i);
      assert Beaters(board, l[i]) == Ahead(board, Before, l[i]);
    }
  }

  function Beaters(board: set<Entry>, e: Entry): set<Entry> { set x | x in board && Beats(x, e) }

  lemma BeatsIsBefore(x: Entry, y: Entry)
    ensures Beats(x, y) <==> Before(x, y)
  {
  }

  // ---- The seek predicate ----

  datatype SortTuple = SortTuple(negScore: int, missing: bool, duration: int, completedAt: int, id: int)

  function TupleOf(e: Entry): SortTuple {
    SortTuple(-e.score, e.duration.None?, if e.duration.None? then NULL_DURATION_SORT_VALUE else e.duration.value, e.completedAt, e.id)
  }

  /** Row comparison `x > y`, column by column; false sorts before true. */
  predicate TupleGreater(x: SortTuple, y: SortTuple) {
    if x.negScore != y.negScore then x.negScore > y.negScore
    else if x.missing != y.missing then x.missing
    else if x.duration != y.duration then x.duration > y.duration
    else if x.completedAt != y.completedAt then x.completedAt > y.completedAt
    else x.id > y.id
  }

  predicate SeekAfter(cursor: Entry, e: Entry) { TupleGreater(TupleOf(e), TupleOf(cursor)) }

  predicate SeekThrough(cursor: Entry, e: Entry) { !SeekAfter(cursor, e) }

  /** The five-column seek is the ORDER BY, and no two rows share a tuple. */
  lemma SeekIsOrderBy(x: Entry, y: Entry)
    ensures SeekAfter(x, y) <==> Before(x, y)
    ensures TupleOf(x) == TupleOf(y) <==> x == y
  {
  }

  // ---- Queries ----

  datatype Ranked = Ranked(entry: Entry, rank: int)

  /** offset + ROW_NUMBER(). */
  function Numbered(l: seq<Entry>, offset: int): (r: seq<Ranked>)
    ensures |r| == |l| && forall i | 0 <= i < |l| :: r[i] == Ranked(l[i], offset + i + 1)
  {
    seq(|l|, i requires 0 <= i < |l| => Ranked(l[i], offset + i + 1))
  }

  function SeekRows(board: set<Entry>, cursor: Option<Entry>): set<Entry> {
    set e | e in board && (cursor.None? || SeekAfter(cursor.value, e))
  }

  function CountThrough(board: set<Entry>, cursor: Option<Entry>): nat {
    if cursor.None? then 0 else |set e | e in board && SeekThrough(cursor.value, e)|
  }

  /** Numbers only the rows behind the cursor, starting from the through-count. */
  function ListGeneral(board: set<Entry>, limit: nat, cursor: Option<Entry>): seq<Ranked> {
    Limit(Numbered(InOrder(SeekRows(board, cursor)), CountThrough(board, cursor)), limit)
  }

  function KeepAfter(rows: seq<Ranked>, cursor: Entry): seq<Ranked> {
    if rows == [] then []
    else if SeekAfter(cursor, rows[0].entry) then [rows[0]] + KeepAfter(rows[1..], cursor)
    else KeepAfter(rows[1..], cursor)
  }

  /** Numbers the whole cohort, then drops what the cursor has passed. */
  function ListFriends(cohort: set<Entry>, limit: nat, cursor: Option<Entry>): seq<Ranked> {
    var ranked := Numbered(InOrder(cohort), 0);
    Limit(if cursor.None? then ranked else KeepAfter(ranked, cursor.value), limit)
  }

  /** The position in the sorted list at which a query with this cursor resumes. */
  lemma ResumesAt(board: set<Entry>, cursor: Option<Entry>)
    ensures CountThrough(board, cursor) <= |InOrder(board)|
    ensures InOrder(SeekRows(board, cursor)) == InOrder(board)[CountThrough(board, cursor)..]
  {
    if cursor.None? {
      assert SeekRows(board, cursor) == board;
    } else {
      BeforeIsStrictTotal();
      var c := cursor.value;
      forall e ensures SeekAfter(c, e) <==> Before(c, e) { SeekIsOrderBy(c, e); }
      assert SeekRows(board, cursor) == After(board, Before, c);
      assert (set e | e in board && SeekThrough(c, e)) == Through(board, Before, c);
      SeekCutsTheList(board, Before, c);
    }
  }

  lemma {:induction false} KeepAfterIsSuffix(rows: seq<Ranked>, cursor: Entry, n: nat)
    requires n <= |rows|
    requires forall i | 0 <= i < |rows| :: SeekAfter(cursor, rows[i].entry) <==> n <= i
    ensures KeepAfter(rows, cursor) == rows[n..]
  {
    if rows != [] {
      KeepAfterIsSuffix(rows[1..], cursor, if n == 0 then 0 else n - 1);
    }
  }

  lemma NumberedSuffix(l: seq<Entry>, n: nat)
    requires n <= |l|
    ensures Numbered(l, 0)[n..] == Numbered(l[n..], n)
  {
  }

  /** A cursor passes exactly the rows before the position it resumes at. */
  lemma CursorPassesPrefix(board: set<Entry>, cursor: Entry, i: nat)
    requires i < |InOrder(board)|
    ensures SeekAfter(cursor, InOrder(board)[i]) <==> CountThrough(board, Some(cursor)) <= i
  {
    var l, n := InOrder(board), CountThrough(board, Some(cursor));
    ResumesAt(board, Some(cursor));
    InOrderLists(SeekRows(board, Some(cursor)));
    InOrderLists(board);
    SuffixMember(l, n, i);
  }

  lemma SuffixMember(l: seq<Entry>, n: nat, i: nat)
    requires n <= |l| && i < |l| && forall j, k | 0 <= j < k < |l| :: Before(l[j], l[k])
    ensures l[i] in l[n..] <==> n <= i
  {
    if n <= i { assert l[n..][i - n] == l[i]; }
  }

  /** The two list queries, one counting through the cursor and one ranking before filtering, return the same rows
      and ranks for every cursor, whether or not it names a row. */
  lemma FriendsListIsGeneralList(board: set<Entry>, limit: nat, cursor: Option<Entry>)
    ensures ListFriends(board, limit, cursor) == ListGeneral(board, limit, cursor)
  {
    var l, n := InOrder(board), CountThrough(board, cursor);
    ResumesAt(board, cursor);
    NumberedSuffix(l, n);
    if cursor.Some? {
      forall i | 0 <= i < |l| ensures SeekAfter(cursor.value, l[i]) <==> n <= i { CursorPassesPrefix(board, cursor.value, i); }
      KeepAfterIsSuffix(Numbered(l, 0), cursor.value, n);
    }
  }

  lemma BehindTheCursor(board: set<Entry>, cursor: Option<Entry>, behind: set<Entry>)
    requires behind == set e | e in board && (cursor.None? || Beats(cursor.value, e))
    ensures behind == SeekRows(board, cursor)
  {
    if cursor.Some? {
      forall e | e in board ensures Beats(cursor.value, e) <==> SeekAfter(cursor.value, e) {
        BeatsIsBefore(cursor.value, e);
        SeekIsOrderBy(cursor.value, e);
      }
    }
  }

  lemma PageRows(board: set<Entry>, limit: nat, cursor: Option<Entry>)
    ensures var l, n, page := InOrder(board), CountThrough(board, cursor), ListGeneral(board, limit, cursor);
            && n == |l| - |SeekRows(board, cursor)| && |page| == (if limit < |l| - n then limit else |l| - n)
            && forall i | 0 <= i < |page| :: page[i] == Ranked(l[n + i], n + i + 1) && l[n + i] in SeekRows(board, cursor)
  {
    var l, n, page := InOrder(board), CountThrough(board, cursor), ListGeneral(board, limit, cursor);
    ResumesAt(board, cursor);
    InOrderLists(SeekRows(board, cursor));
    forall i | 0 <= i < |page| ensures page[i] == Ranked(l[n + i], n + i + 1) && l[n + i] in SeekRows(board, cursor) {
      assert l[n..][i] == l[n + i];
    }
  }

  /** A page lists the rows the cursor's row beats, the first so many of them, with consecutive ranks behind those it does
      not beat; each rank is one more than the number of rows on the whole board that beat the row. */
  lemma PageShowsRanks(board: set<Entry>, limit: nat, cursor: Option<Entry>, behind: set<Entry>)
    requires behind == set e | e in board && (cursor.None? || Beats(cursor.value, e))
    ensures var page := ListGeneral(board, limit, cursor);
            && |page| == (if limit < |behind| then limit else |behind|)
            && forall i | 0 <= i < |page| ::
                 && page[i].entry in behind && page[i].rank == |board| - |behind| + i + 1
                 && page[i].rank == 1 + |Beaters(board, page[i].entry)|
  {
    BehindTheCursor(board, cursor, behind);
    PageRows(board, limit, cursor);
    BoardListsByColumns(board);
  }

  // ---- Following cursors ----

  /** What decodeCursor accepts of what encodeCursor wrote. */
  predicate Decodable(c: Entry) { c.score >= 0 && (c.duration.Some? ==> c.duration.value >= 0) && c.completedAt != 0 && c.id != 0 }

  datatype Reply = Page(data: seq<Ranked>, next: Option<Entry>) | InvalidCursor

  /** One service read: a row more than the limit is fetched to see whether a next page exists. */
  function GetPage(board: set<Entry>, limit: nat, cursor: Option<Entry>): Reply
    requires limit >= 1
  {
    if cursor.Some? && !Decodable(cursor.value) then InvalidCursor
    else
      var rows := ListGeneral(board, limit + 1, cursor);
      if |rows| > limit then Page(rows[..limit], Some(rows[limit - 1].entry)) else Page(rows, None)
  }

  /** Everything a client reads by following cursors; None once a cursor is refused. */
  function Follow(board: set<Entry>, limit: nat, cursor: Option<Entry>): Option<seq<Ranked>>
    requires limit >= 1
    decreases |SeekRows(board, cursor)|
  {
    var reply := GetPage(board, limit, cursor);
    if reply.InvalidCursor? then None
    else if reply.next.None? then Some(reply.data)
    else
      NextPageIsShorter(board, limit, cursor);
      var rest := Follow(board, limit, reply.next);
      if rest.None? then None else Some(reply.data + rest.value)
  }

  /** What a page makes of the rows from position n on. */
  lemma CutPage(tail: seq<Entry>, n: nat, limit: nat)
    requires limit >= 1
    ensures var rows := Limit(Numbered(tail, n), limit + 1);
            && (|rows| > limit <==> |tail| > limit)
            && (|tail| > limit ==> rows[..limit] == Numbered(tail[..limit], n) && rows[limit - 1].entry == tail[limit - 1])
            && (|tail| <= limit ==> rows == Numbered(tail, n))
  {
  }

  lemma PageIsSlice(board: set<Entry>, limit: nat, cursor: Option<Entry>)
    requires limit >= 1 && (cursor.Some? ==> Decodable(cursor.value))
    ensures var l, n := InOrder(board), CountThrough(board, cursor);
            && n <= |l|
            && GetPage(board, limit, cursor) ==
                 if limit < |l[n..]| then Page(Numbered(l[n..][..limit], n), Some(l[n + limit - 1])) else Page(Numbered(l[n..], n), None)
  {
    ResumesAt(board, cursor);
    CutPage(InOrder(board)[CountThrough(board, cursor)..], CountThrough(board, cursor), limit);
  }

  lemma ResumesAfterRow(board: set<Entry>, i: nat)
    requires i < |InOrder(board)|
    ensures CountThrough(board, Some(InOrder(board)[i])) == i + 1
  {
    BeforeIsStrictTotal();
    var c := InOrder(board)[i];
    forall e ensures SeekAfter(c, e) <==> Before(c, e) { SeekIsOrderBy(c, e); }
    assert (set e | e in board && SeekThrough(c, e)) == Through(board, Before, c);
    ThroughCountsTheRow(board, Before, i);
  }

  lemma SeekRowsCount(board: set<Entry>, cursor: Option<Entry>)
    ensures |SeekRows(board, cursor)| == |InOrder(board)| - CountThrough(board, cursor)
  {
    ResumesAt(board, cursor);
    InOrderLists(SeekRows(board, cursor));
  }

  lemma NextPageIsShorter(board: set<Entry>, limit: nat, cursor: Option<Entry>)
    requires limit >= 1 && GetPage(board, limit, cursor).Page? && GetPage(board, limit, cursor).next.Some?
    ensures |SeekRows(board, GetPage(board, limit, cursor).next)| < |SeekRows(board, cursor)|
  {
    PageIsSlice(board, limit, cursor);
    var n := CountThrough(board, cursor);
    ResumesAfterRow(board, n + limit - 1);
    SeekRowsCount(board, cursor);
    SeekRowsCount(board, GetPage(board, limit, cursor).next);
  }

  lemma FollowStep(board: set<Entry>, limit: nat, cursor: Option<Entry>)
    requires limit >= 1 && (cursor.Some? ==> Decodable(cursor.value)) && CountThrough(board, cursor) + limit < |InOrder(board)|
    ensures var n := CountThrough(board, cursor);
            var rest := Follow(board, limit, Some(InOrder(board)[n + limit - 1]));
            && Follow(board, limit, cursor) == (if rest.None? then None else Some(Numbered(InOrder(board)[n..][..limit], n) + rest.value))
            && (rest.Some? ==> Decodable(InOrder(board)[n + limit - 1]))
  {
    PageIsSlice(board, limit, cursor);
  }

  /** `walk` is what following cursors from position `from` of the list should read. */
  predicate ReadsRest(walk: Option<seq<Ranked>>, l: seq<Entry>, limit: nat, from: nat)
    requires limit >= 1 && from <= |l|
  {
    && (walk.Some? <==> PageEndsDecode(l, limit, from, Decodable))
    && (walk.Some? ==> walk.value == Numbered(l[from..], from))
  }

  lemma PrependPage(walk: Option<seq<Ranked>>, rest: Option<seq<Ranked>>, l: seq<Entry>, limit: nat, from: nat)
    requires limit >= 1 && from + limit < |l|
    requires if Decodable(l[from + limit - 1]) then ReadsRest(rest, l, limit, from + limit) else rest.None?
    requires walk == if rest.None? then None else Some(Numbered(l[from..][..limit], from) + rest.value)
    ensures ReadsRest(walk, l, limit, from)
  {
    NextPageEnds(l, limit, from, Decodable);
  }

  lemma LastPage(l: seq<Entry>, limit: nat, from: nat)
    requires limit >= 1 && from <= |l| <= from + limit
    ensures ReadsRest(Some(Numbered(l[from..], from)), l, limit, from)
  {
    NoPageEnds(l, limit, from, Decodable);
  }

  lemma {:induction false} FollowFrom(board: set<Entry>, limit: nat, cursor: Option<Entry>, l: seq<Entry>, n: nat)
    requires limit >= 1 && (cursor.Some? ==> Decodable(cursor.value))
    requires l == InOrder(board) && n == CountThrough(board, cursor) && n <= |l|
    ensures ReadsRest(Follow(board, limit, cursor), l, limit, n)
    decreases |l| - n
  {
    if n + limit < |l| {
      var next := l[n + limit - 1];
      ResumesAfterRow(board, n + limit - 1);
      FollowStep(board, limit, cursor);
      if Decodable(next) { FollowFrom(board, limit, Some(next), l, n + limit); }
      PrependPage(Follow(board, limit, cursor), Follow(board, limit, Some(next)), l, limit, n);
    } else {
      PageIsSlice(board, limit, cursor);
      LastPage(l, limit, n);
    }
  }

  /** Keyset pagination is exact: for any limit, following cursors over an unchanged board reads the whole sorted
      list once with ranks 1..n, if and only if every row that ends a page has a cursor the decoder accepts. */
  lemma FollowingCursorsIsExact(board: set<Entry>, limit: nat)
    requires limit >= 1
    ensures var l := InOrder(board);
            && |l| == |board| && (forall e :: e in l <==> e in board)
            && (forall i, j | 0 <= i < j < |l| :: Before(l[i], l[j]))
            && (Follow(board, limit, None).Some? <==> PageEndsDecode(l, limit, 0, Decodable))
            && (Follow(board, limit, None).Some? ==> Follow(board, limit, None).value == Numbered(l, 0))
  {
    FollowFrom(board, limit, None, InOrder(board), 0);
    InOrderLists(board);
    assert InOrder(board)[0..] == InOrder(board);
  }

  /** A board whose rows carry scores and durations that are not negative, a completion time and an id is read whole. */
  lemma LegalBoardIsReadWhole(board: set<Entry>, limit: nat)
    requires limit >= 1
    requires forall e | e in board :: e.score >= 0 && (e.duration.Some? ==> e.duration.value >= 0) && e.completedAt != 0 && e.id != 0
    ensures Follow(board, limit, None) == Some(Numbered(InOrder(board), 0))
  {
    FollowingCursorsIsExact(board, limit);
    InOrderLists(board);
    assert forall i | 0 <= i < |InOrder(board)| :: InOrder(board)[i] in board;
  }

  /** The condition cannot be dropped: any row but the last without a decodable cursor, such as one whose recorded
      duration is negative, stops the walk at the page size that ends a page on it. */
  lemma UndecodableRowStopsAWalk(board: set<Entry>, i: nat)
    requires i + 1 < |InOrder(board)| && !Decodable(InOrder(board)[i])
    ensures Follow(board, i + 1, None).None?
  {
    FollowingCursorsIsExact(board, i + 1);
    assert EndsPage(i, 0, i + 1);
  }

  /** Where a row sorted before all others stands. */
  lemma LeastIsFirst(board: set<Entry>, e: Entry)
    requires e in board && forall x | x in board :: x == e || Before(e, x)
    ensures |InOrder(board)| == |board| >= 1 && InOrder(board)[0] == e
  {
    BeforeIsStrictTotal();
    InOrderLists(board);
    assert e in InOrder(board);
    assert InOrder(board)[0] in board;
  }

  /** Such boards exist at every size: below a best score recorded with a negative duration nothing can be reached one
      row at a time. */
  lemma NegativeDurationStopsAWalk(board: set<Entry>, first: Entry)
    requires first in board && |board| >= 2 && first.duration.Some? && first.duration.value < 0
    requires forall x | x in board && x != first :: x.score < first.score
    ensures Follow(board, 1, None).None?
  {
    LeastIsFirst(board, first);
    UndecodableRowStopsAWalk(board, 0);
  }

  /** Two rows of a board whose walk stops. */
  lemma StoppedWalkExample()
    ensures Follow({Entry(900, Some(-1), 1, 1), Entry(500, None, 2, 2)}, 1, None).None?
  {
    var first, second := Entry(900, Some(-1), 1, 1), Entry(500, None, 2, 2);
    assert {first, second} - {first} == {second};
    NegativeDurationStopsAWalk({first, second}, first);
  }
}
