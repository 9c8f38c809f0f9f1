/** Reading a whole season ladder by following cursors. */
module SeasonWalks {
  import opened Wrappers
  import opened Rating
  import opened Ranking
  import opened Paging
  import opened RatingLedger
  import opened Seasons
  import opened LadderRuns
  import opened SeasonPages

  /** What decodeLeaderboardCursor accepts of what encodeLeaderboardCursor wrote. */
  predicate Decodable(p: Place) { p.rating >= 0 && p.wins >= 0 && p.user != 0 }

  lemma Fewer<T>(a: set<T>, b: set<T>, extra: T)
    requires a <= b && extra in b && extra !in a
    ensures |a| < |b|
  {
    assert b == a + (b - a);
    assert extra in b - a;
  }

  // ---- The live ladder ----

  datatype LiveReply = LiveData(data: seq<Entry>, next: Option<Place>) | InvalidCursor

  /** One row more than the limit is fetched to see whether a next page exists. */
  function GetLeaderboard(standings: Standings, sc: Scope, limit: nat, cursor: Option<Place>): LiveReply
    requires limit >= 1
  {
    if cursor.Some? && !Decodable(cursor.value) then InvalidCursor
    else
      var rows := Limit(LiveRows(standings, sc, cursor), limit + 1);
      LiveData(LivePage(standings, sc, limit, cursor), if |rows| > limit then Some(rows[limit - 1]) else None)
  }

  lemma LiveRowsShrink(standings: Standings, sc: Scope, cursor: Option<Place>, i: nat)
    requires i < |LiveRows(standings, sc, cursor)|
    ensures |LiveRows(standings, sc, Some(LiveRows(standings, sc, cursor)[i]))| < |LiveRows(standings, sc, cursor)|
  {
    PrecedesIsStrictTotal();
    var rows := Members(Top501(standings, sc));
    var x := LiveRows(standings, sc, cursor)[i];
    SortedIsAscending(SeekAfter(rows, cursor), Precedes);
    SortedIsAscending(SeekAfter(rows, Some(x)), Precedes);
    assert x in LiveRows(standings, sc, cursor);
    Fewer(SeekAfter(rows, Some(x)), SeekAfter(rows, cursor), x);
  }

  /** Everything a client reads by following cursors; None once a cursor is refused. */
  function FollowLive(standings: Standings, sc: Scope, limit: nat, cursor: Option<Place>): Option<seq<Entry>>
    requires limit >= 1
    decreases |LiveRows(standings, sc, cursor)|
  {
    var reply := GetLeaderboard(standings, sc, limit, cursor);
    if reply.InvalidCursor? then None
    else if reply.next.None? then Some(reply.data)
    else
      LiveRowsShrink(standings, sc, cursor, limit - 1);
      var rest := FollowLive(standings, sc, limit, reply.next);
      if rest.None? then None else Some(reply.data + rest.value)
  }

  /** The rows from position `from` on, each with its position in the whole list. */
  function Positioned(l: seq<Place>, from: nat): (r: seq<Entry>)
    requires from <= |l|
    ensures |r| == |l| - from && forall i | 0 <= i < |r| :: r[i] == Entry(l[from + i], from + i + 1)
  {
    seq(|l| - from, i requires 0 <= i < |l| - from => Entry(l[from + i], from + i + 1))
  }

  function CursorAt(l: seq<Place>, i: nat): Option<Place>
    requires i <= |l|
  {
    if i == 0 then None else Some(l[i - 1])
  }

  predicate ReadsRest(walk: Option<seq<Entry>>, l: seq<Place>, limit: nat, from: nat)
    requires limit >= 1 && from <= |l|
  {
    && (walk.Some? <==> PageEndsDecode(l, limit, from, Decodable))
    && (walk.Some? ==> walk.value == Positioned(l, from))
  }

  /** What the service returns at a position of the list. */
  lemma LiveReplyAt(standings: Standings, sc: Scope, limit: nat, l: seq<Place>, from: nat)
    requires limit >= 1 && l == Top501(standings, sc) && from <= |l| && (from > 0 ==> Decodable(l[from - 1]))
    ensures GetLeaderboard(standings, sc, limit, CursorAt(l, from)) ==
              if from + limit < |l| then LiveData(Positioned(l, from)[..limit], Some(l[from + limit - 1])) else LiveData(Positioned(l, from), None)
  {
    LiveRowsResume(standings, sc, from);
    LivePageResumes(standings, sc, limit, from);
    var page := LivePage(standings, sc, limit, CursorAt(l, from));
    if from + limit < |l| {
      assert page == Positioned(l, from)[..limit];
    } else {
      assert page == Positioned(l, from);
    }
  }

  lemma PrependPage(walk: Option<seq<Entry>>, rest: Option<seq<Entry>>, l: seq<Place>, limit: nat, from: nat)
    requires limit >= 1 && from + limit < |l|
    requires if Decodable(l[from + limit - 1]) then ReadsRest(rest, l, limit, from + limit) else rest.None?
    requires walk == if rest.None? then None else Some(Positioned(l, from)[..limit] + rest.value)
    ensures ReadsRest(walk, l, limit, from)
  {
    NextPageEnds(l, limit, from, Decodable);
  }

  lemma FollowLiveStep(standings: Standings, sc: Scope, limit: nat, l: seq<Place>, from: nat)
    requires limit >= 1 && l == Top501(standings, sc) && from <= |l| && (from > 0 ==> Decodable(l[from - 1]))
    ensures var walk := FollowLive(standings, sc, limit, CursorAt(l, from));
            if from + limit < |l|
            then
              var rest := FollowLive(standings, sc, limit, CursorAt(l, from + limit));
              && (rest.Some? ==> Decodable(l[from + limit - 1]))
              && walk == if rest.None? then None else Some(Positioned(l, from)[..limit] + rest.value)
            else walk == Some(Positioned(l, from))
  {
    LiveReplyAt(standings, sc, limit, l, from);
  }

  lemma {:induction false} FollowLiveFrom(standings: Standings, sc: Scope, limit: nat, l: seq<Place>, from: nat)
    requires limit >= 1 && l == Top501(standings, sc) && from <= |l| && (from > 0 ==> Decodable(l[from - 1]))
    ensures ReadsRest(FollowLive(standings, sc, limit, CursorAt(l, from)), l, limit, from)
    decreases |l| - from
  {
    FollowLiveStep(standings, sc, limit, l, from);
    var walk := FollowLive(standings, sc, limit, CursorAt(l, from));
    if from + limit < |l| {
      if Decodable(l[from + limit - 1]) { FollowLiveFrom(standings, sc, limit, l, from + limit); }
      PrependPage(walk, FollowLive(standings, sc, limit, CursorAt(l, from + limit)), l, limit, from);
    } else {
      NoPageEnds(l, limit, from, Decodable);
    }
  }

  /** For any page size, following cursors over an unchanged ladder reads its first 501 qualifying rows once, with
      positions 1..n, iff every row that ends a page has a cursor the decoder accepts. */
  lemma LiveWalkIsExact(standings: Standings, sc: Scope, limit: nat)
    requires limit >= 1
    ensures var l := Top501(standings, sc);
            && (FollowLive(standings, sc, limit, None).Some? <==> PageEndsDecode(l, limit, 0, Decodable))
            && (FollowLive(standings, sc, limit, None).Some? ==> FollowLive(standings, sc, limit, None).value == Positioned(l, 0))
  {
    FollowLiveFrom(standings, sc, limit, Top501(standings, sc), 0);
  }

  // ---- The frozen ladder of a closed season ----

  predicate DecodableRow(r: ClosedRow) { Decodable(r.place) }

  datatype ClosedReply = ClosedData(data: seq<ClosedRow>, next: Option<Place>) | InvalidClosedCursor

  function GetClosedLeaderboard(standings: Standings, season: SeasonId, limit: nat, cursor: Option<Place>): ClosedReply
    requires limit >= 1
  {
    if cursor.Some? && !Decodable(cursor.value) then InvalidClosedCursor
    else
      var rows := ListClosedTop500(standings, season, limit + 1, cursor);
      if |rows| > limit then ClosedData(rows[..limit], Some(rows[limit - 1].place)) else ClosedData(rows, None)
  }

  lemma ClosedRowsShrink(standings: Standings, season: SeasonId, limit: nat, cursor: Option<Place>, i: nat)
    requires i < |ListClosedTop500(standings, season, limit, cursor)|
    ensures |CutRows(ClosedRows(standings, season), Some(ListClosedTop500(standings, season, limit, cursor)[i].place))| < |CutRows(ClosedRows(standings, season), cursor)|
  {
    PrecedesIsStrictTotal();
    ByPositionIsStrictTotal();
    var rows := ClosedRows(standings, season);
    var x := ListClosedTop500(standings, season, limit, cursor)[i];
    SortedIsAscending(CutRows(rows, cursor), ByPosition);
    assert x in Sorted(CutRows(rows, cursor), ByPosition);
    Fewer(CutRows(rows, Some(x.place)), CutRows(rows, cursor), x);
  }

  function FollowClosed(standings: Standings, season: SeasonId, limit: nat, cursor: Option<Place>): Option<seq<ClosedRow>>
    requires limit >= 1
    decreases |CutRows(ClosedRows(standings, season), cursor)|
  {
    var reply := GetClosedLeaderboard(standings, season, limit, cursor);
    if reply.InvalidClosedCursor? then None
    else if reply.next.None? then Some(reply.data)
    else
      ClosedRowsShrink(standings, season, limit + 1, cursor, limit - 1);
      var rest := FollowClosed(standings, season, limit, reply.next);
      if rest.None? then None else Some(reply.data + rest.value)
  }

  function ClosedCursorAt(l: seq<ClosedRow>, i: nat): Option<Place>
    requires i <= |l|
  {
    if i == 0 then None else Some(l[i - 1].place)
  }

  predicate ReadsClosedRest(walk: Option<seq<ClosedRow>>, l: seq<ClosedRow>, limit: nat, from: nat)
    requires limit >= 1 && from <= |l|
  {
    && (walk.Some? <==> PageEndsDecode(l, limit, from, DecodableRow))
    && (walk.Some? ==> walk.value == l[from..])
  }

  lemma ClosedReplyAt(standings: Standings, season: SeasonId, limit: nat, l: seq<ClosedRow>, from: nat)
    requires limit >= 1 && PositionsFollowOrder(standings, season)
    requires l == ClosedList(standings, season) && from <= |l| && (from > 0 ==> DecodableRow(l[from - 1]))
    ensures GetClosedLeaderboard(standings, season, limit, ClosedCursorAt(l, from)) ==
              if from + limit < |l| then ClosedData(l[from..][..limit], Some(l[from + limit - 1].place)) else ClosedData(l[from..], None)
  {
    ClosedPageResumes(standings, season, limit + 1, from);
    assert from + limit < |l| ==> Limit(l[from..], limit + 1)[..limit] == l[from..][..limit];
  }

  lemma PrependClosedPage(walk: Option<seq<ClosedRow>>, rest: Option<seq<ClosedRow>>, l: seq<ClosedRow>, limit: nat, from: nat)
    requires limit >= 1 && from + limit < |l|
    requires if DecodableRow(l[from + limit - 1]) then ReadsClosedRest(rest, l, limit, from + limit) else rest.None?
    requires walk == if rest.None? then None else Some(l[from..][..limit] + rest.value)
    ensures ReadsClosedRest(walk, l, limit, from)
  {
    NextPageEnds(l, limit, from, DecodableRow);
    assert l[from..][..limit] + l[from + limit..] == l[from..];
  }

  lemma FollowClosedStep(standings: Standings, season: SeasonId, limit: nat, l: seq<ClosedRow>, from: nat)
    requires limit >= 1 && PositionsFollowOrder(standings, season)
    requires l == ClosedList(standings, season) && from <= |l| && (from > 0 ==> DecodableRow(l[from - 1]))
    ensures var walk := FollowClosed(standings, season, limit, ClosedCursorAt(l, from));
            if from + limit < |l|
            then
              var rest := FollowClosed(standings, season, limit, ClosedCursorAt(l, from + limit));
              && (rest.Some? ==> DecodableRow(l[from + limit - 1]))
              && walk == if rest.None? then None else Some(l[from..][..limit] + rest.value)
            else walk == Some(l[from..])
  {
    ClosedReplyAt(standings, season, limit, l, from);
  }

  lemma {:induction false} FollowClosedFrom(standings: Standings, season: SeasonId, limit: nat, l: seq<ClosedRow>, from: nat)
    requires limit >= 1 && PositionsFollowOrder(standings, season)
    requires l == ClosedList(standings, season) && from <= |l| && (from > 0 ==> DecodableRow(l[from - 1]))
    ensures ReadsClosedRest(FollowClosed(standings, season, limit, ClosedCursorAt(l, from)), l, limit, from)
    decreases |l| - from
  {
    FollowClosedStep(standings, season, limit, l, from);
    var walk := FollowClosed(standings, season, limit, ClosedCursorAt(l, from));
    if from + limit < |l| {
      if DecodableRow(l[from + limit - 1]) { FollowClosedFrom(standings, season, limit, l, from + limit); }
      PrependClosedPage(walk, FollowClosed(standings, season, limit, ClosedCursorAt(l, from + limit)), l, limit, from);
    } else {
      NoPageEnds(l, limit, from, DecodableRow);
    }
  }

  // ---- In every reachable state ----

  lemma TopDecodes(l: Ladder, sc: Scope, i: nat)
    requires Telescoping(l) && 0 !in sc.goodStanding && i < |Top501(l.standings, sc)|
    ensures Decodable(Top501(l.standings, sc)[i])
  {
    PrecedesIsStrictTotal();
    SortedIsAscending(EligiblePlaces(l.standings, sc), Precedes);
    var p := Top501(l.standings, sc)[i];
    assert p == RankedPlaces(l.standings, sc)[i];
    assert p in EligiblePlaces(l.standings, sc);
    var u :| u in sc.goodStanding && Qualifies(l.standings, sc, u) && p == PlaceOf(u, l.standings[(sc.season, u)]);
    assert Telescopes(l.standings[(sc.season, u)], History(l.changes, sc.season, u));
  }

  lemma ClosedDecodes(l: Ladder, season: SeasonId, i: nat)
    requires Telescoping(l) && (forall k | k in l.standings :: k.1 != 0) && i < |ClosedList(l.standings, season)|
    ensures DecodableRow(ClosedList(l.standings, season)[i])
  {
    ByPositionIsStrictTotal();
    SortedIsAscending(ClosedRows(l.standings, season), ByPosition);
    var r := ClosedList(l.standings, season)[i];
    assert r in ClosedRows(l.standings, season);
    var k :| k in l.standings && k.0 == season && Placed(l.standings, k) && r == ClosedRow(l.standings[k].finalPosition.value, PlaceOf(k.1, l.standings[k]));
    assert Telescopes(l.standings[k], History(l.changes, k.0, k.1));
  }

  /** After every run, for any page size, the live walk of any season reads its whole ladder up to the bound of 501 with
      positions 1..n: no rating or win count a cursor carries is ever refused. */
  lemma LiveWalkReadsTheLadder(first: Season, e: Expectation, steps: seq<Step>, sc: Scope, limit: nat)
    requires first.status.SeasonActive? && limit >= 1 && 0 !in sc.goodStanding
    ensures var standings := Run(NewLadder(first), e, steps).standings;
            FollowLive(standings, sc, limit, None) == Some(Positioned(Top501(standings, sc), 0))
  {
    var l := Run(NewLadder(first), e, steps);
    NewLadderIsWellFormed(first);
    RunKeepsInv(NewLadder(first), e, steps);
    LiveWalkIsExact(l.standings, sc, limit);
    forall i | 0 <= i < |Top501(l.standings, sc)| ensures Decodable(Top501(l.standings, sc)[i]) { TopDecodes(l, sc, i); }
  }

  /** After every run, for any page size, the walk of any closed season reads its whole frozen list, in position order. */
  lemma ClosedWalkReadsTheLadder(first: Season, e: Expectation, steps: seq<Step>, season: SeasonId, limit: nat)
    requires first.status.SeasonActive? && limit >= 1
    requires var r := Run(NewLadder(first), e, steps); season + 1 < |r.seasons| && forall k | k in r.standings :: k.1 != 0
    ensures var standings := Run(NewLadder(first), e, steps).standings;
            FollowClosed(standings, season, limit, None) == Some(ClosedList(standings, season))
  {
    var l := Run(NewLadder(first), e, steps);
    NewLadderIsWellFormed(first);
    RunKeepsInv(NewLadder(first), e, steps);
    RunKeepsPositions(NewLadder(first), e, steps);
    FollowClosedFrom(l.standings, season, limit, ClosedList(l.standings, season), 0);
    forall i | 0 <= i < |ClosedList(l.standings, season)| ensures DecodableRow(ClosedList(l.standings, season)[i]) { ClosedDecodes(l, season, i); }
    assert ClosedList(l.standings, season)[0..] == ClosedList(l.standings, season);
  }
}
