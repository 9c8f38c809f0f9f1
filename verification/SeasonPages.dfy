/** Leaderboard pages of live and closed seasons, against the whole ranked list. */
module SeasonPages {
  import opened Wrappers
  import opened Scoring
  import opened Rating
  import opened Ranking
  import opened RatingLedger
  import opened Seasons
  import opened LadderRuns

  // ---- The live page ----

  datatype Entry = Entry(place: Place, position: int)

  function Top501(standings: Standings, sc: Scope): seq<Place> { Limit(RankedPlaces(standings, sc), TOP_500_LIMIT + 1) }

  function Members(l: seq<Place>): set<Place> { set p | p in l }

  function SeekAfter(rows: set<Place>, cursor: Option<Place>): set<Place> { set p | p in rows && (cursor.None? || SeekPast(cursor.value, p)) }

  lemma SuffixAfter(l: seq<Place>, i: nat)
    requires StrictTotal(Precedes) && Ascending(l, Precedes) && i < |l|
    ensures Sorted(SeekAfter(Members(l), Some(l[i])), Precedes) == l[i + 1..]
  {
    var rows := Members(l);
    SortedIs(rows, l, Precedes);
    forall p | p in rows ensures SeekPast(l[i], p) <==> Precedes(l[i], p) { SeekIsLadderOrder(l[i], p); }
    assert SeekAfter(rows, Some(l[i])) == After(rows, Precedes, l[i]);
    SeekCutsTheList(rows, Precedes, l[i]);
    ThroughCountsTheRow(rows, Precedes, i);
  }

  function LiveRows(standings: Standings, sc: Scope, cursor: Option<Place>): seq<Place> {
    PrecedesIsStrictTotal();
    Sorted(SeekAfter(Members(Top501(standings, sc)), cursor), Precedes)
  }

  /** Seeks within the first 501 qualifying rows; on later pages the first row's live position starts the count. */
  function LivePage(standings: Standings, sc: Scope, limit: nat, cursor: Option<Place>): seq<Entry> {
    var rows := Limit(LiveRows(standings, sc, cursor), limit);
    if rows == [] then []
    else
      var live := LivePosition(standings, sc, rows[0].user);
      var start := if cursor.Some? && live.Some? then live.value else 1;
      seq(|rows|, i requires 0 <= i < |rows| => Entry(rows[i], start + i))
  }

  lemma TopIsAscending(standings: Standings, sc: Scope)
    ensures Ascending(Top501(standings, sc), Precedes)
  {
    PrecedesIsStrictTotal();
    SortedIsAscending(EligiblePlaces(standings, sc), Precedes);
  }

  lemma SuffixFrom(l: seq<Place>, i: nat)
    requires StrictTotal(Precedes) && Ascending(l, Precedes) && i <= |l|
    ensures Sorted(SeekAfter(Members(l), if i == 0 then None else Some(l[i - 1])), Precedes) == l[i..]
  {
    if i == 0 {
      assert SeekAfter(Members(l), None) == Members(l);
      SortedIs(Members(l), l, Precedes);
      assert l[0..] == l;
    } else {
      SuffixAfter(l, i - 1);
    }
  }

  lemma LiveRowsResume(standings: Standings, sc: Scope, i: nat)
    requires i <= |Top501(standings, sc)|
    ensures var top := Top501(standings, sc);
            LiveRows(standings, sc, if i == 0 then None else Some(top[i - 1])) == top[i..]
  {
    PrecedesIsStrictTotal();
    TopIsAscending(standings, sc);
    SuffixFrom(Top501(standings, sc), i);
  }

  /** Resuming after the i-th row of the list returns the rows behind it with their positions in the whole list. */
  lemma LivePageResumes(standings: Standings, sc: Scope, limit: nat, i: nat)
    requires i <= |Top501(standings, sc)|
    ensures var top := Top501(standings, sc);
            var page := LivePage(standings, sc, limit, if i == 0 then None else Some(top[i - 1]));
            && |page| == |Limit(top[i..], limit)|
            && forall j | 0 <= j < |page| :: page[j] == Entry(top[i + j], i + j + 1)
  {
    LiveRowsResume(standings, sc, i);
    if i < |Top501(standings, sc)| { LivePositionAt(standings, sc, i); }
  }

  lemma LivePositionAt(standings: Standings, sc: Scope, i: nat)
    requires i < |Top501(standings, sc)|
    ensures LivePosition(standings, sc, Top501(standings, sc)[i].user) == Some(i + 1)
  {
    PositionsAreTheRanking(standings, sc);
    FrozenPositionIsLivePosition(standings, sc, Top501(standings, sc)[i].user);
  }

  // ---- The closed page ----

  datatype ClosedRow = ClosedRow(position: int, place: Place)

  /** ORDER BY final_position, then the ladder order. */
  predicate ByPosition(x: ClosedRow, y: ClosedRow) {
    if x.position != y.position then x.position < y.position else Precedes(x.place, y.place)
  }

  lemma ByPositionIsStrictTotal()
    ensures StrictTotal(ByPosition)
  {
    PrecedesIsStrictTotal();
  }

  predicate Placed(standings: Standings, k: (SeasonId, UserId)) { k in standings && standings[k].finalPosition.Some? }

  /** WHERE final_position <= 500. */
  function ClosedRows(standings: Standings, season: SeasonId): set<ClosedRow> {
    set k | k in standings && k.0 == season && Placed(standings, k) && standings[k].finalPosition.value <= TOP_500_LIMIT
      :: ClosedRow(standings[k].finalPosition.value, PlaceOf(k.1, standings[k]))
  }

  function ClosedList(standings: Standings, season: SeasonId): seq<ClosedRow> {
    ByPositionIsStrictTotal();
    Sorted(ClosedRows(standings, season), ByPosition)
  }

  /** The closed list is the season's standings with a final position up to 500, in position order. */
  lemma ClosedListIsTop500(standings: Standings, season: SeasonId)
    ensures var l := ClosedList(standings, season);
            && (forall i, j | 0 <= i < j < |l| :: l[i].position <= l[j].position)
            && (forall i | 0 <= i < |l| ::
                  var k := (season, l[i].place.user);
                  k in standings && standings[k].finalPosition == Some(l[i].position) && l[i].position <= 500 && l[i].place.rating == standings[k].rating)
            && (forall k | k in standings && k.0 == season && standings[k].finalPosition.Some? && standings[k].finalPosition.value <= 500 ::
                  ClosedRow(standings[k].finalPosition.value, PlaceOf(k.1, standings[k])) in l)
  {
    ByPositionIsStrictTotal();
    SortedIsAscending(ClosedRows(standings, season), ByPosition);
    var l := ClosedList(standings, season);
    forall i | 0 <= i < |l|
      ensures
        var k := (season, l[i].place.user);
        k in standings && standings[k].finalPosition == Some(l[i].position) && l[i].position <= 500 && l[i].place.rating == standings[k].rating
    {
      assert l[i] in ClosedRows(standings, season);
    }
  }

  function CutRows(rows: set<ClosedRow>, cursor: Option<Place>): set<ClosedRow> {
    set r | r in rows && (cursor.None? || SeekPast(cursor.value, r.place))
  }

  /** Ordered by final position, but cut by the (rating, wins, reached, user) cursor. */
  function ListClosedTop500(standings: Standings, season: SeasonId, limit: nat, cursor: Option<Place>): seq<ClosedRow> {
    ByPositionIsStrictTotal();
    Limit(Sorted(CutRows(ClosedRows(standings, season), cursor), ByPosition), limit)
  }

  /** The frozen positions of a season follow the order the cursor cuts by. */
  predicate PositionsFollowOrder(standings: Standings, season: SeasonId) {
    forall x, y | x in standings && y in standings && x.0 == season && y.0 == season && Placed(standings, x) && Placed(standings, y) ::
      standings[x].finalPosition.value < standings[y].finalPosition.value <==> Precedes(PlaceOf(x.1, standings[x]), PlaceOf(y.1, standings[y]))
  }

  lemma CutsAgree(standings: Standings, season: SeasonId, x: ClosedRow, y: ClosedRow)
    requires PositionsFollowOrder(standings, season) && x in ClosedRows(standings, season) && y in ClosedRows(standings, season)
    ensures Precedes(x.place, y.place) <==> ByPosition(x, y)
  {
    PrecedesIsStrictTotal();
  }

  lemma CutIsAfter(standings: Standings, season: SeasonId, c: ClosedRow)
    requires PositionsFollowOrder(standings, season) && c in ClosedRows(standings, season)
    ensures CutRows(ClosedRows(standings, season), Some(c.place)) == After(ClosedRows(standings, season), ByPosition, c)
  {
    var rows := ClosedRows(standings, season);
    forall r | r in rows ensures SeekPast(c.place, r.place) <==> ByPosition(c, r) {
      SeekIsLadderOrder(c.place, r.place);
      CutsAgree(standings, season, c, r);
    }
  }

  lemma AfterTheRow(rows: set<ClosedRow>, i: nat)
    requires StrictTotal(ByPosition) && i < |Sorted(rows, ByPosition)|
    ensures Sorted(rows, ByPosition)[i] in rows
    ensures Sorted(After(rows, ByPosition, Sorted(rows, ByPosition)[i]), ByPosition) == Sorted(rows, ByPosition)[i + 1..]
  {
    SortedIsAscending(rows, ByPosition);
    assert Sorted(rows, ByPosition)[i] in Sorted(rows, ByPosition);
    SeekCutsTheList(rows, ByPosition, Sorted(rows, ByPosition)[i]);
    ThroughCountsTheRow(rows, ByPosition, i);
  }

  /** Closed pages lose and repeat nothing: resuming after the i-th row returns exactly the rows behind it. */
  lemma ClosedPageResumes(standings: Standings, season: SeasonId, limit: nat, i: nat)
    requires PositionsFollowOrder(standings, season) && i <= |ClosedList(standings, season)|
    ensures var l := ClosedList(standings, season);
            ListClosedTop500(standings, season, limit, if i == 0 then None else Some(l[i - 1].place)) == Limit(l[i..], limit)
  {
    ByPositionIsStrictTotal();
    var rows, l := ClosedRows(standings, season), ClosedList(standings, season);
    if i == 0 {
      assert CutRows(rows, None) == rows;
      assert l[0..] == l;
    } else {
      AfterTheRow(rows, i - 1);
      CutIsAfter(standings, season, l[i - 1]);
    }
  }

  // ---- In every reachable state ----

  predicate Unplaced(standings: Standings, season: SeasonId) { forall k | k in standings && k.0 == season :: standings[k].finalPosition.None? }

  /** Positions exist only in closed seasons, and follow the order there. */
  predicate PositionsOk(l: Ladder) {
    && (forall k | k in l.standings && k.0 + 1 >= |l.seasons| :: l.standings[k].finalPosition.None?)
    && forall s: SeasonId | s + 1 < |l.seasons| :: PositionsFollowOrder(l.standings, s)
  }

  lemma FreezingOrders(standings: Standings, sc: Scope)
    requires Unplaced(standings, sc.season)
    ensures PositionsFollowOrder(Frozen(standings, sc), sc.season)
  {
    var frozen := Frozen(standings, sc);
    forall x, y | x in frozen && y in frozen && x.0 == sc.season && y.0 == sc.season && Placed(frozen, x) && Placed(frozen, y)
      ensures frozen[x].finalPosition.value < frozen[y].finalPosition.value <==> Precedes(PlaceOf(x.1, frozen[x]), PlaceOf(y.1, frozen[y]))
    {
      PlacedIsRanked(standings, sc, x);
      PlacedIsRanked(standings, sc, y);
      PositionsCompare(standings, sc, x.1, y.1);
    }
  }

  lemma PlacedIsRanked(standings: Standings, sc: Scope, k: (SeasonId, UserId))
    requires k in standings && k.0 == sc.season && standings[k].finalPosition.None? && Placed(Frozen(standings, sc), k)
    ensures Qualifies(standings, sc, k.1) && Frozen(standings, sc)[k].finalPosition == PositionOf(standings, sc, k.1)
    ensures PlaceOf(k.1, Frozen(standings, sc)[k]) == PlaceOf(k.1, standings[k])
  {
  }

  lemma PositionsCompare(standings: Standings, sc: Scope, x: UserId, y: UserId)
    requires Qualifies(standings, sc, x) && Qualifies(standings, sc, y)
    ensures PositionOf(standings, sc, x).value < PositionOf(standings, sc, y).value
       <==> Precedes(PlaceOf(x, standings[(sc.season, x)]), PlaceOf(y, standings[(sc.season, y)]))
  {
    var i := RankOf(standings, sc, x);
    var j := RankOf(standings, sc, y);
    if i < j { RankedInOrder(standings, sc, i, j); }
    if j < i { RankedInOrder(standings, sc, j, i); }
  }

  // ---- Positions, read from the standings' own columns ----

  /** Rating first, then wins, then who reached the rating earlier, then the lower id. */
  predicate Outranks(standings: Standings, season: SeasonId, x: UserId, y: UserId)
    requires (season, x) in standings && (season, y) in standings
  {
    var a, b := standings[(season, x)], standings[(season, y)];
    || a.rating > b.rating
    || (a.rating == b.rating && a.wins > b.wins)
    || (a.rating == b.rating && a.wins == b.wins && a.reachedAt < b.reachedAt)
    || (a.rating == b.rating && a.wins == b.wins && a.reachedAt == b.reachedAt && x < y)
  }

  /** An active account with five placements, enough matches and a rating of 2000. */
  predicate HoldsPosition(standings: Standings, sc: Scope, user: UserId) {
    && user in sc.goodStanding && (sc.season, user) in standings
    && var st := standings[(sc.season, user)];
       st.placements >= 5 && st.played >= (if sc.minMatches < 1 then 25 else sc.minMatches) && st.rating >= 2000
  }

  function Outrankers(standings: Standings, sc: Scope, user: UserId): set<UserId>
    requires (sc.season, user) in standings
  {
    set u | u in sc.goodStanding && HoldsPosition(standings, sc, u) && Outranks(standings, sc.season, u, user)
  }

  function UsersAt(places: set<Place>): set<UserId> { set p | p in places :: p.user }

  lemma {:induction false} OnePlaceEach(places: set<Place>)
    requires forall p, q | p in places && q in places && p.user == q.user :: p == q
    ensures |UsersAt(places)| == |places|
    decreases |places|
  {
    if places != {} {
      var p :| p in places;
      OnePlaceEach(places - {p});
      assert UsersAt(places) == UsersAt(places - {p}) + {p.user};
      assert p.user !in UsersAt(places - {p});
    }
  }

  lemma AheadAreOutrankers(standings: Standings, sc: Scope, user: UserId)
    requires (sc.season, user) in standings
    ensures UsersAt(Ahead(EligiblePlaces(standings, sc), Precedes, PlaceOf(user, standings[(sc.season, user)]))) == Outrankers(standings, sc, user)
  {
    var own := PlaceOf(user, standings[(sc.season, user)]);
    var ahead := Ahead(EligiblePlaces(standings, sc), Precedes, own);
    forall u | u in UsersAt(ahead) ensures u in Outrankers(standings, sc, user) {
      var p :| p in ahead && p.user == u;
      EligiblePlaceIsOwn(standings, sc, p);
    }
    forall u | u in Outrankers(standings, sc, user) ensures u in UsersAt(ahead) {
      var p := PlaceOf(u, standings[(sc.season, u)]);
      EligiblePlaceIsOwn(standings, sc, p);
      assert p in ahead;
    }
  }

  /** Freezing gives exactly the qualifying users a position: one more than the number of qualifying users who outrank
      them. So of two qualifying users the one with the higher rating gets the smaller position, at equal rating the one
      with more wins, then the earlier one to reach it, then the lower id. */
  lemma PositionCountsOutrankers(standings: Standings, sc: Scope, user: UserId)
    requires (sc.season, user) in standings
    ensures var k := (sc.season, user);
            && k in Frozen(standings, sc)
            && Frozen(standings, sc)[k].finalPosition
                 == if HoldsPosition(standings, sc, user) then Some(1 + |Outrankers(standings, sc, user)|) else standings[k].finalPosition
  {
    var ahead := Ahead(EligiblePlaces(standings, sc), Precedes, PlaceOf(user, standings[(sc.season, user)]));
    forall p, q | p in ahead && q in ahead && p.user == q.user ensures p == q {
      EligiblePlaceIsOwn(standings, sc, p);
      EligiblePlaceIsOwn(standings, sc, q);
    }
    OnePlaceEach(ahead);
    AheadAreOutrankers(standings, sc, user);
  }

  lemma SmallerPositionOutranks(standings: Standings, sc: Scope, x: UserId, y: UserId)
    requires HoldsPosition(standings, sc, x) && HoldsPosition(standings, sc, y)
    ensures var frozen := Frozen(standings, sc);
            && (sc.season, x) in frozen && (sc.season, y) in frozen
            && var i, j := frozen[(sc.season, x)].finalPosition, frozen[(sc.season, y)].finalPosition;
               && i.Some? && j.Some?
               && (i.value < j.value <==> Outranks(standings, sc.season, x, y))
               && (standings[(sc.season, x)].rating > standings[(sc.season, y)].rating ==> i.value < j.value)
    ensures PositionOf(standings, sc, x).Some? && PositionOf(standings, sc, y).Some?
    ensures PositionOf(standings, sc, x).value < PositionOf(standings, sc, y).value <==> Outranks(standings, sc.season, x, y)
  {
    PositionsCompare(standings, sc, x, y);
  }

  lemma RankedInOrder(standings: Standings, sc: Scope, i: nat, j: nat)
    requires i < j < |RankedPlaces(standings, sc)|
    ensures var l := RankedPlaces(standings, sc); Precedes(l[i], l[j]) && !Precedes(l[j], l[i])
  {
    PositionsAreTheRanking(standings, sc);
  }

  lemma RankOf(standings: Standings, sc: Scope, user: UserId) returns (i: nat)
    requires Qualifies(standings, sc, user)
    ensures i < |RankedPlaces(standings, sc)| && RankedPlaces(standings, sc)[i] == PlaceOf(user, standings[(sc.season, user)])
    ensures PositionOf(standings, sc, user) == Some(i + 1)
  {
    PositionsAreTheRanking(standings, sc);
    i :| 0 <= i < |RankedPlaces(standings, sc)| && RankedPlaces(standings, sc)[i] == PlaceOf(user, standings[(sc.season, user)]);
  }

  /** The placed rows of a season are untouched, and every other row of it has no position. */
  predicate SamePlacements(a: Standings, b: Standings, season: SeasonId) {
    && (forall k | k in a && k.0 == season && Placed(a, k) :: k in b && b[k] == a[k])
    && (forall k | k in b && k.0 == season && Placed(b, k) :: k in a && b[k] == a[k])
  }

  lemma SamePlacementsFollow(a: Standings, b: Standings, season: SeasonId)
    requires PositionsFollowOrder(a, season) && SamePlacements(a, b, season)
    ensures PositionsFollowOrder(b, season)
  {
    assert forall k | k in b && k.0 == season && Placed(b, k) :: Placed(a, k);
  }

  lemma FinalizePlacesNobody(l: Ladder, input: FinalizeInput, e: Expectation)
    requires SeasonsOk(l.seasons)
    ensures var r := Finalize(l, input, e).0;
            && r.seasons == l.seasons
            && (forall k | k in l.standings :: k in r.standings && r.standings[k].finalPosition == l.standings[k].finalPosition)
            && (forall k | k in l.standings && k.0 + 1 != |l.seasons| :: r.standings[k] == l.standings[k])
            && (forall k | k in r.standings && k !in l.standings :: r.standings[k].finalPosition.None?)
  {
    ActiveIsLast(l.seasons);
    var c, standings := FinalizeCases(l, input, e);
  }

  lemma RollOverPlaces(l: Ladder, cfg: RolloverConfig, goodStanding: set<UserId>, now: Instant)
    requires SeasonsOk(l.seasons) && Owned(l) && PositionsOk(l)
    ensures PositionsOk(RollOver(l, cfg, goodStanding, now).0)
  {
    ActiveIsLast(l.seasons);
    var r := RollOver(l, cfg, goodStanding, now).0;
    if r != l {
      var id := |l.seasons| - 1;
      FreezingOrders(l.standings, Scope(id, l.seasons[id].top500Min, goodStanding));
      forall s: SeasonId | s + 1 < |r.seasons| ensures PositionsFollowOrder(r.standings, s) {
        if s != id { SamePlacementsFollow(l.standings, r.standings, s); }
      }
    }
  }

  lemma NextKeepsPositions(l: Ladder, e: Expectation, step: Step)
    requires SeasonsOk(l.seasons) && Owned(l) && PositionsOk(l)
    ensures PositionsOk(Next(l, e, step))
  {
    match step
    case RollOverStep(cfg, goodStanding, now) => RollOverPlaces(l, cfg, goodStanding, now);
    case ReportStep(_, _) =>
    case FinalizeStep(input) =>
      FinalizePlacesNobody(l, input, e);
      OthersKeepPositions(l, Next(l, e, step));
    case EnsureStep(_, _, _, _) => OthersKeepPositions(l, Next(l, e, step));
  }

  lemma OthersKeepPositions(l: Ladder, r: Ladder)
    requires PositionsOk(l) && r.seasons == l.seasons
    requires forall k | k in l.standings :: k in r.standings && r.standings[k].finalPosition == l.standings[k].finalPosition
    requires forall k | k in l.standings && k.0 + 1 != |l.seasons| :: r.standings[k] == l.standings[k]
    requires forall k | k in r.standings && k !in l.standings :: r.standings[k].finalPosition.None?
    ensures PositionsOk(r)
  {
    forall s: SeasonId | s + 1 < |r.seasons| ensures PositionsFollowOrder(r.standings, s) {
      SamePlacementsFollow(l.standings, r.standings, s);
    }
  }

  lemma {:induction false} RunKeepsPositions(l: Ladder, e: Expectation, steps: seq<Step>)
    requires Inv(l) && PositionsOk(l)
    ensures PositionsOk(Run(l, e, steps))
  {
    if steps != [] {
      RunKeepsPositions(l, e, steps[..|steps| - 1]);
      RunKeepsInv(l, e, steps[..|steps| - 1]);
      NextKeepsPositions(Run(l, e, steps[..|steps| - 1]), e, steps[|steps| - 1]);
    }
  }

  /** In every reachable state the pages of every closed season tile its frozen list. */
  lemma ClosedSeasonsPageExactly(first: Season, e: Expectation, steps: seq<Step>, season: SeasonId, limit: nat, i: nat)
    requires first.status.SeasonActive?
    requires var r := Run(NewLadder(first), e, steps);
             season + 1 < |r.seasons| && i <= |ClosedList(r.standings, season)|
    ensures var r := Run(NewLadder(first), e, steps);
            var l := ClosedList(r.standings, season);
            ListClosedTop500(r.standings, season, limit, if i == 0 then None else Some(l[i - 1].place)) == Limit(l[i..], limit)
  {
    NewLadderIsWellFormed(first);
    RunKeepsPositions(NewLadder(first), e, steps);
    ClosedPageResumes(Run(NewLadder(first), e, steps).standings, season, limit, i);
  }
}
