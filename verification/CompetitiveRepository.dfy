/** The competitive transactions as they run: loops over participants and standings, committed at the end. */
module CompetitiveRepository {
  import opened Wrappers
  import opened Scoring
  import opened Rating
  import opened Ranking
  import opened RatingLedger
  import opened Seasons
  import opened LadderRuns

  /** Deduplicated, then sorted; the zero id is dropped. */
  method UniqueSortedUserIDs(ids: seq<UserId>) returns (out: seq<UserId>)
    ensures forall u :: u in out <==> u in ids && u != 0
    ensures forall i, j | 0 <= i < j < |out| :: out[i] < out[j]
  {
    var seen: set<UserId> := {};
    var i := 0;
    while i < |ids|
      invariant 0 <= i <= |ids|
      invariant forall u :: u in seen <==> u in ids[..i] && u != 0
    {
      if ids[i] != 0 && ids[i] !in seen { seen := seen + {ids[i]}; }
      assert ids[..i + 1] == ids[..i] + [ids[i]];
      i := i + 1;
    }
    assert ids[..i] == ids;
    out := Sorted(seen, Lower);
    SortedIsAscending(seen, Lower);
  }

  predicate Lower(x: UserId, y: UserId) { x < y }

  // ---- Prefixes of the participant list ----

  lemma PrefixGrows(parts: seq<Participant>, i: nat)
    requires i < |parts|
    ensures parts[..i + 1][..i] == parts[..i] && parts[..i + 1][i] == parts[i]
  {
  }

  lemma {:induction false} FindPrefix(parts: seq<Participant>, i: nat)
    requires Ordered(parts) && i < |parts|
    ensures Find(parts[..i], parts[i].user).None?
    ensures forall u | u != parts[i].user :: Find(parts[..i + 1], u) == Find(parts[..i], u)
    ensures Find(parts[..i + 1], parts[i].user) == Some(parts[i])
  {
    PrefixGrows(parts, i);
    OrderedIsDistinct(parts);
    FindFinds(parts[..i], parts[i].user);
  }

  /** Playing one more participant changes that participant's standing only. */
  lemma PlayStandingsGrows(standings: Standings, parts: seq<Participant>, i: nat, c: Pairing)
    requires AllStand(standings, c.season, parts) && Ordered(parts) && i < |parts|
    ensures AllStand(standings, c.season, parts[..i]) && AllStand(standings, c.season, parts[..i + 1])
    ensures var k := (c.season, parts[i].user);
            var before := PlayStandings(standings, parts[..i], c);
            && before[k] == standings[k]
            && PlayStandings(standings, parts[..i + 1], c)
                 == before[k := Played(standings[k], ChangeOf(c, parts[i], standings[k]), parts[i].abandoned)]
            && PlayChanges(standings, parts[..i + 1], c) == PlayChanges(standings, parts[..i], c) + [ChangeOf(c, parts[i], standings[k])]
  {
    FindPrefix(parts, i);
    PrefixGrows(parts, i);
  }

  /** The inserts made so far are of other users, so they cannot collide with the next one. */
  lemma OwnInsertsDoNotCollide(changes: seq<Change>, chs: seq<Change>, standings: Standings, parts: seq<Participant>, i: nat, c: Pairing)
    requires AllStand(standings, c.season, parts) && Ordered(parts) && i < |parts| && chs == PlayChanges(standings, parts[..i], c)
    ensures HasChange(changes + chs, c.matchId, parts[i].user) <==> HasChange(changes, c.matchId, parts[i].user)
  {
    var user, all := parts[i].user, changes + chs;
    PlayChangesAt(standings, parts[..i], c);
    OrderedIsDistinct(parts);
    if n :| 0 <= n < |changes| && changes[n].matchId == c.matchId && changes[n].user == user {
      assert all[n] == changes[n];
    }
    if HasChange(all, c.matchId, user) {
      var n :| 0 <= n < |all| && all[n].matchId == c.matchId && all[n].user == user;
      if n >= |changes| { assert all[n] == chs[n - |changes|]; }
    }
  }

  lemma {:induction false} ErrorPersists(changes: seq<Change>, id: MatchId, parts: seq<Participant>, magnitude: int, i: nat)
    requires i <= |parts| && InsertError(changes, id, parts[..i], magnitude).Some?
    ensures InsertError(changes, id, parts, magnitude) == InsertError(changes, id, parts[..i], magnitude)
    decreases |parts| - i
  {
    if i < |parts| {
      PrefixGrows(parts, i);
      ErrorPersists(changes, id, parts, magnitude, i + 1);
    } else {
      assert parts[..i] == parts;
    }
  }

  function RefusedInsert(changes: seq<Change>, p: Participant, c: Pairing): Option<FinalizeError> {
    if p.abandoned && c.magnitude != DEFAULT_ABANDON_PENALTY then Some(CheckViolation)
    else if HasChange(changes, c.matchId, p.user) then Some(ProgressionPending)
    else None
  }

  /** One round of the participant loop, against the prefixes it has handled. */
  lemma ApplyNext(changes: seq<Change>, made: seq<Change>, ensured: Standings, parts: seq<Participant>, i: nat, c: Pairing)
    requires AllStand(ensured, c.season, parts) && Ordered(parts) && i < |parts| && made == PlayChanges(ensured, parts[..i], c)
    requires InsertError(changes, c.matchId, parts[..i], c.magnitude).None?
    ensures var error := RefusedInsert(changes + made, parts[i], c);
            && InsertError(changes, c.matchId, parts[..i + 1], c.magnitude) == error
            && (error.Some? ==> InsertError(changes, c.matchId, parts, c.magnitude) == error)
  {
    PrefixGrows(parts, i);
    OwnInsertsDoNotCollide(changes, made, ensured, parts, i, c);
    if RefusedInsert(changes + made, parts[i], c).Some? {
      ErrorPersists(changes, c.matchId, parts, c.magnitude, i + 1);
    }
  }

  // ---- Freezing row by row ----

  /** Of the first i rows of the season's list, the qualifying ones. */
  function QualifyingPrefix(rows: seq<Place>, i: nat, standings: Standings, sc: Scope): set<Place>
    requires i <= |rows|
  {
    set p | p in rows[..i] && Qualifies(standings, sc, p.user)
  }

  ghost predicate RowsOfSeason(rows: seq<Place>, standings: Standings, season: SeasonId) {
    && Ascending(rows, Precedes)
    && (forall p :: p in rows <==> (season, p.user) in standings && p == PlaceOf(p.user, standings[(season, p.user)]))
  }

  /** The running counter is the position: the qualifying rows already passed are those ahead of this one. */
  lemma CounterIsPosition(rows: seq<Place>, i: nat, standings: Standings, sc: Scope)
    requires RowsOfSeason(rows, standings, sc.season) && i < |rows|
    ensures Qualifies(standings, sc, rows[i].user) ==>
              PositionOf(standings, sc, rows[i].user) == Some(1 + |QualifyingPrefix(rows, i, standings, sc)|)
    ensures |QualifyingPrefix(rows, i + 1, standings, sc)|
         == |QualifyingPrefix(rows, i, standings, sc)| + if Qualifies(standings, sc, rows[i].user) then 1 else 0
  {
    var row, passed := rows[i], QualifyingPrefix(rows, i, standings, sc);
    assert row in rows;
    assert rows[..i + 1] == rows[..i] + [row];
    assert row !in rows[..i];
    if Qualifies(standings, sc, row.user) {
      PassedAreAhead(rows, i, standings, sc);
      assert QualifyingPrefix(rows, i + 1, standings, sc) == passed + {row};
    } else {
      assert QualifyingPrefix(rows, i + 1, standings, sc) == passed;
    }
  }

  lemma PassedAreAhead(rows: seq<Place>, i: nat, standings: Standings, sc: Scope)
    requires RowsOfSeason(rows, standings, sc.season) && i < |rows| && Qualifies(standings, sc, rows[i].user)
    ensures Ahead(EligiblePlaces(standings, sc), Precedes, rows[i]) == QualifyingPrefix(rows, i, standings, sc)
  {
    forall p ensures p in Ahead(EligiblePlaces(standings, sc), Precedes, rows[i]) <==> p in QualifyingPrefix(rows, i, standings, sc) {
      EligiblePlaceIsOwn(standings, sc, p);
      if p in QualifyingPrefix(rows, i, standings, sc) {
        var j :| 0 <= j < i && rows[j] == p;
        assert p in rows;
      }
      if p in EligiblePlaces(standings, sc) && Precedes(p, rows[i]) {
        assert p in rows;
        var j :| 0 <= j < |rows| && rows[j] == p;
        assert j < i;
      }
    }
  }

  /** The table with the first i rows of the list frozen. */
  predicate FrozenSoFar(work: Standings, standings: Standings, rows: seq<Place>, i: nat, sc: Scope)
    requires i <= |rows|
  {
    && work.Keys == standings.Keys
    && forall k | k in standings :: work[k] ==
         if k.0 == sc.season && PlaceOf(k.1, standings[k]) in rows[..i] then FrozenStanding(standings[k], PositionOf(standings, sc, k.1)) else standings[k]
  }

  lemma FreezeNext(work: Standings, standings: Standings, rows: seq<Place>, i: nat, sc: Scope)
    requires RowsOfSeason(rows, standings, sc.season) && i < |rows| && FrozenSoFar(work, standings, rows, i, sc)
    ensures var k := (sc.season, rows[i].user);
            && k in work && work[k] == standings[k]
            && FrozenSoFar(work[k := FrozenStanding(standings[k], PositionOf(standings, sc, k.1))], standings, rows, i + 1, sc)
  {
    var k := (sc.season, rows[i].user);
    assert rows[i] in rows;
    assert rows[..i + 1] == rows[..i] + [rows[i]];
    assert rows[i] !in rows[..i];
  }

  lemma AllFrozen(work: Standings, standings: Standings, rows: seq<Place>, sc: Scope)
    requires RowsOfSeason(rows, standings, sc.season) && FrozenSoFar(work, standings, rows, |rows|, sc)
    ensures work == Frozen(standings, sc)
  {
    assert rows[..|rows|] == rows;
    forall k | k in standings && k.0 == sc.season ensures PlaceOf(k.1, standings[k]) in rows { }
  }

  lemma ListIsRows(standings: Standings, season: SeasonId)
    ensures StrictTotal(Precedes) && RowsOfSeason(Sorted(AllPlaces(standings, season), Precedes), standings, season)
  {
    PrecedesIsStrictTotal();
    var places := AllPlaces(standings, season);
    SortedIsAscending(places, Precedes);
    forall p ensures p in places <==> (season, p.user) in standings && p == PlaceOf(p.user, standings[(season, p.user)]) { }
  }

  class Repository {
    var seasons: seq<Season>
    var standings: Standings
    var changes: seq<Change>
    var matches: map<MatchId, MatchRecord>

    ghost function Tables(): Ladder
      reads this
    {
      Ladder(seasons, standings, changes, matches)
    }

    constructor (first: Season)
      ensures Tables() == Ladder([first], map[], [], map[])
      ensures first.status.SeasonActive? ==> Inv(Tables())
    {
      seasons, standings, changes, matches := [first], map[], [], map[];
    }

    /** INSERT ... ON CONFLICT DO NOTHING, one participant at a time, in the transaction's view of the table. */
    method EnsureStandings(season: SeasonId, parts: seq<Participant>, rating: int, now: Instant) returns (work: Standings)
      ensures work == Ensured(standings, season, parts, rating, now)
    {
      work := standings;
      var i := 0;
      while i < |parts|
        invariant 0 <= i <= |parts| && work == Ensured(standings, season, parts[..i], rating, now)
      {
        var k := (season, parts[i].user);
        if k !in work { work := work[k := NewStanding(rating, now)]; }
        PrefixGrows(parts, i);
        i := i + 1;
      }
      assert parts[..i] == parts;
    }

    method SplitTeams(work: Standings, season: SeasonId, parts: seq<Participant>) returns (team1: seq<int>, team2: seq<int>)
      requires AllStand(work, season, parts)
      ensures team1 == TeamRatings(work, season, parts, 1) && team2 == TeamRatings(work, season, parts, 2)
    {
      team1, team2 := [], [];
      var i := 0;
      while i < |parts|
        invariant 0 <= i <= |parts|
        invariant team1 == TeamRatings(work, season, parts[..i], 1) && team2 == TeamRatings(work, season, parts[..i], 2)
      {
        var rating := work[(season, parts[i].user)].rating;
        if parts[i].slot == 1 { team1 := team1 + [rating]; } else if parts[i].slot == 2 { team2 := team2 + [rating]; }
        PrefixGrows(parts, i);
        i := i + 1;
      }
      assert parts[..i] == parts;
    }

    /** Inserts each change and updates each standing in turn; an insert the table refuses aborts. */
    method ApplyParticipants(ensured: Standings, parts: seq<Participant>, c: Pairing)
      returns (error: Option<FinalizeError>, work: Standings, made: seq<Change>)
      requires AllStand(ensured, c.season, parts) && Ordered(parts)
      ensures error == InsertError(changes, c.matchId, parts, c.magnitude)
      ensures error.None? ==> work == PlayStandings(ensured, parts, c) && made == PlayChanges(ensured, parts, c)
    {
      error, work, made := None, ensured, [];
      var i := 0;
      while i < |parts|
        invariant 0 <= i <= |parts| && AllStand(ensured, c.season, parts[..i]) && error.None?
        invariant InsertError(changes, c.matchId, parts[..i], c.magnitude).None?
        invariant work == PlayStandings(ensured, parts[..i], c) && made == PlayChanges(ensured, parts[..i], c)
      {
        var p := parts[i];
        var k := (c.season, p.user);
        PlayStandingsGrows(ensured, parts, i, c);
        ApplyNext(changes, made, ensured, parts, i, c);
        error := RefusedInsert(changes + made, p, c);
        if error.Some? { return; }
        var change := ChangeOf(c, p, work[k]);
        made := made + [change];
        work := work[k := Played(work[k], change, p.abandoned)];
        i := i + 1;
      }
      assert parts[..i] == parts;
    }

    method FinalizeMatchProgression(input: FinalizeInput, e: Expectation) returns (result: FinalizeResult)
      requires forall id | id in matches :: Ordered(matches[id].participants)
      modifies this
      ensures (Tables(), result) == Finalize(old(Tables()), input, e)
    {
      if input.matchId !in matches { return Failed(MatchNotFound); }
      var m := matches[input.matchId];
      if !Validated(m) { return Failed(ValidationError(m)); }
      if m.finalizedAt.Some? { return Replayed(MatchChanges(changes, input.matchId)); }
      var active := ActiveSeason(seasons);
      if active.None? { return Failed(NoActiveSeason); }
      if m.season != active { return Failed(SeasonMismatch); }
      if |m.participants| == 0 { return Failed(MatchNotReady); }
      var season := m.season.value;
      var ensured := EnsureStandings(season, m.participants, InitialRating(input.initialRating), input.now);
      var team1, team2 := SplitTeams(ensured, season, m.participants);
      if |team1| == 0 || |team2| == 0 { return Failed(MatchNotReady); }
      var average1 := TeamAverage(team1);
      var average2 := TeamAverage(team2);
      var one, two := OutcomeForTeam(m.result.value, 1, m.winner), OutcomeForTeam(m.result.value, 2, m.winner);
      if one.None? || two.None? { return Failed(InvalidResult); }
      var c := Pairing(season, input.matchId, input.now, average1, average2, one.value, two.value,
                       BaseDelta(input.eloK, ActualScore(one.value), e(average1, average2)),
                       BaseDelta(input.eloK, ActualScore(two.value), e(average2, average1)), Magnitude(input.abandonPenalty));
      var error, work, made := ApplyParticipants(ensured, m.participants, c);
      if error.Some? { return Failed(error.value); }
      standings := work;
      changes := changes + made;
      matches := matches[input.matchId := m.(finalizedAt := Some(input.now))];
      return Applied(made);
    }

    method FreezeSeasonStandings(sc: Scope) returns (work: Standings)
      ensures work == Frozen(standings, sc)
    {
      ListIsRows(standings, sc.season);
      var rows := Sorted(AllPlaces(standings, sc.season), Precedes);
      work := standings;
      var position, i := 0, 0;
      while i < |rows|
        invariant 0 <= i <= |rows|
        invariant position == |QualifyingPrefix(rows, i, standings, sc)|
        invariant FrozenSoFar(work, standings, rows, i, sc)
      {
        var user := rows[i].user;
        assert rows[i] in rows;
        FreezeNext(work, standings, rows, i, sc);
        CounterIsPosition(rows, i, standings, sc);
        var st := standings[(sc.season, user)];
        var finalPosition: Option<int> := None;
        if user in sc.goodStanding && EligibleForTop500(st, sc.minMatches) {
          position := position + 1;
          finalPosition := Some(position);
        }
        work := work[(sc.season, user) := FrozenStanding(st, finalPosition)];
        i := i + 1;
      }
      AllFrozen(work, standings, rows, sc);
    }

    method RollOverIfDue(cfg: RolloverConfig, goodStanding: set<UserId>, now: Instant) returns (result: RolloverResult)
      modifies this
      ensures (Tables(), result) == RollOver(old(Tables()), cfg, goodStanding, now)
    {
      var active := ActiveSeason(seasons);
      if active.None? || active.value >= |seasons| || seasons[active.value].endsAt > now { return Skipped; }
      var id := active.value;
      var ending := seasons[id];
      var work := FreezeSeasonStandings(Scope(id, ending.top500Min, goodStanding));
      if SequenceTaken(seasons, ending.sequence + 1) { return AlreadyOpened; }
      result := Opened(id, |seasons|);
      standings := work;
      seasons := seasons[id := ending.(status := SeasonClosed, closedAt := Some(now))] + [NextSeason(ending, cfg, now)];
    }
  }
}
