/** Safety of every run of finalizations, rollovers and standing inserts. */
module LadderRuns {
  import opened Wrappers
  import opened Scoring
  import opened Rating
  import opened RatingLedger
  import opened Seasons

  // ---- The history of one standing ----

  function CountOutcome(h: seq<Change>, outcome: EloOutcome): nat {
    if h == [] then 0 else CountOutcome(h[..|h| - 1], outcome) + if h[|h| - 1].outcome == outcome then 1 else 0
  }

  function CountAbandons(h: seq<Change>): nat {
    if h == [] then 0 else CountAbandons(h[..|h| - 1]) + if h[|h| - 1].penalty != 0 then 1 else 0
  }

  function SumTotals(h: seq<Change>): int { if h == [] then 0 else SumTotals(h[..|h| - 1]) + h[|h| - 1].total }

  /** A change that says what it did. */
  predicate Honest(ch: Change) { ch.oldRating >= 0 && ch.newRating >= 0 && ch.total == ch.newRating - ch.oldRating }

  /** Each change starts at the rating the one before it reached, and no rating is negative. */
  predicate Chained(h: seq<Change>) {
    if h == [] then true
    else Honest(h[|h| - 1]) && Chained(h[..|h| - 1]) && (|h| > 1 ==> h[|h| - 1].oldRating == h[|h| - 2].newRating)
  }

  function Max(a: int, b: int): int { if a > b then a else b }

  /** The highest rating held: at the start or after some change. */
  function Peak(h: seq<Change>): int
    requires h != []
  {
    if |h| == 1 then Max(h[0].oldRating, h[0].newRating) else Max(Peak(h[..|h| - 1]), h[|h| - 1].newRating)
  }

  /** A standing says exactly what its history says. */
  predicate Telescopes(st: Standing, h: seq<Change>) {
    && Chained(h) && st.rating >= 0
    && (if h == [] then st.peak == st.rating else st.rating == h[|h| - 1].newRating && st.peak == Peak(h))
    && st.played == |h| && st.placements == (if |h| < PLACEMENTS_REQUIRED then |h| else PLACEMENTS_REQUIRED)
    && st.wins == CountOutcome(h, Win) && st.losses == CountOutcome(h, Loss) && st.ties == CountOutcome(h, Tie)
    && st.abandons == CountAbandons(h)
  }

  lemma {:induction false} ChainMeans(h: seq<Change>)
    requires Chained(h)
    ensures forall i | 0 <= i < |h| :: Honest(h[i])
    ensures forall i | 0 < i < |h| :: h[i].oldRating == h[i - 1].newRating
  {
    if h != [] { ChainMeans(h[..|h| - 1]); }
  }

  lemma {:induction false} ChainSums(h: seq<Change>)
    requires Chained(h) && h != []
    ensures h[|h| - 1].newRating == h[0].oldRating + SumTotals(h)
  {
    if |h| > 1 { ChainSums(h[..|h| - 1]); }
  }

  lemma {:induction false} PeakIsHighest(h: seq<Change>)
    requires h != []
    ensures h[0].oldRating <= Peak(h) && forall i | 0 <= i < |h| :: h[i].newRating <= Peak(h)
    ensures Peak(h) == h[0].oldRating || exists i :: 0 <= i < |h| && h[i].newRating == Peak(h)
  {
    if |h| > 1 {
      var init := h[..|h| - 1];
      PeakIsHighest(init);
      if Peak(h) == Peak(init) && Peak(init) != h[0].oldRating {
        var i :| 0 <= i < |init| && init[i].newRating == Peak(init);
        assert h[i].newRating == Peak(h);
      }
    }
  }

  lemma {:induction false} CountsAddUp(h: seq<Change>)
    ensures CountOutcome(h, Win) + CountOutcome(h, Loss) + CountOutcome(h, Tie) == |h| && CountAbandons(h) <= |h|
  {
    if h != [] { CountsAddUp(h[..|h| - 1]); }
  }

  /** The consequences a reader looks for. */
  lemma TelescopingFacts(st: Standing, h: seq<Change>)
    requires Telescopes(st, h)
    ensures st.wins + st.losses + st.ties == st.played == |h| && st.abandons <= st.played
    ensures h != [] ==> st.rating == h[0].oldRating + SumTotals(h)
    ensures 0 <= st.rating <= st.peak
    ensures forall i | 0 < i < |h| :: h[i].oldRating == h[i - 1].newRating
    ensures h != [] ==> h[0].oldRating <= st.peak && forall i | 0 <= i < |h| :: 0 <= h[i].newRating <= st.peak
    ensures h != [] ==> st.peak == h[0].oldRating || exists i :: 0 <= i < |h| && h[i].newRating == st.peak
  {
    CountsAddUp(h);
    ChainMeans(h);
    if h != [] {
      ChainSums(h);
      PeakIsHighest(h);
    }
  }

  lemma PlayedTelescopes(st: Standing, h: seq<Change>, ch: Change, abandoned: bool)
    requires Telescopes(st, h)
    requires ch.oldRating == st.rating && Honest(ch) && (ch.penalty != 0 <==> abandoned)
    ensures Telescopes(Played(st, ch, abandoned), h + [ch])
  {
    assert (h + [ch])[..|h|] == h;
  }

  // ---- Appending changes ----

  lemma {:induction false} HistoryAppend(a: seq<Change>, b: seq<Change>, season: SeasonId, user: UserId)
    ensures History(a + b, season, user) == History(a, season, user) + History(b, season, user)
  {
    if b == [] {
      assert a + b == a;
    } else {
      assert (a + b)[..|a + b| - 1] == a + b[..|b| - 1];
      HistoryAppend(a, b[..|b| - 1], season, user);
    }
  }

  lemma {:induction false} MatchChangesAppend(a: seq<Change>, b: seq<Change>, own: MatchId, m: MatchId)
    requires forall i | 0 <= i < |b| :: b[i].matchId == own
    ensures MatchChanges(a + b, m) == MatchChanges(a, m) + if own == m then b else []
  {
    if b == [] {
      assert a + b == a;
    } else {
      var init := b[..|b| - 1];
      assert (a + b)[..|a + b| - 1] == a + init;
      MatchChangesAppend(a, init, own, m);
      assert b == init + [b[|b| - 1]];
    }
  }

  lemma {:induction false} NoMatchChanges(changes: seq<Change>, m: MatchId)
    requires forall i | 0 <= i < |changes| :: changes[i].matchId != m
    ensures MatchChanges(changes, m) == []
  {
    if changes != [] { NoMatchChanges(changes[..|changes| - 1], m); }
  }

  lemma {:induction false} NoHistory(changes: seq<Change>, season: SeasonId, user: UserId)
    requires forall i | 0 <= i < |changes| :: changes[i].season != season || changes[i].user != user
    ensures History(changes, season, user) == []
  {
    if changes != [] { NoHistory(changes[..|changes| - 1], season, user); }
  }

  // ---- Participants ----

  predicate Ordered(parts: seq<Participant>) {
    if parts == [] then true
    else
      var last := parts[|parts| - 1];
      && (last.slot == 1 || last.slot == 2) && Ordered(parts[..|parts| - 1])
      && (|parts| > 1 ==> parts[|parts| - 2].user < last.user)
  }

  predicate WellFormed(m: MatchRecord, seasonCount: nat) {
    Ordered(m.participants) && (m.season.Some? ==> m.season.value < seasonCount)
  }

  predicate DistinctUsers(parts: seq<Participant>) { forall i, j | 0 <= i < j < |parts| :: parts[i].user != parts[j].user }

  lemma {:induction false} OrderedIsDistinct(parts: seq<Participant>)
    requires Ordered(parts)
    ensures DistinctUsers(parts) && forall i | 0 <= i < |parts| :: parts[i].user <= parts[|parts| - 1].user
  {
    if parts != [] { OrderedIsDistinct(parts[..|parts| - 1]); }
  }

  lemma {:induction false} FindFinds(parts: seq<Participant>, user: UserId)
    ensures var p := Find(parts, user);
            && (p.Some? ==> p.value in parts && p.value.user == user)
            && (p.None? ==> forall i | 0 <= i < |parts| :: parts[i].user != user)
  {
    if parts != [] { FindFinds(parts[..|parts| - 1], user); }
  }

  lemma {:induction false} PlayChangesAt(standings: Standings, parts: seq<Participant>, c: Pairing)
    requires AllStand(standings, c.season, parts)
    ensures var r := PlayChanges(standings, parts, c);
            |r| == |parts| && forall i | 0 <= i < |r| :: r[i] == ChangeOf(c, parts[i], standings[(c.season, parts[i].user)])
  {
    if parts != [] { PlayChangesAt(standings, parts[..|parts| - 1], c); }
  }

  /** A finalization adds at most one change to a user's history: their own. */
  lemma {:induction false} PlayChangesHistory(standings: Standings, parts: seq<Participant>, c: Pairing, season: SeasonId, user: UserId)
    requires AllStand(standings, c.season, parts) && DistinctUsers(parts)
    ensures var p := Find(parts, user);
            History(PlayChanges(standings, parts, c), season, user)
              == if season == c.season && p.Some? && (season, user) in standings then [ChangeOf(c, p.value, standings[(season, user)])] else []
  {
    FindFinds(parts, user);
    if parts != [] {
      var init, last := parts[..|parts| - 1], parts[|parts| - 1];
      PlayChangesHistory(standings, init, c, season, user);
      var r := PlayChanges(standings, parts, c);
      assert r[..|r| - 1] == PlayChanges(standings, init, c);
      FindFinds(init, user);
    }
  }

  // ---- The invariant ----

  /** `next` was opened by closing `previous`. */
  predicate Succeeds(previous: Season, next: Season) {
    && previous.status.SeasonClosed? && previous.closedAt == Some(next.startsAt)
    && next.sequence == previous.sequence + 1 && next.startsAt >= previous.endsAt
  }

  predicate Succession(seasons: seq<Season>) {
    |seasons| <= 1 || (Succession(seasons[..|seasons| - 1]) && Succeeds(seasons[|seasons| - 2], seasons[|seasons| - 1]))
  }

  predicate SeasonsOk(seasons: seq<Season>) {
    seasons != [] && seasons[|seasons| - 1].status.SeasonActive? && Succession(seasons)
  }

  lemma {:induction false} SuccessionMeans(seasons: seq<Season>)
    requires Succession(seasons)
    ensures forall i | 0 < i < |seasons| :: Succeeds(seasons[i - 1], seasons[i])
  {
    if |seasons| > 1 { SuccessionMeans(seasons[..|seasons| - 1]); }
  }

  predicate Telescoping(l: Ladder) {
    forall k | k in l.standings :: Telescopes(l.standings[k], History(l.changes, k.0, k.1))
  }

  predicate ChangesOwned(changes: seq<Change>, standings: Standings, matches: map<MatchId, MatchRecord>) {
    forall i | 0 <= i < |changes| ::
      && (changes[i].season, changes[i].user) in standings
      && changes[i].matchId in matches && matches[changes[i].matchId].finalizedAt.Some?
  }

  predicate Owned(l: Ladder) {
    ChangesOwned(l.changes, l.standings, l.matches) && forall k | k in l.standings :: k.0 < |l.seasons|
  }

  /** One change per participant, in their order, saying what the match decided for them. */
  predicate Records(m: MatchRecord, parts: seq<Participant>, chs: seq<Change>)
    requires Validated(m)
  {
    if parts == [] || chs == [] then parts == [] && chs == []
    else
      var p, ch := parts[|parts| - 1], chs[|chs| - 1];
      && Records(m, parts[..|parts| - 1], chs[..|chs| - 1])
      && ch.user == p.user && ch.slot == p.slot && ch.season == m.season.value && (ch.penalty != 0 <==> p.abandoned)
      && Some(ch.outcome) == OutcomeForTeam(m.result.value, p.slot, m.winner)
  }

  predicate Settled(m: MatchRecord, chs: seq<Change>) { Validated(m) && m.participants != [] && Records(m, m.participants, chs) }

  predicate MatchOk(l: Ladder, id: MatchId)
    requires id in l.matches
  {
    var m := l.matches[id];
    && WellFormed(m, |l.seasons|)
    && (if m.finalizedAt.Some? then Settled(m, MatchChanges(l.changes, id)) else MatchChanges(l.changes, id) == [])
  }

  predicate Inv(l: Ladder) {
    SeasonsOk(l.seasons) && Telescoping(l) && Owned(l) && forall id | id in l.matches :: MatchOk(l, id)
  }

  /** The tables after the first migration: one active season and nothing else. */
  function NewLadder(first: Season): Ladder { Ladder([first], map[], [], map[]) }

  /** Runs start within the invariant. */
  lemma NewLadderIsWellFormed(first: Season)
    requires first.status.SeasonActive?
    ensures Inv(NewLadder(first))
  {
    assert Succession([first]);
  }

  lemma ActiveIsLast(seasons: seq<Season>)
    requires SeasonsOk(seasons)
    ensures ActiveSeason(seasons) == Some(|seasons| - 1)
  {
  }

  // ---- Steps ----

  datatype Step =
    | FinalizeStep(input: FinalizeInput)
    | RollOverStep(cfg: RolloverConfig, goodStanding: set<UserId>, now: Instant)
    | EnsureStep(season: SeasonId, user: UserId, rating: int, at: Instant)
    | ReportStep(matchId: MatchId, record: MatchRecord)

  /** EnsureStandings and the soft-reset insert: a missing standing, in any season, at any non-negative rating. */
  function EnsureStanding(l: Ladder, season: SeasonId, user: UserId, rating: int, now: Instant): Ladder {
    if season >= |l.seasons| || (season, user) in l.standings then l
    else l.(standings := l.standings[(season, user) := NewStanding(if rating < 0 then 0 else rating, now)])
  }

  /** Whatever else writes a match row before it is finalized. */
  function Report(l: Ladder, id: MatchId, record: MatchRecord): Ladder {
    if !WellFormed(record, |l.seasons|) || record.finalizedAt.Some? || (id in l.matches && l.matches[id].finalizedAt.Some?) then l
    else l.(matches := l.matches[id := record])
  }

  function Next(l: Ladder, e: Expectation, step: Step): Ladder {
    match step
    case FinalizeStep(input) => Finalize(l, input, e).0
    case RollOverStep(cfg, goodStanding, now) => RollOver(l, cfg, goodStanding, now).0
    case EnsureStep(season, user, rating, at) => EnsureStanding(l, season, user, rating, at)
    case ReportStep(id, record) => Report(l, id, record)
  }

  function Run(l: Ladder, e: Expectation, steps: seq<Step>): Ladder {
    if steps == [] then l else Next(Run(l, e, steps[..|steps| - 1]), e, steps[|steps| - 1])
  }

  // ---- Finalization ----

  /** What an applied finalization writes. */
  predicate Writes(l: Ladder, input: FinalizeInput, r: Ladder, chs: seq<Change>, c: Pairing, standings: Standings) {
    && input.matchId in l.matches && Validated(l.matches[input.matchId]) && l.matches[input.matchId].finalizedAt.None?
    && var m := l.matches[input.matchId];
       && ActiveSeason(l.seasons) == m.season && m.participants != []
       && c.season == m.season.value && c.matchId == input.matchId && c.magnitude > 0
       && OutcomeForTeam(m.result.value, 1, m.winner) == Some(c.outcome1) && OutcomeForTeam(m.result.value, 2, m.winner) == Some(c.outcome2)
       && standings == Ensured(l.standings, c.season, m.participants, InitialRating(input.initialRating), input.now)
       && chs == PlayChanges(standings, m.participants, c)
       && r == Ladder(l.seasons, PlayStandings(standings, m.participants, c), l.changes + chs, l.matches[input.matchId := m.(finalizedAt := Some(input.now))])
  }

  /** A finalization either applies, replays the stored changes, or fails; only applying writes anything. */
  lemma FinalizeCases(l: Ladder, input: FinalizeInput, e: Expectation) returns (c: Pairing, standings: Standings)
    ensures var (r, result) := Finalize(l, input, e);
            match result
            case Applied(chs) => Writes(l, input, r, chs, c, standings)
            case Replayed(chs) => r == l && input.matchId in l.matches && l.matches[input.matchId].finalizedAt.Some? && chs == MatchChanges(l.changes, input.matchId)
            case Failed(_) => r == l
  {
    c, standings := Pairing(0, 0, 0, 0, 0, Tie, Tie, 0, 0, 1), map[];
    if Finalize(l, input, e).1.Applied? {
      var m := l.matches[input.matchId];
      standings := Ensured(l.standings, m.season.value, m.participants, InitialRating(input.initialRating), input.now);
      c := PairingFor(input, e, m.season.value, TeamRatings(standings, m.season.value, m.participants, 1), TeamRatings(standings, m.season.value, m.participants, 2),
                      OutcomeForTeam(m.result.value, 1, m.winner).value, OutcomeForTeam(m.result.value, 2, m.winner).value);
    }
  }

  /** One standing across a finalization, its own change included if it has one. */
  lemma StandingAfter(changes: seq<Change>, chs: seq<Change>, standings: Standings, parts: seq<Participant>, c: Pairing, k: (SeasonId, UserId))
    requires AllStand(standings, c.season, parts) && DistinctUsers(parts) && chs == PlayChanges(standings, parts, c) && c.magnitude > 0
    requires k in standings && Telescopes(standings[k], History(changes, k.0, k.1))
    ensures Telescopes(PlayedAt(standings[k], k, parts, c), History(changes + chs, k.0, k.1))
  {
    var h := History(changes, k.0, k.1);
    HistoryAppend(changes, chs, k.0, k.1);
    PlayChangesHistory(standings, parts, c, k.0, k.1);
    FindFinds(parts, k.1);
    var p := Find(parts, k.1);
    if k.0 == c.season && p.Some? {
      PlayedTelescopes(standings[k], h, ChangeOf(c, p.value, standings[k]), p.value.abandoned);
    } else {
      assert h + [] == h;
    }
  }

  lemma EnsuredTelescopes(l: Ladder, season: SeasonId, parts: seq<Participant>, rating: nat, now: Instant, k: (SeasonId, UserId))
    requires Telescoping(l) && Owned(l) && k in Ensured(l.standings, season, parts, rating, now)
    ensures Telescopes(Ensured(l.standings, season, parts, rating, now)[k], History(l.changes, k.0, k.1))
  {
    if k !in l.standings { NoHistory(l.changes, k.0, k.1); }
  }

  lemma WrittenStanding(l: Ladder, input: FinalizeInput, r: Ladder, chs: seq<Change>, c: Pairing, standings: Standings, k: (SeasonId, UserId))
    requires Telescoping(l) && Owned(l) && Writes(l, input, r, chs, c, standings) && k in r.standings && Ordered(l.matches[input.matchId].participants)
    ensures Telescopes(r.standings[k], History(r.changes, k.0, k.1))
  {
    var parts := l.matches[input.matchId].participants;
    OrderedIsDistinct(parts);
    EnsuredTelescopes(l, c.season, parts, InitialRating(input.initialRating), input.now, k);
    StandingAfter(l.changes, chs, standings, parts, c, k);
  }

  lemma PlayChangesOwned(standings: Standings, parts: seq<Participant>, c: Pairing, chs: seq<Change>)
    requires AllStand(standings, c.season, parts) && chs == PlayChanges(standings, parts, c)
    ensures forall i | 0 <= i < |chs| :: chs[i].matchId == c.matchId && (chs[i].season, chs[i].user) in standings
  {
    PlayChangesAt(standings, parts, c);
  }

  lemma ChangesOwnedAppend(a: seq<Change>, b: seq<Change>, standings: Standings, matches: map<MatchId, MatchRecord>)
    requires ChangesOwned(a, standings, matches) && ChangesOwned(b, standings, matches)
    ensures ChangesOwned(a + b, standings, matches)
  {
  }

  lemma WrittenOwned(l: Ladder, input: FinalizeInput, r: Ladder, chs: seq<Change>, c: Pairing, standings: Standings)
    requires Owned(l) && Writes(l, input, r, chs, c, standings) && WellFormed(l.matches[input.matchId], |l.seasons|)
    ensures Owned(r)
  {
    PlayChangesOwned(standings, l.matches[input.matchId].participants, c, chs);
    assert ChangesOwned(l.changes, r.standings, r.matches);
    assert ChangesOwned(chs, r.standings, r.matches);
    ChangesOwnedAppend(l.changes, chs, r.standings, r.matches);
  }

  lemma {:induction false} PlayChangesRecord(m: MatchRecord, standings: Standings, parts: seq<Participant>, c: Pairing)
    requires Validated(m) && Ordered(parts) && AllStand(standings, c.season, parts) && c.season == m.season.value && c.magnitude > 0
    requires OutcomeForTeam(m.result.value, 1, m.winner) == Some(c.outcome1) && OutcomeForTeam(m.result.value, 2, m.winner) == Some(c.outcome2)
    ensures Records(m, parts, PlayChanges(standings, parts, c))
  {
    if parts != [] {
      PlayChangesRecord(m, standings, parts[..|parts| - 1], c);
      var chs := PlayChanges(standings, parts, c);
      assert chs[..|chs| - 1] == PlayChanges(standings, parts[..|parts| - 1], c);
    }
  }

  lemma {:induction false} RecordsIgnoreMarker(m: MatchRecord, parts: seq<Participant>, chs: seq<Change>, at: Instant)
    requires Validated(m) && Records(m, parts, chs)
    ensures Records(m.(finalizedAt := Some(at)), parts, chs)
  {
    if parts != [] && chs != [] { RecordsIgnoreMarker(m, parts[..|parts| - 1], chs[..|chs| - 1], at); }
  }

  lemma PlayChangesLength(standings: Standings, parts: seq<Participant>, c: Pairing)
    requires AllStand(standings, c.season, parts)
    ensures |PlayChanges(standings, parts, c)| == |parts|
  {
    PlayChangesAt(standings, parts, c);
  }

  lemma WrittenSettles(l: Ladder, input: FinalizeInput, r: Ladder, chs: seq<Change>, c: Pairing, standings: Standings)
    requires Writes(l, input, r, chs, c, standings) && MatchOk(l, input.matchId)
    ensures Settled(r.matches[input.matchId], chs) && MatchChanges(r.changes, input.matchId) == chs
  {
    var m := l.matches[input.matchId];
    PlayChangesRecord(m, standings, m.participants, c);
    RecordsIgnoreMarker(m, m.participants, chs, input.now);
    PlayChangesLength(standings, m.participants, c);
    PlayChangesOwned(standings, m.participants, c, chs);
    MatchChangesAppend(l.changes, chs, input.matchId, input.matchId);
    assert [] + chs == chs;
  }

  lemma WrittenElsewhere(l: Ladder, input: FinalizeInput, r: Ladder, chs: seq<Change>, c: Pairing, standings: Standings, id: MatchId)
    requires Writes(l, input, r, chs, c, standings) && id != input.matchId
    ensures MatchChanges(r.changes, id) == MatchChanges(l.changes, id)
  {
    PlayChangesOwned(standings, l.matches[input.matchId].participants, c, chs);
    MatchChangesAppend(l.changes, chs, input.matchId, id);
  }

  lemma FinalizeKeepsInv(l: Ladder, input: FinalizeInput, e: Expectation)
    requires Inv(l)
    ensures Inv(Finalize(l, input, e).0)
  {
    var c, standings := FinalizeCases(l, input, e);
    var (r, result) := Finalize(l, input, e);
    if result.Applied? {
      assert MatchOk(l, input.matchId);
      forall k | k in r.standings ensures Telescopes(r.standings[k], History(r.changes, k.0, k.1)) {
        WrittenStanding(l, input, r, result.changes, c, standings, k);
      }
      WrittenOwned(l, input, r, result.changes, c, standings);
      WrittenSettles(l, input, r, result.changes, c, standings);
      forall id | id in r.matches ensures MatchOk(r, id) {
        assert MatchOk(l, id);
        if id != input.matchId { WrittenElsewhere(l, input, r, result.changes, c, standings, id); }
      }
    }
  }

  lemma EnsuredStanding(l: Ladder, season: SeasonId, user: UserId, rating: nat, now: Instant)
    requires Owned(l) && (season, user) !in l.standings
    ensures Telescopes(NewStanding(rating, now), History(l.changes, season, user))
  {
    forall i | 0 <= i < |l.changes| ensures l.changes[i].season != season || l.changes[i].user != user {
      assert (l.changes[i].season, l.changes[i].user) in l.standings;
    }
    NoHistory(l.changes, season, user);
  }

  lemma EnsureKeepsOwned(l: Ladder, season: SeasonId, user: UserId, rating: int, now: Instant)
    requires Owned(l)
    ensures Owned(EnsureStanding(l, season, user, rating, now))
  {
  }

  lemma EnsureKeepsInv(l: Ladder, season: SeasonId, user: UserId, rating: int, now: Instant)
    requires Inv(l)
    ensures Inv(EnsureStanding(l, season, user, rating, now))
  {
    var r := EnsureStanding(l, season, user, rating, now);
    if r != l {
      EnsuredStanding(l, season, user, if rating < 0 then 0 else rating, now);
      EnsureKeepsOwned(l, season, user, rating, now);
      forall id | id in r.matches ensures MatchOk(r, id) { assert MatchOk(l, id); }
    }
  }

  lemma ReportedUnchanged(l: Ladder, id: MatchId)
    requires Inv(l) && (id in l.matches ==> l.matches[id].finalizedAt.None?)
    ensures MatchChanges(l.changes, id) == []
  {
    if id !in l.matches {
      assert forall i | 0 <= i < |l.changes| :: l.changes[i].matchId in l.matches;
      NoMatchChanges(l.changes, id);
    } else {
      assert MatchOk(l, id);
    }
  }

  lemma ReportKeepsOwned(l: Ladder, id: MatchId, record: MatchRecord)
    requires Owned(l)
    ensures Owned(Report(l, id, record))
  {
  }

  lemma ReportKeepsInv(l: Ladder, id: MatchId, record: MatchRecord)
    requires Inv(l)
    ensures Inv(Report(l, id, record))
  {
    var r := Report(l, id, record);
    if r != l {
      ReportedUnchanged(l, id);
      ReportKeepsOwned(l, id, record);
      forall other | other in r.matches ensures MatchOk(r, other) { assert other in l.matches ==> MatchOk(l, other); }
    }
  }

  lemma RollOverKeepsInv(l: Ladder, cfg: RolloverConfig, goodStanding: set<UserId>, now: Instant)
    requires Inv(l)
    ensures Inv(RollOver(l, cfg, goodStanding, now).0)
  {
    ActiveIsLast(l.seasons);
    var r := RollOver(l, cfg, goodStanding, now).0;
    if r != l {
      SeasonsStayOk(l.seasons, cfg, now);
      var id := |l.seasons| - 1;
      forall k | k in r.standings ensures Telescopes(r.standings[k], History(r.changes, k.0, k.1)) {
        assert Telescopes(l.standings[k], History(l.changes, k.0, k.1));
      }
      forall m | m in r.matches ensures MatchOk(r, m) { assert MatchOk(l, m); }
    }
  }

  lemma SeasonsStayOk(seasons: seq<Season>, cfg: RolloverConfig, now: Instant)
    requires SeasonsOk(seasons) && seasons[|seasons| - 1].endsAt <= now
    ensures var last := |seasons| - 1;
            SeasonsOk(seasons[last := seasons[last].(status := SeasonClosed, closedAt := Some(now))] + [NextSeason(seasons[last], cfg, now)])
  {
    var last := |seasons| - 1;
    var closed := seasons[last := seasons[last].(status := SeasonClosed, closedAt := Some(now))];
    assert closed[..last] == seasons[..last];
    assert Succession(closed);
    assert (closed + [NextSeason(seasons[last], cfg, now)])[..|seasons|] == closed;
  }

  lemma NextKeepsInv(l: Ladder, e: Expectation, step: Step)
    requires Inv(l)
    ensures Inv(Next(l, e, step))
  {
    match step
    case FinalizeStep(input) => FinalizeKeepsInv(l, input, e);
    case RollOverStep(cfg, goodStanding, now) => RollOverKeepsInv(l, cfg, goodStanding, now);
    case EnsureStep(season, user, rating, at) => EnsureKeepsInv(l, season, user, rating, at);
    case ReportStep(id, record) => ReportKeepsInv(l, id, record);
  }

  lemma {:induction false} RunKeepsInv(l: Ladder, e: Expectation, steps: seq<Step>)
    requires Inv(l)
    ensures Inv(Run(l, e, steps))
  {
    if steps != [] {
      RunKeepsInv(l, e, steps[..|steps| - 1]);
      NextKeepsInv(Run(l, e, steps[..|steps| - 1]), e, steps[|steps| - 1]);
    }
  }

  // ---- Exactly once ----

  lemma {:induction false} RecordsMean(m: MatchRecord, parts: seq<Participant>, chs: seq<Change>)
    requires Validated(m) && Records(m, parts, chs)
    ensures |chs| == |parts|
    ensures forall i | 0 <= i < |chs| ::
              && chs[i].user == parts[i].user && chs[i].season == m.season.value && (chs[i].penalty != 0 <==> parts[i].abandoned)
              && Some(chs[i].outcome) == OutcomeForTeam(m.result.value, parts[i].slot, m.winner)
  {
    if parts != [] { RecordsMean(m, parts[..|parts| - 1], chs[..|chs| - 1]); }
  }

  /** In every reachable state a match has no rating change and no marker, or the marker and exactly one change per
      participant, in the match's season and with the outcome the match decided for their team. */
  lemma MatchIsSettledOrUntouched(l: Ladder, e: Expectation, steps: seq<Step>, id: MatchId)
    requires Inv(l) && id in Run(l, e, steps).matches
    ensures var r := Run(l, e, steps);
            var m, chs := r.matches[id], MatchChanges(r.changes, id);
            if m.finalizedAt.None? then chs == []
            else
              && Validated(m) && |chs| == |m.participants| >= 1
              && forall i | 0 <= i < |chs| ::
                   && chs[i].user == m.participants[i].user && chs[i].season == m.season.value
                   && (chs[i].penalty != 0 <==> m.participants[i].abandoned)
                   && Some(chs[i].outcome) == OutcomeForTeam(m.result.value, m.participants[i].slot, m.winner)
  {
    RunKeepsInv(l, e, steps);
    var r := Run(l, e, steps);
    assert MatchOk(r, id);
    if r.matches[id].finalizedAt.Some? { RecordsMean(r.matches[id], r.matches[id].participants, MatchChanges(r.changes, id)); }
  }

  /** A later call on a finalized match returns the stored changes and leaves every table untouched, whatever its
      input. A call on an unfinalized one never meets a conflicting change. */
  lemma FinalizedMatchReplays(l: Ladder, input: FinalizeInput, e: Expectation)
    requires Inv(l) && input.matchId in l.matches
    ensures l.matches[input.matchId].finalizedAt.Some? ==> Finalize(l, input, e) == (l, Replayed(MatchChanges(l.changes, input.matchId)))
    ensures l.matches[input.matchId].finalizedAt.None? ==> !Finalize(l, input, e).1.Replayed? && Finalize(l, input, e).1 != Failed(ProgressionPending)
    ensures Finalize(l, input, e).1.Applied? ==> Finalize(l, input, e).0.matches[input.matchId].finalizedAt.Some?
  {
    assert MatchOk(l, input.matchId);
    var m := l.matches[input.matchId];
    if m.finalizedAt.None? { NeverConflicts(l.changes, input.matchId, m.participants, Magnitude(input.abandonPenalty)); }
  }

  lemma {:induction false} UnchangedMatch(changes: seq<Change>, id: MatchId, user: UserId)
    requires MatchChanges(changes, id) == []
    ensures !HasChange(changes, id, user)
  {
    if changes != [] {
      UnchangedMatch(changes[..|changes| - 1], id, user);
      assert forall i | 0 <= i < |changes| - 1 :: changes[..|changes| - 1][i] == changes[i];
    }
  }

  lemma {:induction false} NeverConflicts(changes: seq<Change>, id: MatchId, parts: seq<Participant>, magnitude: int)
    requires MatchChanges(changes, id) == []
    ensures InsertError(changes, id, parts, magnitude) != Some(ProgressionPending)
  {
    if parts != [] {
      NeverConflicts(changes, id, parts[..|parts| - 1], magnitude);
      UnchangedMatch(changes, id, parts[|parts| - 1].user);
    }
  }

  lemma FinalizeLeavesFinalized(l: Ladder, input: FinalizeInput, e: Expectation, id: MatchId)
    requires id in l.matches && l.matches[id].finalizedAt.Some?
    ensures var r := Finalize(l, input, e).0;
            id in r.matches && r.matches[id] == l.matches[id] && MatchChanges(r.changes, id) == MatchChanges(l.changes, id)
  {
    var c, standings := FinalizeCases(l, input, e);
    var (r, result) := Finalize(l, input, e);
    if result.Applied? { WrittenElsewhere(l, input, r, result.changes, c, standings, id); }
  }

  lemma FinalizedStaysPut(l: Ladder, e: Expectation, step: Step, id: MatchId)
    requires id in l.matches && l.matches[id].finalizedAt.Some?
    ensures var r := Next(l, e, step);
            id in r.matches && r.matches[id] == l.matches[id] && MatchChanges(r.changes, id) == MatchChanges(l.changes, id)
  {
    if step.FinalizeStep? { FinalizeLeavesFinalized(l, step.input, e, id); }
  }

  /** How many calls for a match were applied along a run. */
  function Applications(l: Ladder, e: Expectation, steps: seq<Step>, id: MatchId): nat {
    if steps == [] then 0
    else
      var last := steps[|steps| - 1];
      Applications(l, e, steps[..|steps| - 1], id)
      + if last.FinalizeStep? && last.input.matchId == id && Finalize(Run(l, e, steps[..|steps| - 1]), last.input, e).1.Applied? then 1 else 0
  }

  predicate Marked(l: Ladder, id: MatchId) { id in l.matches && l.matches[id].finalizedAt.Some? }

  lemma FinalizeMarks(l: Ladder, input: FinalizeInput, e: Expectation, id: MatchId)
    ensures Marked(Finalize(l, input, e).0, id) <==> Marked(l, id) || (input.matchId == id && Finalize(l, input, e).1.Applied?)
    ensures Marked(l, id) ==> !(input.matchId == id && Finalize(l, input, e).1.Applied?)
  {
    var c, standings := FinalizeCases(l, input, e);
  }

  lemma OtherStepsDoNotMark(l: Ladder, e: Expectation, step: Step, id: MatchId)
    requires !step.FinalizeStep?
    ensures Marked(Next(l, e, step), id) <==> Marked(l, id)
  {
  }

  /** Finalization is exactly-once over any sequence of calls, aborted and conflicting ones included: at most one call
      is applied, exactly one iff the run sets the marker, and what it stored never changes again. */
  lemma {:induction false} AppliedExactlyOnce(l: Ladder, e: Expectation, steps: seq<Step>, id: MatchId)
    requires !Marked(l, id)
    ensures Applications(l, e, steps, id) == if Marked(Run(l, e, steps), id) then 1 else 0
  {
    if steps != [] {
      var init := steps[..|steps| - 1];
      AppliedExactlyOnce(l, e, init, id);
      var step := steps[|steps| - 1];
      if step.FinalizeStep? { FinalizeMarks(Run(l, e, init), step.input, e, id); } else { OtherStepsDoNotMark(Run(l, e, init), e, step, id); }
    }
  }

  lemma {:induction false} FinalizedIsForever(l: Ladder, e: Expectation, steps: seq<Step>, id: MatchId)
    requires Inv(l) && id in l.matches && l.matches[id].finalizedAt.Some?
    ensures var r := Run(l, e, steps);
            id in r.matches && r.matches[id] == l.matches[id] && MatchChanges(r.changes, id) == MatchChanges(l.changes, id)
  {
    if steps != [] {
      var init := steps[..|steps| - 1];
      FinalizedIsForever(l, e, init, id);
      RunKeepsInv(l, e, init);
      FinalizedStaysPut(Run(l, e, init), e, steps[|steps| - 1], id);
    }
  }

  /** The rating history telescopes in every reachable state. */
  lemma HistoryTelescopes(l: Ladder, e: Expectation, steps: seq<Step>, season: SeasonId, user: UserId)
    requires Inv(l) && (season, user) in Run(l, e, steps).standings
    ensures var r := Run(l, e, steps);
            var st, h := r.standings[(season, user)], History(r.changes, season, user);
            && Telescopes(st, h)
            && st.wins + st.losses + st.ties == st.played == |h| && st.abandons <= st.played
            && (h != [] ==> st.rating == h[0].oldRating + SumTotals(h))
            && 0 <= st.rating <= st.peak
  {
    RunKeepsInv(l, e, steps);
    TelescopingFacts(Run(l, e, steps).standings[(season, user)], History(Run(l, e, steps).changes, season, user));
  }

  // ---- Seasons ----

  /** Over any interleaving: one active season, the last; consecutive sequences; and each season opens at the instant
      its predecessor closed, never before the predecessor's end. */
  lemma SeasonsStaySafe(l: Ladder, e: Expectation, steps: seq<Step>)
    requires Inv(l)
    ensures var s := Run(l, e, steps).seasons;
            && s != []
            && (forall i | 0 <= i < |s| :: s[i].status.SeasonActive? <==> i == |s| - 1)
            && (forall i | 0 < i < |s| :: Succeeds(s[i - 1], s[i]))
  {
    RunKeepsInv(l, e, steps);
    OnlyLastIsActive(Run(l, e, steps).seasons);
  }

  lemma OnlyLastIsActive(s: seq<Season>)
    requires SeasonsOk(s)
    ensures forall i | 0 <= i < |s| :: s[i].status.SeasonActive? <==> i == |s| - 1
    ensures forall i | 0 < i < |s| :: Succeeds(s[i - 1], s[i])
  {
    SuccessionMeans(s);
    forall i | 0 <= i < |s| - 1 ensures s[i].status.SeasonClosed? { assert Succeeds(s[i + 1 - 1], s[i + 1]); }
  }

  /** A rollover that applied skips when tried again before the season it opened has run out, so a second one at the
      same instant always does. */
  lemma SecondRolloverSkips(l: Ladder, cfg: RolloverConfig, goodStanding: set<UserId>, now: Instant, later: RolloverConfig, goodLater: set<UserId>, at: Instant)
    requires Inv(l) && RollOver(l, cfg, goodStanding, now).1.Opened? && at < now + Normalized(cfg).duration
    ensures var r := RollOver(l, cfg, goodStanding, now).0;
            RollOver(r, later, goodLater, at) == (r, Skipped)
    ensures Normalized(cfg).duration > 0
  {
    ActiveIsLast(l.seasons);
    RollOverKeepsInv(l, cfg, goodStanding, now);
    ActiveIsLast(RollOver(l, cfg, goodStanding, now).0.seasons);
  }

  lemma {:induction false} SequencesAscend(seasons: seq<Season>)
    requires Succession(seasons) && seasons != []
    ensures forall i | 0 <= i < |seasons| :: seasons[i].sequence <= seasons[|seasons| - 1].sequence
  {
    if |seasons| > 1 { SequencesAscend(seasons[..|seasons| - 1]); }
  }

  /** A rollover never finds its sequence taken: it applies exactly when the active season has ended. */
  lemma RolloverNeverCollides(l: Ladder, cfg: RolloverConfig, goodStanding: set<UserId>, now: Instant)
    requires Inv(l)
    ensures RollOver(l, cfg, goodStanding, now).1 == if l.seasons[|l.seasons| - 1].endsAt > now then Skipped else Opened(|l.seasons| - 1, |l.seasons|)
  {
    ActiveIsLast(l.seasons);
    SequencesAscend(l.seasons);
  }

  lemma ClosedStep(l: Ladder, e: Expectation, step: Step, k: (SeasonId, UserId))
    requires SeasonsOk(l.seasons) && k in l.standings && k.0 + 1 < |l.seasons|
    ensures k in Next(l, e, step).standings && Next(l, e, step).standings[k] == l.standings[k]
    ensures |Next(l, e, step).seasons| >= |l.seasons|
  {
    ActiveIsLast(l.seasons);
    if step.FinalizeStep? {
      var c, standings := FinalizeCases(l, step.input, e);
    }
  }

  lemma {:induction false} EarlierSeasonsAreFrozen(l: Ladder, e: Expectation, steps: seq<Step>, k: (SeasonId, UserId))
    requires Inv(l) && k in l.standings && k.0 + 1 < |l.seasons|
    ensures var r := Run(l, e, steps);
            k in r.standings && r.standings[k] == l.standings[k] && |r.seasons| >= |l.seasons|
  {
    if steps != [] {
      var init := steps[..|steps| - 1];
      EarlierSeasonsAreFrozen(l, e, init, k);
      RunKeepsInv(l, e, init);
      ClosedStep(Run(l, e, init), e, steps[|steps| - 1], k);
    }
  }

  /** The standings of a closed season keep their rating, counters and final position forever. */
  lemma ClosedStandingsAreFrozen(l: Ladder, e: Expectation, steps: seq<Step>, k: (SeasonId, UserId))
    requires Inv(l) && k in l.standings && k.0 < |l.seasons| && l.seasons[k.0].status.SeasonClosed?
    ensures k in Run(l, e, steps).standings && Run(l, e, steps).standings[k] == l.standings[k]
  {
    OnlyLastIsActive(l.seasons);
    EarlierSeasonsAreFrozen(l, e, steps, k);
  }
}
