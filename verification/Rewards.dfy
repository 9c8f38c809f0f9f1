/** Sums over finite sets. */
module Sums {
  ghost function SumOver<K(!new)>(s: set<K>, f: K -> int): int
    decreases |s|
  {
    if s == {} then 0
    else
      var k :| k in s;
      f(k) + SumOver(s - {k}, f)
  }

  lemma {:induction false} PickAny<K(!new)>(s: set<K>, f: K -> int, k: K)
    requires k in s
    ensures SumOver(s, f) == f(k) + SumOver(s - {k}, f)
    decreases |s|
  {
    var first :| first in s && SumOver(s, f) == f(first) + SumOver(s - {first}, f);
    if first != k {
      PickAny(s - {first}, f, k);
      PickAny(s - {k}, f, first);
      assert s - {first} - {k} == s - {k} - {first};
    }
  }

  lemma {:induction false} SameSum<K(!new)>(s: set<K>, f: K -> int, g: K -> int)
    requires forall k | k in s :: f(k) == g(k)
    ensures SumOver(s, f) == SumOver(s, g)
    decreases |s|
  {
    if s != {} {
      var k :| k in s;
      PickAny(s, f, k);
      PickAny(s, g, k);
      SameSum(s - {k}, f, g);
    }
  }

  /** Raising one term, or adding one, raises the sum by as much. */
  lemma OneTermMore<K(!new)>(s: set<K>, s': set<K>, f: K -> int, g: K -> int, k: K, more: int)
    requires s' == s + {k} && forall j | j in s && j != k :: f(j) == g(j)
    requires g(k) == (if k in s then f(k) else 0) + more
    ensures SumOver(s', g) == SumOver(s, f) + more
  {
    PickAny(s', g, k);
    SameSum(s' - {k}, f, g);
    if k in s {
      PickAny(s, f, k);
      assert s' - {k} == s - {k};
    } else {
      assert s' - {k} == s;
    }
  }
}

/** Reward ledgers: saturating mission progress, exactly-once experience points and the level formula. */
module Rewards {
  import opened Wrappers
  import opened Sums

  type UserId = int
  type MissionId = int
  type AttemptId = int
  type ChallengeId = int

  const EXPERIENCE_PER_LEVEL := 1000

  datatype Owner = User(id: UserId) | Guest(hash: string)

  datatype Mission = Mission(target: int, rewardXp: int, active: bool, startsAt: int, endsAt: Option<int>)

  /** What makes an event unique: its attempt, or its challenge when it is not tied to one. */
  datatype Source = OfAttempt(attempt: AttemptId) | OfChallenge(challenge: ChallengeId)

  datatype Event = Event(mission: MissionId, owner: Owner, source: Source, kind: string, delta: int)

  datatype Progress = Progress(current: int, target: int, completed: bool, claimedAt: Option<int>)

  datatype Attempt = Attempt(owner: Owner, awardedXp: int)

  datatype Profile = Profile(xp: int, level: int)

  datatype Ledger = Ledger(
    missions: map<MissionId, Mission>, events: seq<Event>, progress: map<(MissionId, Owner), Progress>,
    attempts: map<AttemptId, Attempt>, profiles: map<UserId, Profile>)

  function Min(a: int, b: int): int { if a < b then a else b }

  function LevelFor(xp: int): int { 1 + xp / EXPERIENCE_PER_LEVEL }

  // ---- Transactions ----

  predicate Duplicate(events: seq<Event>, e: Event) {
    exists i :: 0 <= i < |events| && events[i].mission == e.mission && events[i].owner == e.owner && events[i].source == e.source && events[i].kind == e.kind
  }

  /** The row an accepted event inserts, or merges into the stored one with LEAST. */
  function Merged(stored: Option<Progress>, mission: Mission, delta: int): Progress {
    var first := Min(delta, mission.target);
    match stored
    case None => Progress(first, mission.target, first >= mission.target, None)
    case Some(p) =>
      var current := Min(p.current + first, p.target);
      Progress(current, p.target, current >= p.target, p.claimedAt)
  }

  /** A non-positive delta is dropped by the service; a mission is stored with its first event. */
  function ApplyMissionProgressEvent(l: Ledger, mission: Mission, e: Event): Ledger {
    if e.delta <= 0 then l
    else
      var missions := if e.mission in l.missions then l.missions else l.missions[e.mission := mission];
      if Duplicate(l.events, e) then l.(missions := missions)
      else
        var k := (e.mission, e.owner);
        var stored := if k in l.progress then Some(l.progress[k]) else None;
        l.(missions := missions, events := l.events + [e], progress := l.progress[k := Merged(stored, missions[e.mission], e.delta)])
  }

  datatype ClaimResult = Claimed | AlreadyClaimed | Forbidden | NotFound | NotReady | NoProfile

  predicate Claimable(m: Mission, now: int) { m.active && m.startsAt <= now && (m.endsAt.None? || m.endsAt.value > now) }

  function Credited(profiles: map<UserId, Profile>, user: UserId, xp: int): map<UserId, Profile>
    requires user in profiles
  {
    profiles[user := Profile(profiles[user].xp + xp, 1 + (profiles[user].xp + xp) / EXPERIENCE_PER_LEVEL)]
  }

  function ClaimMissionAndAwardXP(l: Ledger, mission: MissionId, owner: Owner, now: int): (Ledger, ClaimResult) {
    var k := (mission, owner);
    if owner.Guest? then (l, Forbidden)
    else if mission !in l.missions || !Claimable(l.missions[mission], now) || k !in l.progress then (l, NotFound)
    else if l.progress[k].claimedAt.Some? then (l, AlreadyClaimed)
    else if !l.progress[k].completed then (l, NotReady)
    else
      var reward := l.missions[mission].rewardXp;
      if reward > 0 && owner.id !in l.profiles then (l, NoProfile)
      else
        (l.(progress := l.progress[k := l.progress[k].(claimedAt := Some(now))],
            profiles := if reward > 0 then Credited(l.profiles, owner.id, reward) else l.profiles),
         Claimed)
  }

  function AwardAccountXP(l: Ledger, attempt: AttemptId, xp: int): Ledger {
    if xp <= 0 || attempt !in l.attempts || l.attempts[attempt].awardedXp > 0 || l.attempts[attempt].owner.Guest? then l
    else if l.attempts[attempt].owner.id !in l.profiles then l
    else
      l.(profiles := Credited(l.profiles, l.attempts[attempt].owner.id, xp), attempts := l.attempts[attempt := l.attempts[attempt].(awardedXp := xp)])
  }

  function CompletionXP(totalScore: int): int { 100 + (if totalScore < 0 then 0 else totalScore) / 100 }

  datatype Step =
    | OpenProfile(user: UserId)
    | StartAttempt(attempt: AttemptId, owner: Owner)
    | FinishAttempt(attempt: AttemptId, totalScore: int)
    | Progressed(mission: Mission, event: Event)
    | Claim(missionId: MissionId, claimant: Owner, now: int)

  function Next(l: Ledger, step: Step): Ledger {
    match step
    case OpenProfile(u) => if u in l.profiles then l else l.(profiles := l.profiles[u := Profile(0, 1)])
    case StartAttempt(a, owner) => if a in l.attempts then l else l.(attempts := l.attempts[a := Attempt(owner, 0)])
    case FinishAttempt(a, score) => AwardAccountXP(l, a, CompletionXP(score))
    case Progressed(m, e) => ApplyMissionProgressEvent(l, m, e)
    case Claim(m, claimant, now) => ClaimMissionAndAwardXP(l, m, claimant, now).0
  }

  function Run(l: Ledger, steps: seq<Step>): Ledger {
    if steps == [] then l else Next(Run(l, steps[..|steps| - 1]), steps[|steps| - 1])
  }

  const EMPTY := Ledger(map[], [], map[], map[], map[])

  // ---- Mission progress ----

  /** The deltas of the distinct events accepted for one mission and owner. */
  function SumDeltas(events: seq<Event>, mission: MissionId, owner: Owner): int {
    if events == [] then 0
    else
      var last := events[|events| - 1];
      SumDeltas(events[..|events| - 1], mission, owner) + if last.mission == mission && last.owner == owner then last.delta else 0
  }

  predicate Distinct(events: seq<Event>) {
    if events == [] then true else Distinct(events[..|events| - 1]) && !Duplicate(events[..|events| - 1], events[|events| - 1])
  }

  /** How many events were accepted for one mission and owner. */
  function CountEvents(events: seq<Event>, mission: MissionId, owner: Owner): nat {
    if events == [] then 0
    else
      var last := events[|events| - 1];
      CountEvents(events[..|events| - 1], mission, owner) + if last.mission == mission && last.owner == owner then 1 else 0
  }

  /** The target added up once per event. */
  function Repeated(target: int, count: nat): int { if count == 0 then 0 else Repeated(target, count - 1) + target }

  /** The value the row holds after `count` events that add up to `total`. Each delta is capped at the target as well as
      the sum, so a negative target is counted once per event. */
  function ValueAfter(target: int, total: int, count: nat): int { if target >= 0 then Min(target, total) else Repeated(target, count) }

  /** Progress is a function of the accepted events. */
  predicate ProgressOk(l: Ledger, mission: MissionId, owner: Owner) {
    var k, total, count := (mission, owner), SumDeltas(l.events, mission, owner), CountEvents(l.events, mission, owner);
    && total >= count && (k in l.progress <==> count > 0)
    && (k in l.progress ==>
          var p := l.progress[k];
          && mission in l.missions && p.target == l.missions[mission].target
          && (p.completed <==> p.current >= p.target)
          && p.current == ValueAfter(p.target, total, count))
  }

  lemma EventsAppend(events: seq<Event>, e: Event, mission: MissionId, owner: Owner)
    ensures var own := e.mission == mission && e.owner == owner;
            && SumDeltas(events + [e], mission, owner) == SumDeltas(events, mission, owner) + (if own then e.delta else 0)
            && CountEvents(events + [e], mission, owner) == CountEvents(events, mission, owner) + (if own then 1 else 0)
  {
    assert (events + [e])[..|events|] == events;
  }

  /** Merging one more event moves the row to the value after it. */
  lemma MergedIsNextValue(stored: Option<Progress>, m: Mission, delta: int, total: int, count: nat)
    requires delta > 0 && total >= count && (stored.Some? <==> count > 0) && (count == 0 ==> total == 0)
    requires stored.Some? ==> stored.value.target == m.target && stored.value.current == ValueAfter(m.target, total, count)
    ensures var p := Merged(stored, m, delta);
            && p.target == m.target && p.current == ValueAfter(m.target, total + delta, count + 1)
            && (p.completed <==> p.current >= p.target)
  {
    RepeatedFalls(m.target, count);
  }

  /** A negative target counted twice is below itself. */
  lemma {:induction false} RepeatedFalls(target: int, count: nat)
    ensures target < 0 && count >= 1 ==> Repeated(target, count) <= target && (Repeated(target, count) == target <==> count == 1)
    ensures target < 0 ==> Repeated(target, count) <= 0
  {
    if count >= 1 { RepeatedFalls(target, count - 1); }
  }

  lemma {:induction false} NoEventsNoSum(events: seq<Event>, mission: MissionId, owner: Owner)
    requires CountEvents(events, mission, owner) == 0
    ensures SumDeltas(events, mission, owner) == 0
  {
    if events != [] { NoEventsNoSum(events[..|events| - 1], mission, owner); }
  }

  predicate Accepts(l: Ledger, e: Event) { e.delta > 0 && !Duplicate(l.events, e) }

  lemma OwnEventKeepsProgress(l: Ledger, m: Mission, e: Event)
    requires Accepts(l, e) && ProgressOk(l, e.mission, e.owner)
    ensures ProgressOk(ApplyMissionProgressEvent(l, m, e), e.mission, e.owner)
  {
    var k := (e.mission, e.owner);
    var stored := if k in l.progress then Some(l.progress[k]) else None;
    var stands := if e.mission in l.missions then l.missions[e.mission] else m;
    EventsAppend(l.events, e, e.mission, e.owner);
    if k !in l.progress { NoEventsNoSum(l.events, e.mission, e.owner); }
    MergedIsNextValue(stored, stands, e.delta, SumDeltas(l.events, e.mission, e.owner), CountEvents(l.events, e.mission, e.owner));
  }

  lemma EventKeepsProgress(l: Ledger, m: Mission, e: Event, mission: MissionId, owner: Owner)
    requires ProgressOk(l, mission, owner)
    ensures ProgressOk(ApplyMissionProgressEvent(l, m, e), mission, owner)
  {
    if Accepts(l, e) && e.mission == mission && e.owner == owner {
      OwnEventKeepsProgress(l, m, e);
    } else {
      EventsAppend(l.events, e, mission, owner);
    }
  }

  lemma StepKeepsProgress(l: Ledger, step: Step, mission: MissionId, owner: Owner)
    requires ProgressOk(l, mission, owner)
    ensures ProgressOk(Next(l, step), mission, owner)
  {
    if step.Progressed? { EventKeepsProgress(l, step.mission, step.event, mission, owner); }
  }

  /** In every reachable state progress is the value after the distinct accepted events, despite clamping at each step and
      repeated deliveries. */
  lemma {:induction false} RunKeepsProgress(steps: seq<Step>, mission: MissionId, owner: Owner)
    ensures ProgressOk(Run(EMPTY, steps), mission, owner) && Distinct(Run(EMPTY, steps).events)
  {
    if steps != [] {
      var init, last := steps[..|steps| - 1], steps[|steps| - 1];
      RunKeepsProgress(init, mission, owner);
      var l := Run(EMPTY, init);
      StepKeepsProgress(l, last, mission, owner);
      if last.Progressed? { assert (l.events + [last.event])[..|l.events|] == l.events; }
    }
  }

  /** In every reachable state mission progress is min(target, sum of the distinct accepted deltas) exactly when the
      target is not negative or a single event was accepted; it is completed iff it reached its target. */
  lemma ProgressIsCappedSumIff(steps: seq<Step>, mission: MissionId, owner: Owner)
    requires (mission, owner) in Run(EMPTY, steps).progress
    ensures var l := Run(EMPTY, steps);
            var p := l.progress[(mission, owner)];
            && Distinct(l.events)
            && (p.current == Min(p.target, SumDeltas(l.events, mission, owner)) <==> p.target >= 0 || CountEvents(l.events, mission, owner) == 1)
            && (p.completed <==> p.current >= p.target)
  {
    RunKeepsProgress(steps, mission, owner);
    var l := Run(EMPTY, steps);
    var p := l.progress[(mission, owner)];
    RepeatedFalls(p.target, CountEvents(l.events, mission, owner));
  }

  /** The targets of the missions the service creates. */
  const MISSION_TARGETS := {1, 3, 15000}

  /** Only missions the service creates are ever delivered to. */
  predicate ServiceMissions(steps: seq<Step>) {
    forall i | 0 <= i < |steps| && steps[i].Progressed? :: steps[i].mission.target in MISSION_TARGETS
  }

  lemma StepAddsItsMission(l: Ledger, step: Step)
    ensures forall id | id in Next(l, step).missions ::
              if id in l.missions then Next(l, step).missions[id] == l.missions[id]
              else step.Progressed? && Next(l, step).missions[id] == step.mission
  {
  }

  predicate TargetsPositive(l: Ledger) { forall m | m in l.missions :: l.missions[m].target >= 1 }

  lemma {:induction false} ServiceTargetsArePositive(steps: seq<Step>)
    requires ServiceMissions(steps)
    ensures TargetsPositive(Run(EMPTY, steps))
  {
    if steps != [] {
      var init, last := steps[..|steps| - 1], steps[|steps| - 1];
      assert ServiceMissions(init);
      ServiceTargetsArePositive(init);
      StepAddsItsMission(Run(EMPTY, init), last);
    }
  }

  /** With the missions the service creates, progress is the capped sum in every reachable state, present or not. */
  lemma ProgressIsCappedSum(steps: seq<Step>, mission: MissionId, owner: Owner)
    requires ServiceMissions(steps)
    ensures var l := Run(EMPTY, steps);
            var k, total := (mission, owner), SumDeltas(l.events, mission, owner);
            && Distinct(l.events) && total >= 0 && (k in l.progress <==> total > 0)
            && (k in l.progress ==>
                  && mission in l.missions && l.progress[k].current == Min(l.missions[mission].target, total)
                  && (l.progress[k].completed <==> total >= l.missions[mission].target))
  {
    RunKeepsProgress(steps, mission, owner);
    ServiceTargetsArePositive(steps);
    if CountEvents(Run(EMPTY, steps).events, mission, owner) == 0 { NoEventsNoSum(Run(EMPTY, steps).events, mission, owner); }
  }

  // ---- Experience points ----

  function AwardedTo(l: Ledger, user: UserId): AttemptId -> int {
    a => if a in l.attempts && l.attempts[a].owner == User(user) then l.attempts[a].awardedXp else 0
  }

  function ClaimedBy(l: Ledger, user: UserId): set<MissionId> {
    set k | k in l.progress && k.1 == User(user) && l.progress[k].claimedAt.Some? :: k.0
  }

  /** A reward of zero or less grants nothing. */
  function RewardOf(l: Ledger): MissionId -> int { m => if m in l.missions && l.missions[m].rewardXp > 0 then l.missions[m].rewardXp else 0 }

  /** Everything the user was ever granted. */
  ghost function Granted(l: Ledger, user: UserId): int {
    SumOver(l.attempts.Keys, AwardedTo(l, user)) + SumOver(ClaimedBy(l, user), RewardOf(l))
  }

  /** Every point comes from an award or a claimed reward, and the level follows from the points. */
  ghost predicate PointsOk(l: Ledger, user: UserId) {
    && (user in l.profiles ==> l.profiles[user].xp == Granted(l, user) && l.profiles[user].level == LevelFor(l.profiles[user].xp))
    && (user !in l.profiles ==> Granted(l, user) == 0)
  }

  /** Awards are never negative; what is claimed belongs to stored missions. */
  predicate Sane(l: Ledger) {
    (forall a | a in l.attempts :: l.attempts[a].awardedXp >= 0) && forall k | k in l.progress :: k.0 in l.missions
  }

  lemma SameGrants(l: Ledger, r: Ledger, user: UserId)
    requires l.attempts == r.attempts && ClaimedBy(l, user) == ClaimedBy(r, user)
    requires forall m | m in ClaimedBy(l, user) :: m in l.missions && m in r.missions && l.missions[m] == r.missions[m]
    ensures Granted(l, user) == Granted(r, user)
  {
    SameSum(l.attempts.Keys, AwardedTo(l, user), AwardedTo(r, user));
    var f, g := RewardOf(l), RewardOf(r);
    forall m | m in ClaimedBy(l, user) ensures f(m) == g(m) { }
    SameSum(ClaimedBy(l, user), f, g);
  }

  lemma AwardGrants(l: Ledger, a: AttemptId, xp: int, user: UserId)
    requires Sane(l) && PointsOk(l, user)
    ensures PointsOk(AwardAccountXP(l, a, xp), user)
  {
    var r := AwardAccountXP(l, a, xp);
    if r != l {
      assert ClaimedBy(r, user) == ClaimedBy(l, user) && l.attempts.Keys + {a} == r.attempts.Keys;
      SameSum(ClaimedBy(l, user), RewardOf(l), RewardOf(r));
      OneTermMore(l.attempts.Keys, r.attempts.Keys, AwardedTo(l, user), AwardedTo(r, user), a, if l.attempts[a].owner == User(user) then xp else 0);
    }
  }

  lemma ClaimGrants(l: Ledger, mission: MissionId, owner: Owner, now: int, user: UserId)
    requires PointsOk(l, user)
    ensures PointsOk(ClaimMissionAndAwardXP(l, mission, owner, now).0, user)
  {
    var r := ClaimMissionAndAwardXP(l, mission, owner, now).0;
    if r != l {
      if owner == User(user) {
        ClaimedGrows(l, r, mission, user, now);
        OwnClaim(l, r, mission, user);
      } else {
        ClaimedElsewhere(l, r, (mission, owner), user);
        SameClaims(l, r, user);
      }
    }
  }

  lemma OwnClaim(l: Ledger, r: Ledger, mission: MissionId, user: UserId)
    requires l.attempts == r.attempts && l.missions == r.missions && mission !in ClaimedBy(l, user)
    requires ClaimedBy(r, user) == ClaimedBy(l, user) + {mission}
    ensures Granted(r, user) == Granted(l, user) + RewardOf(l)(mission)
  {
    SameSum(l.attempts.Keys, AwardedTo(l, user), AwardedTo(r, user));
    OneTermMore(ClaimedBy(l, user), ClaimedBy(r, user), RewardOf(l), RewardOf(r), mission, RewardOf(l)(mission));
  }

  lemma SameClaims(l: Ledger, r: Ledger, user: UserId)
    requires l.attempts == r.attempts && l.missions == r.missions && ClaimedBy(r, user) == ClaimedBy(l, user)
    ensures Granted(r, user) == Granted(l, user)
  {
    SameSum(l.attempts.Keys, AwardedTo(l, user), AwardedTo(r, user));
    SameSum(ClaimedBy(l, user), RewardOf(l), RewardOf(r));
  }

  lemma ClaimedGrows(l: Ledger, r: Ledger, mission: MissionId, user: UserId, now: int)
    requires (mission, User(user)) in l.progress
    requires r.progress == l.progress[(mission, User(user)) := l.progress[(mission, User(user))].(claimedAt := Some(now))]
    ensures ClaimedBy(r, user) == ClaimedBy(l, user) + {mission}
    ensures l.progress[(mission, User(user))].claimedAt.None? ==> mission !in ClaimedBy(l, user)
  {
    forall m ensures m in ClaimedBy(r, user) <==> m in ClaimedBy(l, user) + {mission} {
      assert m in ClaimedBy(r, user) <==> (m, User(user)) in r.progress && r.progress[(m, User(user))].claimedAt.Some?;
      assert m in ClaimedBy(l, user) <==> (m, User(user)) in l.progress && l.progress[(m, User(user))].claimedAt.Some?;
    }
  }

  lemma ClaimedElsewhere(l: Ledger, r: Ledger, k: (MissionId, Owner), user: UserId)
    requires k.1 != User(user) && r.progress.Keys == l.progress.Keys + {k}
    requires forall j | j in l.progress && j != k :: r.progress[j] == l.progress[j]
    ensures ClaimedBy(r, user) == ClaimedBy(l, user)
  {
    forall m ensures m in ClaimedBy(r, user) <==> m in ClaimedBy(l, user) {
      assert m in ClaimedBy(r, user) <==> (m, User(user)) in r.progress && r.progress[(m, User(user))].claimedAt.Some?;
      assert m in ClaimedBy(l, user) <==> (m, User(user)) in l.progress && l.progress[(m, User(user))].claimedAt.Some?;
    }
  }

  lemma EventClaimsNothing(l: Ledger, m: Mission, e: Event, user: UserId)
    ensures ClaimedBy(ApplyMissionProgressEvent(l, m, e), user) == ClaimedBy(l, user)
  {
    var r := ApplyMissionProgressEvent(l, m, e);
    if r.progress != l.progress {
      forall x ensures x in ClaimedBy(r, user) <==> x in ClaimedBy(l, user) {
        assert x in ClaimedBy(r, user) <==> (x, User(user)) in r.progress && r.progress[(x, User(user))].claimedAt.Some?;
        assert x in ClaimedBy(l, user) <==> (x, User(user)) in l.progress && l.progress[(x, User(user))].claimedAt.Some?;
      }
    }
  }

  lemma EventGrantsNothing(l: Ledger, m: Mission, e: Event, user: UserId)
    requires Sane(l) && PointsOk(l, user)
    ensures PointsOk(ApplyMissionProgressEvent(l, m, e), user)
  {
    EventClaimsNothing(l, m, e, user);
    EventLeavesRest(l, m, e);
    SameGrants(l, ApplyMissionProgressEvent(l, m, e), user);
  }

  lemma EventLeavesRest(l: Ledger, m: Mission, e: Event)
    ensures var r := ApplyMissionProgressEvent(l, m, e);
            && r.attempts == l.attempts && r.profiles == l.profiles
            && forall id | id in l.missions :: id in r.missions && r.missions[id] == l.missions[id]
  {
  }

  lemma StartGrantsNothing(l: Ledger, a: AttemptId, owner: Owner, user: UserId)
    requires PointsOk(l, user) && a !in l.attempts
    ensures PointsOk(l.(attempts := l.attempts[a := Attempt(owner, 0)]), user)
  {
    var r := l.(attempts := l.attempts[a := Attempt(owner, 0)]);
    OneTermMore(l.attempts.Keys, r.attempts.Keys, AwardedTo(l, user), AwardedTo(r, user), a, 0);
    SameSum(ClaimedBy(l, user), RewardOf(l), RewardOf(r));
    assert ClaimedBy(l, user) == ClaimedBy(r, user);
  }

  lemma StepKeepsSane(l: Ledger, step: Step)
    requires Sane(l)
    ensures Sane(Next(l, step))
  {
  }

  lemma OpeningGrantsNothing(l: Ledger, newcomer: UserId, user: UserId)
    requires PointsOk(l, user) && Sane(l)
    ensures PointsOk(Next(l, OpenProfile(newcomer)), user)
  {
    SameGrants(l, Next(l, OpenProfile(newcomer)), user);
  }

  lemma StepKeepsPoints(l: Ledger, step: Step, user: UserId)
    requires Sane(l) && PointsOk(l, user)
    ensures PointsOk(Next(l, step), user)
  {
    match step
    case OpenProfile(u) => OpeningGrantsNothing(l, u, user);
    case StartAttempt(a, owner) => if a !in l.attempts { StartGrantsNothing(l, a, owner, user); }
    case FinishAttempt(a, score) => AwardGrants(l, a, CompletionXP(score), user);
    case Progressed(m, e) => EventGrantsNothing(l, m, e, user);
    case Claim(m, claimant, now) => ClaimGrants(l, m, claimant, now, user);
  }

  /** In every reachable state a user's points are exactly the awards of their attempts plus the rewards of the
      missions they claimed, and the level is one more than the points over a thousand. */
  lemma {:induction false} PointsAreGrants(steps: seq<Step>, user: UserId)
    ensures Sane(Run(EMPTY, steps)) && PointsOk(Run(EMPTY, steps), user)
  {
    if steps == [] {
      assert EMPTY.attempts.Keys == {} && ClaimedBy(EMPTY, user) == {};
    } else {
      PointsAreGrants(steps[..|steps| - 1], user);
      StepKeepsSane(Run(EMPTY, steps[..|steps| - 1]), steps[|steps| - 1]);
      StepKeepsPoints(Run(EMPTY, steps[..|steps| - 1]), steps[|steps| - 1], user);
    }
  }

  /** An awarded attempt keeps its award and a claimed mission stays claimed, so neither can pay twice. */
  lemma {:induction false} PaidStaysPaid(l: Ledger, steps: seq<Step>)
    ensures var r := Run(l, steps);
            && (forall a | a in l.attempts && l.attempts[a].awardedXp > 0 :: a in r.attempts && r.attempts[a] == l.attempts[a])
            && (forall k | k in l.progress && l.progress[k].claimedAt.Some? :: k in r.progress && r.progress[k].claimedAt == l.progress[k].claimedAt)
  {
    if steps != [] { PaidStaysPaid(l, steps[..|steps| - 1]); }
  }

  /** Repeating an award or a claim that was granted changes nothing. */
  lemma GrantsAreOnce(l: Ledger, a: AttemptId, xp: int, again: int, mission: MissionId, owner: Owner, now: int, later: int)
    ensures AwardAccountXP(l, a, xp) != l ==> AwardAccountXP(AwardAccountXP(l, a, xp), a, again) == AwardAccountXP(l, a, xp)
    ensures ClaimMissionAndAwardXP(l, mission, owner, now).1.Claimed? ==>
              ClaimMissionAndAwardXP(ClaimMissionAndAwardXP(l, mission, owner, now).0, mission, owner, later).0 == ClaimMissionAndAwardXP(l, mission, owner, now).0
  {
  }

  // ---- What is paid, and when ----

  /** An event is accepted iff its delta is positive and no earlier one has its mission, owner, source and kind; any other
      moves no progress. */
  lemma EventIsAcceptedIff(l: Ledger, m: Mission, e: Event)
    ensures var r := ApplyMissionProgressEvent(l, m, e);
            if e.delta > 0 && forall i | 0 <= i < |l.events| ::
                 l.events[i].mission != e.mission || l.events[i].owner != e.owner || l.events[i].source != e.source || l.events[i].kind != e.kind
            then r.events == l.events + [e] && (e.mission, e.owner) in r.progress
            else r.events == l.events && r.progress == l.progress
  {
  }

  /** In every reachable state a mission is claimed iff it is stored, running, reached its target, was not claimed before,
      and its reward has a profile to go to; the claim then pays exactly the reward, once, and moves nothing else. */
  lemma ClaimPaysIff(steps: seq<Step>, mission: MissionId, user: UserId, now: int)
    ensures var l := Run(EMPTY, steps);
            var (r, result) := ClaimMissionAndAwardXP(l, mission, User(user), now);
            var k := (mission, User(user));
            if && k in l.progress && l.progress[k].claimedAt.None? && mission in l.missions && l.progress[k].current >= l.missions[mission].target
               && l.missions[mission].active && l.missions[mission].startsAt <= now && (l.missions[mission].endsAt.Some? ==> now < l.missions[mission].endsAt.value)
               && (l.missions[mission].rewardXp > 0 ==> user in l.profiles)
            then
              && result.Claimed? && r.missions == l.missions && r.events == l.events && r.attempts == l.attempts
              && r.progress == l.progress[k := l.progress[k].(claimedAt := Some(now))]
              && PaidTo(l.profiles, r.profiles, user, l.missions[mission].rewardXp)
            else !result.Claimed? && r == l
  {
    RunKeepsProgress(steps, mission, User(user));
  }

  /** Only this user's profile moves: its points by the amount, if positive, and its level with them. */
  predicate PaidTo(before: map<UserId, Profile>, after: map<UserId, Profile>, user: UserId, amount: int) {
    if amount <= 0 then after == before
    else
      && user in before && user in after && after == before[user := after[user]]
      && after[user].xp == before[user].xp + amount && after[user].level == 1 + after[user].xp / 1000
  }

  /** Finishing an attempt pays its account 100 points and one more for every full hundred scored, iff the attempt was not
      paid before and the account has a profile. */
  lemma FinishingPaysIff(l: Ledger, a: AttemptId, score: int)
    ensures var r := Next(l, FinishAttempt(a, score));
            var points := 100 + (if score < 0 then 0 else score / 100);
            if a in l.attempts && l.attempts[a].awardedXp <= 0 && l.attempts[a].owner.User? && l.attempts[a].owner.id in l.profiles then
              && PaidTo(l.profiles, r.profiles, l.attempts[a].owner.id, points)
              && r == l.(profiles := r.profiles, attempts := l.attempts[a := l.attempts[a].(awardedXp := points)])
            else r == l
  {
  }

  // ---- The repository, as it runs ----

  class ChallengeRepository {
    var missions: map<MissionId, Mission>
    var events: seq<Event>
    var progress: map<(MissionId, Owner), Progress>
    var attempts: map<AttemptId, Attempt>
    var profiles: map<UserId, Profile>

    function Contents(): Ledger
      reads this
    {
      Ledger(missions, events, progress, attempts, profiles)
    }

    constructor ()
      ensures Contents() == EMPTY
    {
      missions, events, progress, attempts, profiles := map[], [], map[], map[], map[];
    }

    /** experience_points + xp, and the level from the same new total. */
    method CreditProfile(user: UserId, xp: int) returns (updated: bool)
      modifies this`profiles
      ensures updated == (user in old(profiles))
      ensures profiles == if updated then Credited(old(profiles), user, xp) else old(profiles)
    {
      if user !in profiles { return false; }
      var points := profiles[user].xp + xp;
      profiles := profiles[user := Profile(points, 1 + points / EXPERIENCE_PER_LEVEL)];
      return true;
    }

    method AwardXP(attempt: AttemptId, xp: int)
      modifies this
      ensures Contents() == AwardAccountXP(old(Contents()), attempt, xp)
    {
      if xp <= 0 || attempt !in attempts || attempts[attempt].awardedXp > 0 || attempts[attempt].owner.Guest? { return; }
      var updated := CreditProfile(attempts[attempt].owner.id, xp);
      if !updated { return; }
      attempts := attempts[attempt := attempts[attempt].(awardedXp := xp)];
    }

    /** Delivers one event to each of the active missions of its kind. */
    method ApplyMissionEvents(deliveries: seq<(Mission, Event)>)
      modifies this
      ensures Contents() == Run(old(Contents()), Deliveries(deliveries))
    {
      var i := 0;
      while i < |deliveries|
        invariant 0 <= i <= |deliveries| && Contents() == Run(old(Contents()), Deliveries(deliveries)[..i])
      {
        var (mission, event) := deliveries[i];
        assert Deliveries(deliveries)[..i + 1][..i] == Deliveries(deliveries)[..i];
        if event.delta > 0 {
          if event.mission !in missions { missions := missions[event.mission := mission]; }
          if !Duplicate(events, event) {
            var k := (event.mission, event.owner);
            events := events + [event];
            progress := progress[k := Merged(if k in progress then Some(progress[k]) else None, missions[event.mission], event.delta)];
          }
        }
        i := i + 1;
      }
      assert Deliveries(deliveries)[..i] == Deliveries(deliveries);
    }

    /** Marks the claim, then credits the reward; without a profile to credit the claim is rolled back. */
    method ClaimMission(mission: MissionId, owner: Owner, now: int) returns (result: ClaimResult)
      modifies this
      ensures (Contents(), result) == ClaimMissionAndAwardXP(old(Contents()), mission, owner, now)
    {
      var k := (mission, owner);
      if owner.Guest? { return Forbidden; }
      if mission !in missions || !Claimable(missions[mission], now) || k !in progress { return NotFound; }
      if progress[k].claimedAt.Some? { return AlreadyClaimed; }
      if !progress[k].completed { return NotReady; }
      var before := progress;
      progress := progress[k := progress[k].(claimedAt := Some(now))];
      if missions[mission].rewardXp > 0 {
        var updated := CreditProfile(owner.id, missions[mission].rewardXp);
        if !updated {
          progress := before;
          return NoProfile;
        }
      }
      return Claimed;
    }
  }

  function Deliveries(deliveries: seq<(Mission, Event)>): (r: seq<Step>)
    ensures |r| == |deliveries| && forall i | 0 <= i < |r| :: r[i] == Progressed(deliveries[i].0, deliveries[i].1)
  {
    seq(|deliveries|, i requires 0 <= i < |deliveries| => Progressed(deliveries[i].0, deliveries[i].1))
  }
}
