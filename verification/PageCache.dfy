/** Cache-aside pages under a generation number, with readers and writers interleaved step by step.

    A page is represented by the number of the commit it was computed from, so "older" is "smaller".
  */
module PageCache {
  import opened Wrappers

  type ReaderId = int
  type WriterId = int
  type PageKey = int

  /** How the generation moves: a map entry that starts at 1, or Redis INCR on a key that may be absent. */
  datatype Counter = Strict | RedisIncr

  /** What a reader does when it cannot read the generation: skip the cache, or assume generation 1. */
  datatype Fallback = Bypass | AssumeOne

  datatype Phase =
    | Started
    | Versioned(version: int)
    | Missed(version: int)
    | Bypassing
    | Loaded(version: int, loaded: nat)
    | Done(page: nat)

  /** `floor` is the newest commit whose bump had happened when the read began. */
  datatype Reader = Reader(key: PageKey, phase: Phase, floor: nat)

  /** `stored` is the counter as stored; `floor` is the newest commit bumped so far. */
  datatype State = State(
    counter: Counter, fallback: Fallback, db: nat, stored: Option<int>,
    pages: map<(int, PageKey), nat>, readers: map<ReaderId, Reader>, writers: map<WriterId, nat>, floor: nat)

  /** `Move` is a reader's next action, whatever it is; `ok` says whether its cache call succeeds. */
  datatype Step =
    | Begin(reader: ReaderId, key: PageKey)
    | Move(reader: ReaderId, ok: bool)
    | Expire(version: int, key: PageKey)
    | Commit(writer: WriterId)
    | Bump(writer: WriterId, ok: bool)

  /** Version: the default is 1. */
  function VersionOf(stored: Option<int>): int { if stored.None? || stored.value < 1 then 1 else stored.value }

  function Bumped(counter: Counter, stored: Option<int>): int {
    match counter
    case Strict => VersionOf(stored) + 1
    case RedisIncr => if stored.None? then 1 else stored.value + 1
  }

  function Init(counter: Counter, fallback: Fallback, stored: Option<int>): State {
    State(counter, fallback, 0, stored, map[], map[], map[], 0)
  }

  /** Read the generation, look the page up, read the database on a miss, then store what was read. */
  function Advance(s: State, r: Reader, ok: bool): Phase {
    match r.phase
    case Started => if ok then Versioned(VersionOf(s.stored)) else if s.fallback.Bypass? then Bypassing else Versioned(1)
    case Versioned(v) => if ok && (v, r.key) in s.pages then Done(s.pages[(v, r.key)]) else Missed(v)
    case Missed(v) => Loaded(v, s.db)
    case Bypassing => Done(s.db)
    case Loaded(_, page) => Done(page)
    case Done(page) => Done(page)
  }

  function Stores(s: State, r: Reader, ok: bool): map<(int, PageKey), nat> {
    if r.phase.Loaded? && ok then s.pages[(r.phase.version, r.key) := r.phase.loaded] else s.pages
  }

  function BumpedBy(s: State, w: WriterId, ok: bool): State
    requires w in s.writers
  {
    if !ok then s.(writers := s.writers - {w})
    else
      s.(stored := Some(Bumped(s.counter, s.stored)), floor := if s.writers[w] > s.floor then s.writers[w] else s.floor,
         writers := s.writers - {w})
  }

  function Next(s: State, step: Step): State {
    match step
    case Begin(r, key) => s.(readers := s.readers[r := Reader(key, Started, s.floor)])
    case Move(r, ok) =>
      if r !in s.readers then s
      else s.(pages := Stores(s, s.readers[r], ok), readers := s.readers[r := s.readers[r].(phase := Advance(s, s.readers[r], ok))])
    case Expire(v, key) => s.(pages := s.pages - {(v, key)})
    case Commit(w) => if w in s.writers then s else s.(db := s.db + 1, writers := s.writers[w := s.db + 1])
    case Bump(w, ok) => if w in s.writers then BumpedBy(s, w, ok) else s
  }

  function Run(s: State, steps: seq<Step>): State {
    if steps == [] then s else Next(Run(s, steps[..|steps| - 1]), steps[|steps| - 1])
  }

  /** No finished read returned a page older than a commit whose bump came before the read began. */
  predicate Coherent(s: State) {
    forall r | r in s.readers && s.readers[r].phase.Done? :: s.readers[r].phase.page >= s.readers[r].floor
  }

  // ---- The generation counter ----

  /** A bump is visible to later version reads iff the counter counts from its default, or the key already exists. */
  lemma BumpIsVisibleIff(counter: Counter, stored: Option<int>)
    ensures VersionOf(Some(Bumped(counter, stored))) > VersionOf(stored) <==> BumpsShow(counter, stored)
    ensures BumpsShow(counter, stored) ==> Bumped(counter, stored) == VersionOf(stored) + 1
  {
  }

  /** Every bump of this counter, from this stored value on, is visible. */
  predicate BumpsShow(counter: Counter, stored: Option<int>) { counter.Strict? || (stored.Some? && stored.value >= 1) }

  /** A reader takes a generation other than the current one, because it could not read the counter. */
  predicate Misreads(s: State, step: Step) {
    && s.fallback.AssumeOne? && VersionOf(s.stored) != 1
    && step.Move? && !step.ok && step.reader in s.readers && s.readers[step.reader].phase.Started?
  }

  /** No step of the run misreads: version reads succeed, or fail while the generation is still 1, or skip the cache. */
  predicate ReadsVersions(s: State, steps: seq<Step>) {
    if steps == [] then true
    else ReadsVersions(s, steps[..|steps| - 1]) && !Misreads(Run(s, steps[..|steps| - 1]), steps[|steps| - 1])
  }

  // ---- Coherence ----

  /** The newest bumped commit that a page stored under generation v must carry: nothing for later generations yet. */
  ghost predicate Inv(s: State, floorOf: int -> nat) {
    && BumpsShow(s.counter, s.stored)
    && floorOf(VersionOf(s.stored)) == s.floor <= s.db
    && (forall v: int | v <= VersionOf(s.stored) :: floorOf(v) <= s.floor)
    && (forall w | w in s.writers :: s.writers[w] <= s.db)
    && (forall k | k in s.pages :: k.0 <= VersionOf(s.stored) && s.pages[k] >= floorOf(k.0))
    && forall r | r in s.readers :: ReaderOk(s, s.readers[r], floorOf)
  }

  ghost predicate ReaderOk(s: State, r: Reader, floorOf: int -> nat) {
    && r.floor <= s.floor
    && match r.phase
       case Started => true
       case Bypassing => true
       case Versioned(v) => v <= VersionOf(s.stored) && r.floor <= floorOf(v)
       case Missed(v) => v <= VersionOf(s.stored) && r.floor <= floorOf(v)
       case Loaded(v, page) => v <= VersionOf(s.stored) && r.floor <= floorOf(v) && floorOf(v) <= page <= s.db
       case Done(page) => r.floor <= page
  }

  /** The floors of the generations so far, extended by the one a bump opens. */
  function Extended(floorOf: int -> nat, version: int, floor: nat): int -> nat { v => if v <= version then floorOf(v) else floor }

  lemma BumpKeepsInv(s: State, w: WriterId, floorOf: int -> nat)
    requires Inv(s, floorOf) && w in s.writers
    ensures var t := Next(s, Bump(w, true));
            Inv(t, Extended(floorOf, VersionOf(s.stored), t.floor))
  {
    var t := Next(s, Bump(w, true));
    BumpIsVisibleIff(s.counter, s.stored);
    forall r | r in t.readers ensures ReaderOk(t, t.readers[r], Extended(floorOf, VersionOf(s.stored), t.floor)) {
      assert ReaderOk(s, s.readers[r], floorOf);
    }
  }

  lemma AdvanceIsOk(s: State, r: Reader, ok: bool, floorOf: int -> nat)
    requires Inv(s, floorOf) && ReaderOk(s, r, floorOf)
    requires !(s.fallback.AssumeOne? && VersionOf(s.stored) != 1 && r.phase.Started? && !ok)
    ensures ReaderOk(s, r.(phase := Advance(s, r, ok)), floorOf)
    ensures forall k | k in Stores(s, r, ok) :: k.0 <= VersionOf(s.stored) && Stores(s, r, ok)[k] >= floorOf(k.0)
  {
  }

  lemma ReaderKeepsInv(s: State, step: Step, floorOf: int -> nat)
    requires Inv(s, floorOf) && !step.Bump? && !Misreads(s, step)
    ensures Inv(Next(s, step), floorOf)
  {
    var t := Next(s, step);
    if step.Move? && step.reader in s.readers { AdvanceIsOk(s, s.readers[step.reader], step.ok, floorOf); }
    forall r | r in t.readers ensures ReaderOk(t, t.readers[r], floorOf) {
      if r in s.readers { assert ReaderOk(s, s.readers[r], floorOf); }
    }
  }

  lemma NextKeepsInv(s: State, step: Step, floorOf: int -> nat) returns (floorOf': int -> nat)
    requires Inv(s, floorOf) && !Misreads(s, step)
    ensures Inv(Next(s, step), floorOf')
  {
    floorOf' := floorOf;
    if step.Bump? {
      if step.writer in s.writers && step.ok {
        floorOf' := Extended(floorOf, VersionOf(s.stored), Next(s, step).floor);
        BumpKeepsInv(s, step.writer, floorOf);
      }
    } else {
      ReaderKeepsInv(s, step, floorOf);
    }
  }

  lemma {:induction false} RunKeepsInv(s: State, steps: seq<Step>, floorOf: int -> nat) returns (floorOf': int -> nat)
    requires Inv(s, floorOf) && ReadsVersions(s, steps)
    ensures Inv(Run(s, steps), floorOf')
  {
    if steps == [] {
      floorOf' := floorOf;
    } else {
      var f := RunKeepsInv(s, steps[..|steps| - 1], floorOf);
      floorOf' := NextKeepsInv(Run(s, steps[..|steps| - 1]), steps[|steps| - 1], f);
    }
  }

  /** Whatever a reader does when it cannot read the generation: with a counter every bump of which is visible, every
      interleaving in which no reader takes a wrong generation is coherent. Slow readers that store a stale page late,
      lost bumps and expiries are included. */
  lemma VersionedReadsAreCoherent(counter: Counter, fallback: Fallback, stored: Option<int>, steps: seq<Step>)
    requires BumpsShow(counter, stored) && ReadsVersions(Init(counter, fallback, stored), steps)
    ensures Coherent(Run(Init(counter, fallback, stored), steps))
  {
    var f := RunKeepsInv(Init(counter, fallback, stored), steps, v => 0);
    var s := Run(Init(counter, fallback, stored), steps);
    forall r | r in s.readers && s.readers[r].phase.Done? ensures s.readers[r].phase.page >= s.readers[r].floor {
      assert ReaderOk(s, s.readers[r], f);
    }
  }

  lemma {:induction false} FallbackIsFixed(s: State, steps: seq<Step>)
    ensures Run(s, steps).fallback == s.fallback
  {
    if steps != [] { FallbackIsFixed(s, steps[..|steps| - 1]); }
  }

  lemma {:induction false} BypassingNeverMisreads(s: State, steps: seq<Step>)
    requires s.fallback.Bypass?
    ensures ReadsVersions(s, steps)
  {
    if steps != [] {
      BypassingNeverMisreads(s, steps[..|steps| - 1]);
      FallbackIsFixed(s, steps[..|steps| - 1]);
    }
  }

  lemma {:induction false} SuccessNeverMisreads(s: State, steps: seq<Step>)
    requires forall i | 0 <= i < |steps| :: steps[i].Move? ==> steps[i].ok
    ensures ReadsVersions(s, steps)
  {
    if steps != [] { SuccessNeverMisreads(s, steps[..|steps| - 1]); }
  }

  /** Readers that skip the cache when they cannot read the generation are coherent over every interleaving. */
  lemma IncreasingCounterIsCoherent(counter: Counter, stored: Option<int>, steps: seq<Step>)
    requires BumpsShow(counter, stored)
    ensures Coherent(Run(Init(counter, Bypass, stored), steps))
  {
    BypassingNeverMisreads(Init(counter, Bypass, stored), steps);
    VersionedReadsAreCoherent(counter, Bypass, stored, steps);
  }

  // ---- Where it fails ----

  lemma StepAlong(s: State, all: seq<Step>, i: nat, before: State, after: State)
    requires i < |all| && Run(s, all[..i]) == before && Next(before, all[i]) == after
    ensures Run(s, all[..i + 1]) == after
  {
    assert all[..i + 1][..i] == all[..i];
  }

  lemma {:induction false} RunInTwo(s: State, first: seq<Step>, second: seq<Step>)
    ensures Run(s, first + second) == Run(Run(s, first), second)
  {
    if second == [] {
      assert first + second == first;
    } else {
      assert (first + second)[..|first + second| - 1] == first + second[..|second| - 1];
      RunInTwo(s, first, second[..|second| - 1]);
    }
  }

  /** A reader misses and fills generation 1, having read it or assumed it. */
  function Filling(versionRead: bool): seq<Step> {
    [Begin(1, 0), Move(1, versionRead), Move(1, true), Move(1, true), Move(1, true)]
  }

  /** A writer commits and bumps; a second reader then begins and reads. */
  function ReadingAfterBump(versionRead: bool): seq<Step> {
    [Commit(1), Bump(1, true), Begin(2, 0), Move(2, versionRead), Move(2, true)]
  }

  function FilledState(s: State): State { s.(pages := map[(1, 0) := 0], readers := s.readers[1 := Reader(0, Done(0), 0)]) }

  function ReaderAt(s: State, phase: Phase): State { s.(readers := s.readers[1 := Reader(0, phase, 0)]) }

  lemma MoveReader(s: State, from: Phase, to: Phase, ok: bool)
    requires Advance(s, Reader(0, from, 0), ok) == to && !from.Loaded?
    ensures Next(ReaderAt(s, from), Move(1, ok)) == ReaderAt(s, to)
  {
    assert ReaderAt(s, from).readers[1 := Reader(0, to, 0)] == s.readers[1 := Reader(0, to, 0)];
  }

  lemma StoreByReader(s: State)
    requires s.pages == map[]
    ensures Next(ReaderAt(s, Loaded(1, 0)), Move(1, true)) == FilledState(s)
  {
    assert ReaderAt(s, Loaded(1, 0)).readers[1 := Reader(0, Done(0), 0)] == s.readers[1 := Reader(0, Done(0), 0)];
  }

  lemma Fills(s: State, all: seq<Step>, versionRead: bool)
    requires s.db == 0 && s.pages == map[] && s.floor == 0
    requires if versionRead then VersionOf(s.stored) == 1 else s.fallback.AssumeOne?
    requires |all| == 5 && all[0] == Begin(1, 0) && all[1] == Move(1, versionRead) && forall i | 2 <= i < 5 :: all[i] == Move(1, true)
    ensures Run(s, all) == FilledState(s)
  {
    MoveReader(s, Started, Versioned(1), versionRead);
    MoveReader(s, Versioned(1), Missed(1), true);
    MoveReader(s, Missed(1), Loaded(1, 0), true);
    StoreByReader(s);
    StepAlong(s, all, 0, s, ReaderAt(s, Started));
    StepAlong(s, all, 1, ReaderAt(s, Started), ReaderAt(s, Versioned(1)));
    StepAlong(s, all, 2, ReaderAt(s, Versioned(1)), ReaderAt(s, Missed(1)));
    StepAlong(s, all, 3, ReaderAt(s, Missed(1)), ReaderAt(s, Loaded(1, 0)));
    StepAlong(s, all, 4, ReaderAt(s, Loaded(1, 0)), FilledState(s));
    assert all[..5] == all;
  }

  /** After the commit and its bump, with a second reader at this phase. */
  function BumpedState(s: State, phase: Phase): State {
    s.(db := 1, stored := Some(Bumped(s.counter, s.stored)), floor := 1, writers := map[], readers := s.readers[2 := Reader(0, phase, 1)])
  }

  lemma CommitsAndBumps(s: State)
    requires s.db == 0 && s.floor == 0 && s.writers == map[]
    ensures Next(Next(Next(s, Commit(1)), Bump(1, true)), Begin(2, 0)) == BumpedState(s, Started)
  {
    assert map[1 := 1 as nat] - {1} == map[];
  }

  lemma MoveSecondReader(s: State, from: Phase, to: Phase, ok: bool)
    requires Advance(BumpedState(s, from), Reader(0, from, 1), ok) == to && !from.Loaded?
    ensures Next(BumpedState(s, from), Move(2, ok)) == BumpedState(s, to)
  {
    assert BumpedState(s, from).readers[2 := Reader(0, to, 1)] == s.readers[2 := Reader(0, to, 1)];
  }

  lemma ReadsStalePage(s: State, all: seq<Step>, versionRead: bool)
    requires s.pages == map[(1, 0) := 0] && s.db == 0 && s.floor == 0 && s.writers == map[]
    requires if versionRead then VersionOf(Some(Bumped(s.counter, s.stored))) == 1 else s.fallback.AssumeOne?
    requires |all| == 5 && all[0] == Commit(1) && all[1] == Bump(1, true) && all[2] == Begin(2, 0)
    requires all[3] == Move(2, versionRead) && all[4] == Move(2, true)
    ensures Run(s, all) == BumpedState(s, Done(0))
  {
    CommitsAndBumps(s);
    MoveSecondReader(s, Started, Versioned(1), versionRead);
    MoveSecondReader(s, Versioned(1), Done(0), true);
    StepAlong(s, all, 0, s, Next(s, Commit(1)));
    StepAlong(s, all, 1, Next(s, Commit(1)), Next(Next(s, Commit(1)), Bump(1, true)));
    StepAlong(s, all, 2, Next(Next(s, Commit(1)), Bump(1, true)), BumpedState(s, Started));
    StepAlong(s, all, 3, BumpedState(s, Started), BumpedState(s, Versioned(1)));
    StepAlong(s, all, 4, BumpedState(s, Versioned(1)), BumpedState(s, Done(0)));
    assert all[..5] == all;
  }

  /** Both readers of that run look under generation 1, so the second is served the page from before the commit. */
  lemma StaleReadReturnsOldPage(counter: Counter, fallback: Fallback, stored: Option<int>, versionRead: bool)
    requires if versionRead then VersionOf(stored) == 1 && VersionOf(Some(Bumped(counter, stored))) == 1 else fallback.AssumeOne?
    ensures !Coherent(Run(Init(counter, fallback, stored), Filling(versionRead) + ReadingAfterBump(versionRead)))
  {
    var s := Init(counter, fallback, stored);
    RunInTwo(s, Filling(versionRead), ReadingAfterBump(versionRead));
    Fills(s, Filling(versionRead), versionRead);
    ReadsStalePage(Run(s, Filling(versionRead)), ReadingAfterBump(versionRead), versionRead);
    assert Run(s, Filling(versionRead) + ReadingAfterBump(versionRead)).readers[2] == Reader(0, Done(0), 1);
  }

  /** A counter whose first bump does not show is incoherent although every call succeeds. */
  lemma HiddenBumpIsIncoherent(counter: Counter, fallback: Fallback, stored: Option<int>)
    requires !BumpsShow(counter, stored)
    ensures var steps := Filling(true) + ReadingAfterBump(true);
            ReadsVersions(Init(counter, fallback, stored), steps) && !Coherent(Run(Init(counter, fallback, stored), steps))
  {
    SuccessNeverMisreads(Init(counter, fallback, stored), Filling(true) + ReadingAfterBump(true));
    StaleReadReturnsOldPage(counter, fallback, stored, true);
  }

  /** For either fallback: reads are coherent over all interleavings in which no reader takes a wrong generation exactly
      when the counter counts from its default or its key already holds a positive number. */
  lemma VersionedReadsAreCoherentIff(counter: Counter, fallback: Fallback, stored: Option<int>)
    ensures (forall steps | ReadsVersions(Init(counter, fallback, stored), steps) :: Coherent(Run(Init(counter, fallback, stored), steps)))
       <==> BumpsShow(counter, stored)
  {
    if BumpsShow(counter, stored) {
      forall steps | ReadsVersions(Init(counter, fallback, stored), steps) ensures Coherent(Run(Init(counter, fallback, stored), steps)) {
        VersionedReadsAreCoherent(counter, fallback, stored, steps);
      }
    } else {
      HiddenBumpIsIncoherent(counter, fallback, stored);
    }
  }

  /** Falling back to generation 1 on failed version reads loses coherence with every counter at every generation. */
  lemma AssumingGenerationOneIsIncoherent(counter: Counter, stored: Option<int>)
    ensures exists steps :: !Coherent(Run(Init(counter, AssumeOne, stored), steps))
  {
    StaleReadReturnsOldPage(counter, AssumeOne, stored, false);
  }

  /** Over all interleavings without exception, reads are coherent exactly when readers skip a cache whose generation
      they cannot read and every bump shows. */
  lemma AlwaysCoherentIff(counter: Counter, fallback: Fallback, stored: Option<int>)
    ensures (forall steps :: Coherent(Run(Init(counter, fallback, stored), steps))) <==> fallback.Bypass? && BumpsShow(counter, stored)
  {
    if fallback.AssumeOne? {
      AssumingGenerationOneIsIncoherent(counter, stored);
    } else if BumpsShow(counter, stored) {
      forall steps ensures Coherent(Run(Init(counter, fallback, stored), steps)) { IncreasingCounterIsCoherent(counter, stored, steps); }
    } else {
      HiddenBumpIsIncoherent(counter, fallback, stored);
    }
  }

  /** The Redis counter with bypassing readers: INCR on an absent key gives 1, the default, so the first bump changes
      nothing unless the key already holds a positive number. */
  lemma RedisCounterIsCoherentIff(stored: Option<int>)
    ensures (forall steps :: Coherent(Run(Init(RedisIncr, Bypass, stored), steps))) <==> stored.Some? && stored.value >= 1
  {
    AlwaysCoherentIff(RedisIncr, Bypass, stored);
  }

  // ---- What one read returns ----

  /** No page is newer than the database. */
  predicate NothingFromTheFuture(s: State) {
    && (forall k | k in s.pages :: s.pages[k] <= s.db)
    && (forall w | w in s.writers :: s.writers[w] <= s.db) && s.floor <= s.db
    && forall r | r in s.readers ::
         match s.readers[r].phase
         case Loaded(_, page) => page <= s.db
         case Done(page) => page <= s.db
         case _ => true
  }

  lemma NextKeepsPast(s: State, step: Step)
    requires NothingFromTheFuture(s)
    ensures NothingFromTheFuture(Next(s, step))
  {
  }

  /** Over every interleaving, coherent or not, a read returns the state after some commit that has happened. */
  lemma {:induction false} ReadsAreOfThePast(counter: Counter, fallback: Fallback, stored: Option<int>, steps: seq<Step>)
    ensures NothingFromTheFuture(Run(Init(counter, fallback, stored), steps))
  {
    if steps != [] {
      ReadsAreOfThePast(counter, fallback, stored, steps[..|steps| - 1]);
      NextKeepsPast(Run(Init(counter, fallback, stored), steps[..|steps| - 1]), steps[|steps| - 1]);
    }
  }

  function OneMore(s: State, r: ReaderId, ok: bool): State { Next(s, Move(r, ok)) }

  /** A reader whose cache calls succeed is served the page of the current generation without touching the database; when
      there is none it returns the current state and leaves it as that page. One whose version read fails and who skips
      the cache returns the current state. */
  lemma ReadsHitOrFill(s: State, r: ReaderId, key: PageKey)
    ensures var begun, v := Next(s, Begin(r, key)), VersionOf(s.stored);
            if (v, key) in s.pages then
              var done := OneMore(OneMore(begun, r, true), r, true);
              done.readers[r].phase == Done(s.pages[(v, key)]) && done.pages == s.pages
            else
              var done := OneMore(OneMore(OneMore(OneMore(begun, r, true), r, true), r, true), r, true);
              done.readers[r].phase == Done(s.db) && done.pages == s.pages[(v, key) := s.db]
    ensures s.fallback.Bypass? ==>
              var done := OneMore(OneMore(Next(s, Begin(r, key)), r, false), r, true);
              done.readers[r].phase == Done(s.db) && done.pages == s.pages
  {
  }

  // ---- The in-process cache ----

  type SeasonId = int

  datatype LeaderboardKey = LeaderboardKey(season: SeasonId, version: int, limit: int, cursor: string, viewer: int)

  datatype Cached<T> = Cached(response: T, expiresAt: int)

  class MemoryPageCache<T(0)> {
    const ttl: int
    var versions: map<SeasonId, int>
    var pages: map<LeaderboardKey, Cached<T>>

    /** A non-positive or longer-than-default time to live becomes the default. */
    constructor (requested: int)
      ensures versions == map[] && pages == map[]
      ensures 1 <= ttl <= 60_000_000_000 && (1 <= requested <= 60_000_000_000 ==> ttl == requested)
    {
      ttl := if requested <= 0 || requested > 60_000_000_000 then 60_000_000_000 else requested;
      versions, pages := map[], map[];
    }

    function Stored(season: SeasonId): Option<int>
      reads this
    {
      if season in versions then Some(versions[season]) else None
    }

    method Get(key: LeaderboardKey, now: int) returns (hit: Option<T>)
      ensures hit == if key in pages && pages[key].expiresAt > now then Some(pages[key].response) else None
    {
      if key !in pages || pages[key].expiresAt <= now { return None; }
      return Some(pages[key].response);
    }

    method Set(key: LeaderboardKey, response: T, now: int)
      modifies this`pages
      ensures pages == old(pages)[key := Cached(response, now + ttl)]
    {
      pages := pages[key := Cached(response, now + ttl)];
    }

    method Version(season: SeasonId) returns (version: int)
      ensures version == VersionOf(Stored(season)) >= 1
    {
      if season in versions && versions[season] >= 1 { return versions[season]; }
      return 1;
    }

    /** Every invalidation is visible: the generation moves strictly, and no other season's does. */
    method InvalidateSeason(season: SeasonId)
      modifies this`versions
      ensures Stored(season) == Some(Bumped(Strict, old(Stored(season))))
      ensures VersionOf(Stored(season)) == old(VersionOf(Stored(season))) + 1
      ensures forall other | other != season :: Stored(other) == old(Stored(other))
    {
      var v := if season in versions then versions[season] else 1;
      if v < 1 { v := 1; }
      versions := versions[season := v + 1];
    }

    /** One cache-aside read: what it returns is either an unexpired page of the current generation or `loaded`. */
    method ReadThrough(season: SeasonId, limit: int, cursor: string, viewer: int, loaded: T, now: int) returns (response: T)
      modifies this`pages
      ensures var key := LeaderboardKey(season, VersionOf(Stored(season)), limit, cursor, viewer);
              if key in old(pages) && old(pages)[key].expiresAt > now then response == old(pages)[key].response && pages == old(pages)
              else response == loaded && pages == old(pages)[key := Cached(loaded, now + ttl)]
    {
      var version := Version(season);
      var key := LeaderboardKey(season, version, limit, cursor, viewer);
      var cached := Get(key, now);
      if cached.Some? { return cached.value; }
      Set(key, loaded, now);
      return loaded;
    }
  }
}
