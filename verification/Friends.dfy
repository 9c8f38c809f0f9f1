/** Friendship edges: the commands of backend/internal/friends/repository.go as atomic steps, over whole runs. */
module Friends {
  import opened Wrappers

  type UserId = int
  type RequestId = int
  type Pair = (UserId, UserId)

  // uuid.Nil
  const NO_USER := 0

  datatype Status = Pending | Accepted | Blocked

  datatype Edge = Edge(id: RequestId, requestedBy: UserId, status: Status, blockedBy: Option<UserId>, acceptedAt: Option<int>)

  /** The friendships table, unique on its sorted pair, with the users, the active ones and those with a profile. */
  datatype Graph = Graph(edges: map<Pair, Edge>, users: set<UserId>, active: set<UserId>, profiles: set<UserId>)

  datatype Error =
    | InvalidUserID | SelfPair | Unauthorized | TargetNotFound | AlreadyFriends | AlreadyPending | NotFound

  datatype Reply = Ok | Failed(error: Error)

  // ---- Pairs ----

  function NormalizePair(a: UserId, b: UserId): Option<Pair> {
    if a == NO_USER || b == NO_USER || a == b then None else Some(if a < b then (a, b) else (b, a))
  }

  function PairError(a: UserId, b: UserId): Error { if a == NO_USER || b == NO_USER then InvalidUserID else SelfPair }

  predicate InPair(u: UserId, p: Pair) { u == p.0 || u == p.1 }

  function Other(u: UserId, p: Pair): UserId { if u == p.0 then p.1 else p.0 }

  predicate ValidLifecycle(e: Edge) {
    match e.status
    case Pending => e.acceptedAt.None? && e.blockedBy.None?
    case Accepted => e.acceptedAt.Some? && e.blockedBy.None?
    case Blocked => e.blockedBy.Some? && e.acceptedAt.None?
  }

  // ---- Commands ----

  /** Locking a user row that does not exist reports the target missing, whichever of the two it is. */
  function CreateRequest(g: Graph, requester: UserId, target: UserId, id: RequestId): (Graph, Reply) {
    var pair := NormalizePair(requester, target);
    if pair.None? then (g, Failed(PairError(requester, target)))
    else if requester !in g.users || target !in g.users then (g, Failed(TargetNotFound))
    else if requester !in g.active then (g, Failed(Unauthorized))
    else if target !in g.active then (g, Failed(TargetNotFound))
    else if pair.value in g.edges then
      (g, Failed(match g.edges[pair.value].status
                 case Blocked => TargetNotFound
                 case Accepted => AlreadyFriends
                 case Pending => AlreadyPending))
    else if target !in g.profiles then (g, Failed(TargetNotFound))
    else (g.(edges := g.edges[pair.value := Edge(id, requester, Pending, None, None)]), Ok)
  }

  function FindRequest(g: Graph, id: RequestId): Option<Pair> {
    if p :| p in g.edges && g.edges[p].id == id && forall q | q in g.edges && g.edges[q].id == id :: q == p then Some(p) else None
  }

  /** A pending request addressed to the actor. */
  predicate Answerable(g: Graph, p: Pair, actor: UserId) {
    p in g.edges && g.edges[p].status.Pending? && InPair(actor, p) && g.edges[p].requestedBy != actor
  }

  function AcceptRequest(g: Graph, id: RequestId, acceptor: UserId, now: int): (Graph, Reply) {
    var found := FindRequest(g, id);
    if found.None? || !Answerable(g, found.value, acceptor) then (g, Failed(NotFound))
    else
      var p := found.value;
      if p.0 !in g.users || p.1 !in g.users then (g, Failed(TargetNotFound))
      else if acceptor !in g.active then (g, Failed(Unauthorized))
      else if Other(acceptor, p) !in g.profiles then (g, Failed(TargetNotFound))
      else (g.(edges := g.edges[p := g.edges[p].(status := Accepted, acceptedAt := Some(now), blockedBy := None)]), Ok)
  }

  function DeclineRequest(g: Graph, id: RequestId, actor: UserId): (Graph, Reply) {
    var found := FindRequest(g, id);
    if found.None? || !Answerable(g, found.value, actor) then (g, Failed(NotFound))
    else
      var p := found.value;
      if p.0 !in g.users || p.1 !in g.users then (g, Failed(TargetNotFound))
      else if actor !in g.active then (g, Failed(Unauthorized))
      else (g.(edges := g.edges - {p}), Ok)
  }

  function RemoveFriendship(g: Graph, actor: UserId, other: UserId): (Graph, Reply) {
    var pair := NormalizePair(actor, other);
    if pair.None? then (g, Failed(PairError(actor, other)))
    else if pair.value in g.edges && g.edges[pair.value].status.Accepted? then (g.(edges := g.edges - {pair.value}), Ok)
    else (g, Ok)
  }

  /** A missing or inactive target is a silent no-op, and an existing block keeps its owner. */
  function BlockUser(g: Graph, blocker: UserId, target: UserId, id: RequestId): (Graph, Reply) {
    var pair := NormalizePair(blocker, target);
    if pair.None? then (g, Failed(PairError(blocker, target)))
    else if blocker !in g.users || target !in g.users then
      if blocker !in g.active then (g, Failed(Unauthorized)) else (g, Ok)
    else if target !in g.active then (g, Ok)
    else if blocker !in g.active then (g, Failed(Unauthorized))
    else if pair.value in g.edges then
      if g.edges[pair.value].status.Blocked? && g.edges[pair.value].blockedBy.Some? then (g, Ok)
      else (g.(edges := g.edges[pair.value := g.edges[pair.value].(status := Blocked, blockedBy := Some(blocker), acceptedAt := None)]), Ok)
    else (g.(edges := g.edges[pair.value := Edge(id, blocker, Blocked, Some(blocker), None)]), Ok)
  }

  function UnblockUser(g: Graph, actor: UserId, other: UserId): (Graph, Reply) {
    var pair := NormalizePair(actor, other);
    if pair.None? then (g, Failed(PairError(actor, other)))
    else if pair.value in g.edges && g.edges[pair.value].status.Blocked? && g.edges[pair.value].blockedBy == Some(actor)
    then (g.(edges := g.edges - {pair.value}), Ok)
    else (g, Ok)
  }

  /** The party policy: only an accepted friendship with an active invitee may be invited. */
  predicate CanInvite(g: Graph, inviter: UserId, invitee: UserId) {
    var pair := NormalizePair(inviter, invitee);
    pair.Some? && invitee in g.active && pair.value in g.edges && g.edges[pair.value].status.Accepted?
  }

  datatype Step =
    | Request(requester: UserId, target: UserId, id: RequestId)
    | Accept(id: RequestId, acceptor: UserId, now: int)
    | Decline(id: RequestId, actor: UserId)
    | Remove(actor: UserId, other: UserId)
    | Block(blocker: UserId, target: UserId, id: RequestId)
    | Unblock(actor: UserId, other: UserId)
    | SetAccount(user: UserId, activated: bool, profiled: bool)

  function Next(g: Graph, step: Step): Graph {
    match step
    case Request(r, t, id) => CreateRequest(g, r, t, id).0
    case Accept(id, a, now) => AcceptRequest(g, id, a, now).0
    case Decline(id, a) => DeclineRequest(g, id, a).0
    case Remove(a, o) => RemoveFriendship(g, a, o).0
    case Block(b, t, id) => BlockUser(g, b, t, id).0
    case Unblock(a, o) => UnblockUser(g, a, o).0
    case SetAccount(u, on, profiled) =>
      g.(users := g.users + {u}, active := if on then g.active + {u} else g.active - {u},
         profiles := if profiled then g.profiles + {u} else g.profiles - {u})
  }

  function Run(g: Graph, steps: seq<Step>): Graph {
    if steps == [] then g else Next(Run(g, steps[..|steps| - 1]), steps[|steps| - 1])
  }

  // ---- Every reachable edge ----

  /** Stored sorted, requested and blocked by one of the pair, with the columns its status allows. */
  predicate EdgeOk(p: Pair, e: Edge) {
    && p.0 < p.1 && p.0 != NO_USER && p.1 != NO_USER
    && InPair(e.requestedBy, p) && (e.blockedBy.Some? ==> InPair(e.blockedBy.value, p))
    && ValidLifecycle(e)
  }

  predicate Inv(g: Graph) { forall p | p in g.edges :: EdgeOk(p, g.edges[p]) }

  lemma NextKeepsInv(g: Graph, step: Step)
    requires Inv(g)
    ensures Inv(Next(g, step))
  {
  }

  /** Every reachable edge is well-formed. */
  lemma {:induction false} RunKeepsInv(g: Graph, steps: seq<Step>)
    requires Inv(g)
    ensures Inv(Run(g, steps))
  {
    if steps != [] {
      RunKeepsInv(g, steps[..|steps| - 1]);
      NextKeepsInv(Run(g, steps[..|steps| - 1]), steps[|steps| - 1]);
    }
  }

  // ---- Blocks ----

  predicate BlockedBy(g: Graph, owner: UserId, other: UserId) {
    var pair := NormalizePair(owner, other);
    pair.Some? && pair.value in g.edges && g.edges[pair.value].status.Blocked? && g.edges[pair.value].blockedBy == Some(owner)
  }

  lemma BlockSurvivesStep(g: Graph, step: Step, owner: UserId, other: UserId)
    requires BlockedBy(g, owner, other) && step != Unblock(owner, other)
    ensures BlockedBy(Next(g, step), owner, other)
  {
  }

  /** Once x holds the block on y it stays, and invites stay refused both ways, until x itself unblocks y. */
  lemma {:induction false} BlockPersists(g: Graph, steps: seq<Step>, owner: UserId, other: UserId)
    requires BlockedBy(g, owner, other) && forall i | 0 <= i < |steps| :: steps[i] != Unblock(owner, other)
    ensures var r := Run(g, steps);
            BlockedBy(r, owner, other) && !CanInvite(r, owner, other) && !CanInvite(r, other, owner)
  {
    if steps != [] {
      BlockPersists(g, steps[..|steps| - 1], owner, other);
      BlockSurvivesStep(Run(g, steps[..|steps| - 1]), steps[|steps| - 1], owner, other);
    }
  }

  /** A block between two active users takes hold iff the other side does not already hold one. */
  lemma BlockTakesHoldIff(g: Graph, blocker: UserId, target: UserId, id: RequestId)
    requires Inv(g) && NormalizePair(blocker, target).Some? && {blocker, target} <= g.users * g.active
    ensures BlockedBy(BlockUser(g, blocker, target, id).0, blocker, target) <==> !BlockedBy(g, target, blocker)
    ensures BlockUser(g, blocker, target, id).1.Ok?
  {
  }

  /** The silent no-op loses the second block for good: when the first blocker lets go, nothing is left. */
  lemma SecondBlockIsLost(g: Graph, x: UserId, y: UserId, id: RequestId)
    requires BlockedBy(g, y, x) && {x, y} <= g.users * g.active
    ensures var after := UnblockUser(BlockUser(g, x, y, id).0, y, x).0;
            BlockUser(g, x, y, id).1.Ok? && !BlockedBy(after, x, y) && NormalizePair(x, y).value !in after.edges
  {
  }

  /** To the blocked side, asking looks exactly like asking someone who does not exist. */
  lemma BlockLooksLikeAbsence(g: Graph, owner: UserId, other: UserId, stranger: UserId, id: RequestId)
    requires BlockedBy(g, owner, other) && other in g.users * g.active && owner in g.users * g.active
    requires NormalizePair(other, stranger).Some? && stranger !in g.users
    ensures CreateRequest(g, other, owner, id) == CreateRequest(g, other, stranger, id) == (g, Failed(TargetNotFound))
  {
  }

  // ---- Consent ----

  /** Only the side that did not ask can turn a pending edge into a friendship, and no edge becomes one otherwise. */
  lemma OnlyTheOtherSideAccepts(g: Graph, step: Step, p: Pair)
    requires Inv(g) && p in Next(g, step).edges && Next(g, step).edges[p].status.Accepted?
    ensures p in g.edges
    ensures !g.edges[p].status.Accepted? ==>
              && g.edges[p].status.Pending? && step.Accept? && step.id == g.edges[p].id
              && step.acceptor == Other(g.edges[p].requestedBy, p) && step.acceptor in g.active
  {
  }

  /** Along a run from no edges, every friendship was accepted by the side that did not ask for it. */
  lemma {:induction false} FriendshipsHaveConsent(users: set<UserId>, active: set<UserId>, profiles: set<UserId>, steps: seq<Step>, p: Pair)
    requires var g := Run(Graph(map[], users, active, profiles), steps); p in g.edges && g.edges[p].status.Accepted?
    ensures var g := Run(Graph(map[], users, active, profiles), steps);
            exists i, now: int :: 0 <= i < |steps| && steps[i] == Accept(g.edges[p].id, Other(g.edges[p].requestedBy, p), now)
  {
    var start := Graph(map[], users, active, profiles);
    if steps != [] {
      var init, last := steps[..|steps| - 1], steps[|steps| - 1];
      var before, g := Run(start, init), Run(start, steps);
      RunKeepsInv(start, init);
      OnlyTheOtherSideAccepts(before, last, p);
      AcceptKeepsIdentity(before, last, p);
      if before.edges[p].status.Accepted? {
        FriendshipsHaveConsent(users, active, profiles, init, p);
        var i, now: int :| 0 <= i < |init| && init[i] == Accept(g.edges[p].id, Other(g.edges[p].requestedBy, p), now);
        assert steps[i] == Accept(g.edges[p].id, Other(g.edges[p].requestedBy, p), now);
      } else {
        assert steps[|init|] == Accept(g.edges[p].id, Other(g.edges[p].requestedBy, p), last.now);
      }
    }
  }

  /** Who asked for an edge is on record. */
  predicate WasAsked(steps: seq<Step>, p: Pair, e: Edge) {
    exists i :: 0 <= i < |steps| && steps[i] == Request(e.requestedBy, Other(e.requestedBy, p), e.id)
  }

  lemma NewRequest(g: Graph, step: Step, p: Pair)
    requires Inv(g) && p in Next(g, step).edges && !Next(g, step).edges[p].status.Blocked?
    ensures var e := Next(g, step).edges[p];
            if p in g.edges && !g.edges[p].status.Blocked? then g.edges[p].id == e.id && g.edges[p].requestedBy == e.requestedBy
            else step == Request(e.requestedBy, Other(e.requestedBy, p), e.id)
  {
  }

  /** Along a run from no edges, every pending request and every friendship was asked for by the side it names. */
  lemma {:induction false} EdgesWereAskedFor(users: set<UserId>, active: set<UserId>, profiles: set<UserId>, steps: seq<Step>, p: Pair)
    requires var g := Run(Graph(map[], users, active, profiles), steps); p in g.edges && !g.edges[p].status.Blocked?
    ensures WasAsked(steps, p, Run(Graph(map[], users, active, profiles), steps).edges[p])
  {
    var start := Graph(map[], users, active, profiles);
    if steps != [] {
      var init, last := steps[..|steps| - 1], steps[|steps| - 1];
      var before, e := Run(start, init), Run(start, steps).edges[p];
      RunKeepsInv(start, init);
      NewRequest(before, last, p);
      if p in before.edges && !before.edges[p].status.Blocked? {
        EdgesWereAskedFor(users, active, profiles, init, p);
        var i :| 0 <= i < |init| && init[i] == Request(e.requestedBy, Other(e.requestedBy, p), e.id);
        assert steps[i] == init[i];
      } else {
        assert steps[|init|] == last;
      }
    }
  }

  // ---- What the commands do ----

  /** A request is stored, pending and in the requester's name, iff two active users have no edge and the target has a
      profile to show. */
  lemma RequestIsStoredIff(g: Graph, requester: UserId, target: UserId, id: RequestId)
    ensures var (r, reply) := CreateRequest(g, requester, target, id);
            var p := if requester < target then (requester, target) else (target, requester);
            if requester != 0 && target != 0 && requester != target && {requester, target} <= g.users * g.active
               && p !in g.edges && target in g.profiles
            then reply.Ok? && r == g.(edges := g.edges[p := Edge(id, requester, Pending, None, None)])
            else reply.Failed? && r == g
  {
  }

  /** The one edge with this id. */
  ghost predicate OnlyEdge(g: Graph, p: Pair, id: RequestId) { p in g.edges && forall q | q in g.edges :: g.edges[q].id == id <==> q == p }

  /** A request is answered iff it is pending, the actor is the active side that was asked, and, to accept, the asker has a
      profile; accepting makes the friendship, declining removes the edge. */
  lemma RequestIsAnsweredIff(g: Graph, p: Pair, id: RequestId, actor: UserId, now: int)
    requires Inv(g) && OnlyEdge(g, p, id)
    ensures var e, (r, reply) := g.edges[p], AcceptRequest(g, id, actor, now);
            if e.status.Pending? && InPair(actor, p) && actor != e.requestedBy && {p.0, p.1} <= g.users && actor in g.active && e.requestedBy in g.profiles
            then reply.Ok? && r == g.(edges := g.edges[p := Edge(id, e.requestedBy, Accepted, None, Some(now))])
            else reply.Failed? && r == g
    ensures var e, (r, reply) := g.edges[p], DeclineRequest(g, id, actor);
            if e.status.Pending? && InPair(actor, p) && actor != e.requestedBy && {p.0, p.1} <= g.users && actor in g.active
            then reply.Ok? && r == g.(edges := g.edges - {p})
            else reply.Failed? && r == g
  {
    assert FindRequest(g, id) == Some(p);
  }

  /** Either side ends a friendship and nothing else; only the owner lifts a block and nothing else. */
  lemma OnlyFriendshipsAndOwnBlocksEnd(g: Graph, actor: UserId, other: UserId)
    requires actor != 0 && other != 0 && actor != other
    ensures var p := if actor < other then (actor, other) else (other, actor);
            && RemoveFriendship(g, actor, other) == (if p in g.edges && g.edges[p].status.Accepted? then g.(edges := g.edges - {p}) else g, Ok)
            && UnblockUser(g, actor, other) == (if BlockedBy(g, actor, other) then g.(edges := g.edges - {p}) else g, Ok)
  {
  }

  /** A block between two active users who have none yet is stored in the blocker's name, over whatever edge they had;
      anything else leaves the edges alone. */
  lemma BlockIsStoredIff(g: Graph, blocker: UserId, target: UserId, id: RequestId)
    requires Inv(g)
    ensures var r := BlockUser(g, blocker, target, id).0;
            var p := if blocker < target then (blocker, target) else (target, blocker);
            if blocker != 0 && target != 0 && blocker != target && {blocker, target} <= g.users * g.active && (p in g.edges ==> !g.edges[p].status.Blocked?)
            then
              var kept := if p in g.edges then g.edges[p] else Edge(id, blocker, Blocked, None, None);
              r == g.(edges := g.edges[p := Edge(kept.id, kept.requestedBy, Blocked, Some(blocker), None)])
            else r == g
  {
  }

  /** Asking and accepting makes two active users friends who may invite each other. */
  lemma AskingAndAcceptingBefriends(g: Graph, x: UserId, y: UserId, id: RequestId, now: int)
    requires Inv(g) && x != 0 && y != 0 && x != y && {x, y} <= g.users * g.active * g.profiles
    requires (if x < y then (x, y) else (y, x)) !in g.edges && forall q | q in g.edges :: g.edges[q].id != id
    ensures var r := Next(Next(g, Request(x, y, id)), Accept(id, y, now)); CanInvite(r, x, y) && CanInvite(r, y, x)
  {
    var p := if x < y then (x, y) else (y, x);
    RequestIsStoredIff(g, x, y, id);
    var asked := Next(g, Request(x, y, id));
    NextKeepsInv(g, Request(x, y, id));
    assert OnlyEdge(asked, p, id);
    RequestIsAnsweredIff(asked, p, id, y, now);
  }

  lemma AcceptKeepsIdentity(g: Graph, step: Step, p: Pair)
    requires Inv(g) && p in Next(g, step).edges && Next(g, step).edges[p].status.Accepted? && p in g.edges
    ensures Next(g, step).edges[p].id == g.edges[p].id && Next(g, step).edges[p].requestedBy == g.edges[p].requestedBy
  {
  }
}

/** Lock order: user rows in sorted order, then the pair row, never deadlock. */
module LockOrder {
  import opened Wrappers
  import opened Friends

  datatype Resource = UserRow(user: UserId) | PairRow(pair: Pair)

  /** Users before pairs, each in key order. */
  predicate Lower(x: Resource, y: Resource) {
    match (x, y)
    case (UserRow(a), UserRow(b)) => a < b
    case (UserRow(_), PairRow(_)) => true
    case (PairRow(_), UserRow(_)) => false
    case (PairRow(p), PairRow(q)) => p.0 < q.0 || (p.0 == q.0 && p.1 < q.1)
  }

  type TxId = int

  /** A transaction locks its plan from the front and releases everything at its end. */
  datatype Tx = Tx(plan: seq<Resource>, held: nat)

  type Locks = map<TxId, Tx>

  predicate Climbs(plan: seq<Resource>) { forall i, j | 0 <= i < j < |plan| :: Lower(plan[i], plan[j]) }

  /** What a friends command locks: both users in order, then the pair row if it reads one; deletes lock the pair only. */
  function PlanFor(step: Step, pair: Option<Pair>, rowExists: bool): seq<Resource> {
    if pair.None? then []
    else
      var row := if rowExists then [PairRow(pair.value)] else [];
      if step.Remove? || step.Unblock? then row else [UserRow(pair.value.0), UserRow(pair.value.1)] + row
  }

  lemma PlansClimb(step: Step, a: UserId, b: UserId, rowExists: bool)
    ensures Climbs(PlanFor(step, NormalizePair(a, b), rowExists))
    ensures NormalizePair(a, b).Some? ==>
              var plan := PlanFor(step, NormalizePair(a, b), rowExists);
              && (UserRow(a) in plan <==> !step.Remove? && !step.Unblock?) && (UserRow(b) in plan <==> !step.Remove? && !step.Unblock?)
              && (PairRow(NormalizePair(a, b).value) in plan <==> rowExists)
  {
  }

  predicate Holds(t: Tx, r: Resource) { exists i :: 0 <= i < t.held && i < |t.plan| && t.plan[i] == r }

  predicate Unfinished(t: Tx) { t.held < |t.plan| }

  /** t waits for u: u holds the row t needs next. */
  predicate WaitsFor(locks: Locks, t: TxId, u: TxId) {
    t in locks && u in locks && Unfinished(locks[t]) && Holds(locks[u], locks[t].plan[locks[t].held])
  }

  datatype LockStep = Enter(tx: TxId, plan: seq<Resource>) | Acquire(tx: TxId) | Leave(tx: TxId)

  predicate Free(locks: Locks, r: Resource) { forall u | u in locks :: !Holds(locks[u], r) }

  function LockNext(locks: Locks, step: LockStep): Locks {
    match step
    case Enter(t, plan) => if t in locks then locks else locks[t := Tx(plan, 0)]
    case Acquire(t) =>
      if t !in locks || !Unfinished(locks[t]) || !Free(locks, locks[t].plan[locks[t].held]) then locks
      else locks[t := locks[t].(held := locks[t].held + 1)]
    case Leave(t) => locks - {t}
  }

  function LockRun(steps: seq<LockStep>): Locks {
    if steps == [] then map[] else LockNext(LockRun(steps[..|steps| - 1]), steps[|steps| - 1])
  }

  predicate LocksOk(locks: Locks) { forall t | t in locks :: Climbs(locks[t].plan) && locks[t].held <= |locks[t].plan| }

  /** Every transaction of the run locks in ascending order. */
  predicate Disciplined(steps: seq<LockStep>) { forall i | 0 <= i < |steps| && steps[i].Enter? :: Climbs(steps[i].plan) }

  lemma LockNextOk(locks: Locks, step: LockStep)
    requires LocksOk(locks) && (step.Enter? ==> Climbs(step.plan))
    ensures LocksOk(LockNext(locks, step))
  {
  }

  lemma {:induction false} LockRunOk(steps: seq<LockStep>)
    requires Disciplined(steps)
    ensures LocksOk(LockRun(steps))
  {
    if steps != [] {
      var init := steps[..|steps| - 1];
      assert Disciplined(init);
      LockRunOk(init);
      LockNextOk(LockRun(init), steps[|steps| - 1]);
    }
  }

  /** Whoever blocks t and is itself waiting needs a strictly higher row. */
  lemma WaitingClimbs(locks: Locks, t: TxId, u: TxId)
    requires LocksOk(locks) && WaitsFor(locks, t, u) && Unfinished(locks[u])
    ensures Lower(locks[t].plan[locks[t].held], locks[u].plan[locks[u].held])
  {
  }

  /** A chain of waits climbs from its first wanted row to its last. */
  lemma {:induction false} ChainClimbs(locks: Locks, chain: seq<TxId>)
    requires LocksOk(locks) && |chain| >= 2
    requires forall i | 0 <= i < |chain| - 1 :: WaitsFor(locks, chain[i], chain[i + 1])
    requires chain[|chain| - 1] in locks && Unfinished(locks[chain[|chain| - 1]])
    ensures WaitsFor(locks, chain[0], chain[1])
    ensures var first, last := locks[chain[0]], locks[chain[|chain| - 1]];
            Lower(first.plan[first.held], last.plan[last.held])
  {
    var n := |chain|;
    assert WaitsFor(locks, chain[n - 2], chain[n - 1]);
    WaitingClimbs(locks, chain[n - 2], chain[n - 1]);
    if n > 2 {
      var init := chain[..n - 1];
      assert init[|init| - 1] == chain[n - 2];
      forall i | 0 <= i < |init| - 1 ensures WaitsFor(locks, init[i], init[i + 1]) { assert WaitsFor(locks, chain[i], chain[i + 1]); }
      ChainClimbs(locks, init);
    }
  }

  /** With any number of transactions that lock in ascending order, in every reachable state, no chain of waits closes into
      a cycle. */
  lemma WaitForGraphIsAcyclic(steps: seq<LockStep>, chain: seq<TxId>)
    requires Disciplined(steps) && |chain| >= 2 && chain[0] == chain[|chain| - 1]
    ensures exists i :: 0 <= i < |chain| - 1 && !WaitsFor(LockRun(steps), chain[i], chain[i + 1])
  {
    var locks := LockRun(steps);
    LockRunOk(steps);
    if forall i | 0 <= i < |chain| - 1 :: WaitsFor(locks, chain[i], chain[i + 1]) {
      assert WaitsFor(locks, chain[0], chain[1]);
      ChainClimbs(locks, chain);
      assert false;
    }
  }

  /** The transactions that want a higher row than t does. */
  function WantingHigher(locks: Locks, t: TxId): set<TxId>
    requires t in locks && Unfinished(locks[t])
  {
    set u | u in locks && Unfinished(locks[u]) && Lower(locks[t].plan[locks[t].held], locks[u].plan[locks[u].held])
  }

  predicate CanMove(locks: Locks, t: TxId) {
    t in locks && (!Unfinished(locks[t]) || Free(locks, locks[t].plan[locks[t].held]))
  }

  /** Following waits from any transaction reaches one that can take its next lock or is done and can release. */
  lemma {:induction false} SomeoneCanMove(locks: Locks, t: TxId)
    requires LocksOk(locks) && t in locks
    ensures exists u :: CanMove(locks, u)
    decreases if Unfinished(locks[t]) then 1 + |WantingHigher(locks, t)| else 0
  {
    if !CanMove(locks, t) {
      var u :| u in locks && Holds(locks[u], locks[t].plan[locks[t].held]);
      if Unfinished(locks[u]) {
        WaitingClimbs(locks, t, u);
        forall v | v in WantingHigher(locks, u) ensures v in WantingHigher(locks, t) {
          LowerIsTransitive(locks[t].plan[locks[t].held], locks[u].plan[locks[u].held], locks[v].plan[locks[v].held]);
        }
        FewerMembers(WantingHigher(locks, u), WantingHigher(locks, t), u);
      }
      SomeoneCanMove(locks, u);
    }
  }

  lemma FewerMembers(a: set<TxId>, b: set<TxId>, extra: TxId)
    requires a <= b && extra in b && extra !in a
    ensures |a| < |b|
  {
    assert b == a + (b - a);
    assert extra in b - a;
  }

  lemma LowerIsTransitive(x: Resource, y: Resource, z: Resource)
    requires Lower(x, y) && Lower(y, z)
    ensures Lower(x, z)
  {
  }

  /** Every transaction of the run is a friends command. */
  ghost predicate OnlyFriendsCommands(steps: seq<LockStep>) {
    forall i | 0 <= i < |steps| && steps[i].Enter? ::
      exists command, a, b, rowExists :: steps[i].plan == PlanFor(command, NormalizePair(a, b), rowExists)
  }

  /** However friends commands interleave, no chain of their lock waits closes into a cycle, and while any of them is
      running one can take its next lock or release. */
  lemma FriendsCommandsNeverDeadlock(steps: seq<LockStep>, chain: seq<TxId>, t: TxId)
    requires OnlyFriendsCommands(steps)
    ensures |chain| >= 2 && chain[0] == chain[|chain| - 1] ==> exists i :: 0 <= i < |chain| - 1 && !WaitsFor(LockRun(steps), chain[i], chain[i + 1])
    ensures t in LockRun(steps) ==> exists u :: CanMove(LockRun(steps), u)
  {
    forall i | 0 <= i < |steps| && steps[i].Enter? ensures Climbs(steps[i].plan) {
      var command, a, b, rowExists :| steps[i].plan == PlanFor(command, NormalizePair(a, b), rowExists);
      PlansClimb(command, a, b, rowExists);
    }
    LockRunOk(steps);
    if |chain| >= 2 && chain[0] == chain[|chain| - 1] { WaitForGraphIsAcyclic(steps, chain); }
    if t in LockRun(steps) { SomeoneCanMove(LockRun(steps), t); }
  }

  lemma LockRunOn(steps: seq<LockStep>, step: LockStep)
    ensures LockRun(steps + [step]) == LockNext(LockRun(steps), step)
  {
    assert (steps + [step])[..|steps|] == steps;
  }

  /** Two transactions enter and each takes its first lock. */
  function BothStart(one: seq<Resource>, two: seq<Resource>): seq<LockStep> { [Enter(1, one)] + [Enter(2, two)] + [Acquire(1)] + [Acquire(2)] }

  lemma AfterBothStart(one: seq<Resource>, two: seq<Resource>)
    requires one != [] && two != [] && one[0] != two[0]
    ensures LockRun(BothStart(one, two)) == map[1 := Tx(one, 1), 2 := Tx(two, 1)]
  {
    var entered := [Enter(1, one)] + [Enter(2, two)];
    LockRunOn([], Enter(1, one));
    assert [] + [Enter(1, one)] == [Enter(1, one)];
    LockRunOn([Enter(1, one)], Enter(2, two));
    assert LockRun(entered) == map[1 := Tx(one, 0), 2 := Tx(two, 0)];
    LockRunOn(entered, Acquire(1));
    var half := LockRun(entered + [Acquire(1)]);
    assert half == map[1 := Tx(one, 1), 2 := Tx(two, 0)];
    assert Free(half, two[0]);
    LockRunOn(entered + [Acquire(1)], Acquire(2));
  }

  /** Sorting first is what makes it so: two transactions that lock any two rows in opposite orders reach a state in which
      each waits for the other. */
  lemma UnsortedLocksDeadlock(x: Resource, y: Resource)
    requires x != y
    ensures var locks := LockRun(BothStart([x, y], [y, x]));
            WaitsFor(locks, 1, 2) && WaitsFor(locks, 2, 1)
  {
    AfterBothStart([x, y], [y, x]);
    var one, two := Tx([x, y], 1), Tx([y, x], 1);
    assert one.plan[0] == x && two.plan[0] == y;
  }
}

/** The commands as the repository runs them: rows locked, checked and written in turn. */
module FriendsRepository {
  import opened Wrappers
  import opened Friends
  import opened LockOrder

  class Repository {
    var edges: map<Pair, Edge>
    var users: set<UserId>
    var active: set<UserId>
    var profiles: set<UserId>
    // The rows the last command locked, in order.
    var locked: seq<Resource>

    function Contents(): Graph
      reads this
    {
      Graph(edges, users, active, profiles)
    }

    constructor ()
      ensures Contents() == Graph(map[], {}, {}, {}) && locked == []
    {
      edges, users, active, profiles, locked := map[], {}, {}, {}, [];
    }

    /** Locks the smaller id first; stops at the first user that does not exist. */
    method LockUsersInOrder(a: UserId, b: UserId) returns (found: bool)
      requires a != b
      modifies this`locked
      ensures found == (a in users && b in users)
      ensures Climbs(locked) && forall r | r in locked :: r.UserRow?
      ensures found ==> locked == if a < b then [UserRow(a), UserRow(b)] else [UserRow(b), UserRow(a)]
    {
      var order := if b < a then [b, a] else [a, b];
      locked := [];
      var i := 0;
      while i < 2
        invariant 0 <= i <= 2 && |locked| == i && Climbs(locked)
        invariant forall j | 0 <= j < i :: locked[j] == UserRow(order[j]) && order[j] in users
      {
        locked := locked + [UserRow(order[i])];
        if order[i] !in users { return false; }
        i := i + 1;
      }
      assert order[0] in users && order[1] in users;
      return true;
    }

    method LockPair(p: Pair) returns (row: Option<Edge>)
      requires Climbs(locked) && forall r | r in locked :: r.UserRow?
      modifies this`locked
      ensures row == if p in edges then Some(edges[p]) else None
      ensures Climbs(locked) && locked == old(locked) + if p in edges then [PairRow(p)] else []
    {
      if p !in edges { return None; }
      locked := locked + [PairRow(p)];
      return Some(edges[p]);
    }

    /** Inserts the pending edge, then loads the target's profile; a missing one rolls the insert back. */
    method Create(requester: UserId, target: UserId, id: RequestId) returns (reply: Reply)
      modifies this
      ensures (Contents(), reply) == CreateRequest(old(Contents()), requester, target, id)
      ensures reply.Ok? ==> locked == PlanFor(Request(requester, target, id), NormalizePair(requester, target), false)
    {
      var pair := NormalizePair(requester, target);
      if pair.None? { return Failed(PairError(requester, target)); }
      var found := LockUsersInOrder(requester, target);
      if !found { return Failed(TargetNotFound); }
      if requester !in active { return Failed(Unauthorized); }
      if target !in active { return Failed(TargetNotFound); }
      var existing := LockPair(pair.value);
      if existing.Some? {
        match existing.value.status {
          case Blocked => return Failed(TargetNotFound);
          case Accepted => return Failed(AlreadyFriends);
          case Pending => return Failed(AlreadyPending);
        }
      }
      var before := edges;
      edges := edges[pair.value := Edge(id, requester, Pending, None, None)];
      if target !in profiles {
        edges := before;
        return Failed(TargetNotFound);
      }
      return Ok;
    }

    /** Looks once without a lock to learn the pair, then locks in order and looks again. An accepted edge is rolled back
        when the other side has no profile to show. */
    method AcceptOrDecline(id: RequestId, actor: UserId, accept: bool, now: int) returns (reply: Reply)
      requires Inv(Contents())
      modifies this
      ensures (Contents(), reply) == if accept then AcceptRequest(old(Contents()), id, actor, now) else DeclineRequest(old(Contents()), id, actor)
      ensures reply.Ok? ==> locked == PlanFor(Accept(id, actor, now), FindRequest(old(Contents()), id), true)
    {
      var preview := FindRequest(Contents(), id);
      if preview.None? || !Answerable(Contents(), preview.value, actor) { return Failed(NotFound); }
      var p := preview.value;
      var found := LockUsersInOrder(p.0, p.1);
      if !found { return Failed(TargetNotFound); }
      if actor !in active { return Failed(Unauthorized); }
      var row := LockPair(p);
      if row.None? || !Answerable(Contents(), p, actor) { return Failed(NotFound); }
      if !accept {
        edges := edges - {p};
        return Ok;
      }
      var before := edges;
      edges := edges[p := row.value.(status := Accepted, acceptedAt := Some(now), blockedBy := None)];
      if Other(actor, p) !in profiles {
        edges := before;
        return Failed(TargetNotFound);
      }
      return Ok;
    }

    method BlockTarget(blocker: UserId, target: UserId, id: RequestId) returns (reply: Reply)
      modifies this
      ensures (Contents(), reply) == BlockUser(old(Contents()), blocker, target, id)
      ensures Contents() != old(Contents()) ==>
                var pair := NormalizePair(blocker, target);
                locked == PlanFor(Block(blocker, target, id), pair, pair.Some? && pair.value in old(edges))
    {
      var pair := NormalizePair(blocker, target);
      if pair.None? { return Failed(PairError(blocker, target)); }
      var found := LockUsersInOrder(blocker, target);
      if !found {
        if blocker !in active { return Failed(Unauthorized); }
        return Ok;
      }
      if target !in active { return Ok; }
      if blocker !in active { return Failed(Unauthorized); }
      var existing := LockPair(pair.value);
      if existing.None? {
        edges := edges[pair.value := Edge(id, blocker, Blocked, Some(blocker), None)];
        return Ok;
      }
      if existing.value.status.Blocked? && existing.value.blockedBy.Some? { return Ok; }
      edges := edges[pair.value := existing.value.(status := Blocked, blockedBy := Some(blocker), acceptedAt := None)];
      return Ok;
    }

    /** DELETE of an accepted edge, or of a block the actor owns. */
    method RemoveOrUnblock(actor: UserId, other: UserId, unblock: bool) returns (reply: Reply)
      modifies this`edges
      ensures (Contents(), reply) == if unblock then UnblockUser(old(Contents()), actor, other) else RemoveFriendship(old(Contents()), actor, other)
    {
      var pair := NormalizePair(actor, other);
      if pair.None? { return Failed(PairError(actor, other)); }
      if pair.value in edges {
        var e := edges[pair.value];
        if if unblock then e.status.Blocked? && e.blockedBy == Some(actor) else e.status.Accepted? { edges := edges - {pair.value}; }
      }
      return Ok;
    }
  }
}
