/** Refresh-token rotation over Redis keys that expire. Requests are atomic; time only moves forward. */
module Sessions {
  import opened Wrappers
  import opened Ranking

  type Token = int
  type UserId = int

  const NANOS_PER_SECOND := 1_000_000_000

  /** A session hash: `expiresAt` is the stored column, in whole seconds; `gone` is when Redis drops the key. */
  datatype Session = Session(user: UserId, expiresAt: int, gone: int)

  /** The per-user set of token hashes, with one expiry for the whole set. */
  datatype Index = Index(tokens: set<Token>, gone: int)

  datatype Marker = Marker(user: UserId, gone: int)

  /** `issued` remembers every token ever generated: token generation never repeats one. */
  datatype Store = Store(
    ttl: int, now: int, sessions: map<Token, Session>, indexes: map<UserId, Index>, markers: map<Token, Marker>, issued: set<Token>)

  datatype Reply = Rotated | ReuseDetected | InvalidToken | SessionExpired | UserNotFound

  // ---- Keys as Redis shows them ----

  function Get(s: Store, t: Token): Option<Session> {
    if t in s.sessions && s.now < s.sessions[t].gone then Some(s.sessions[t]) else None
  }

  function RevokedUser(s: Store, t: Token): Option<UserId> {
    if t in s.markers && s.now < s.markers[t].gone then Some(s.markers[t].user) else None
  }

  function Members(s: Store, u: UserId): set<Token> {
    if u in s.indexes && s.now < s.indexes[u].gone then s.indexes[u].tokens else {}
  }

  /** RFC 3339 without fractions drops the nanoseconds. */
  function ToSeconds(t: int): int { t - t % NANOS_PER_SECOND }

  // ---- Store operations ----

  function Create(s: Store, t: Token, u: UserId): Store {
    s.(sessions := s.sessions[t := Session(u, ToSeconds(s.now + s.ttl), s.now + s.ttl)],
       indexes := s.indexes[u := Index(Members(s, u) + {t}, s.now + s.ttl)],
       issued := s.issued + {t})
  }

  function Revoke(s: Store, t: Token): Store {
    var session := Get(s, t);
    if session.None? then s
    else
      var u := session.value.user;
      s.(sessions := s.sessions - {t},
         indexes := if u in s.indexes then s.indexes[u := s.indexes[u].(tokens := s.indexes[u].tokens - {t})] else s.indexes)
  }

  function RevokeAll(s: Store, u: UserId): Store {
    s.(sessions := s.sessions - Members(s, u), indexes := s.indexes - {u})
  }

  function MarkRevoked(s: Store, t: Token, u: UserId): Store { s.(markers := s.markers[t := Marker(u, s.now + s.ttl)]) }

  // ---- Requests ----

  function Refresh(s: Store, t: Token, next: Token, userExists: bool): (Store, Reply) {
    var reused, session := RevokedUser(s, t), Get(s, t);
    if reused.Some? then (RevokeAll(s, reused.value), ReuseDetected)
    else if session.None? then (s, InvalidToken)
    else if session.value.expiresAt < s.now then (Revoke(s, t), SessionExpired)
    else if !userExists then (s, UserNotFound)
    else (Create(MarkRevoked(Revoke(s, t), t, session.value.user), next, session.value.user), Rotated)
  }

  datatype Step =
    | Wait(delay: nat)
    | Login(user: UserId, token: Token)
    | Rotate(token: Token, replacement: Token, userExists: bool)
    | Logout(token: Token)
    | ResetPassword(user: UserId)

  /** A step that would reuse a generated token does not happen. */
  function Next(s: Store, step: Step): Store {
    match step
    case Wait(d) => s.(now := s.now + d)
    case Login(u, t) => if t in s.issued then s else Create(s, t, u)
    case Rotate(t, n, found) => if n in s.issued then s else Refresh(s, t, n, found).0
    case Logout(t) => Revoke(s, t)
    case ResetPassword(u) => RevokeAll(s, u)
  }

  function Run(s: Store, steps: seq<Step>): Store {
    if steps == [] then s else Next(Run(s, steps[..|steps| - 1]), steps[|steps| - 1])
  }

  function Empty(ttl: int, now: int): Store { Store(ttl, now, map[], map[], map[], {}) }

  /** Did this step turn `t` in for a new token? */
  predicate Accepts(s: Store, step: Step, t: Token) {
    step.Rotate? && step.token == t && step.replacement !in s.issued && Refresh(s, t, step.replacement, step.userExists).1.Rotated?
  }

  // ---- The invariant ----

  /** Every session key is in its user's index, which outlives it; no key outlives one time to live from now; a token is
      a session or a marker, not both. */
  predicate Inv(s: Store) {
    && s.ttl > 0
    && (forall t | t in s.sessions :: t in s.issued && s.sessions[t].gone <= s.now + s.ttl)
    && (forall t | t in s.sessions && s.now < s.sessions[t].gone :: Indexed(s, t))
    && (forall t | t in s.markers :: t in s.issued && t !in s.sessions)
  }

  predicate Indexed(s: Store, t: Token)
    requires t in s.sessions
  {
    var u := s.sessions[t].user;
    u in s.indexes && t in s.indexes[u].tokens && s.sessions[t].gone <= s.indexes[u].gone
  }

  lemma CreateKeepsInv(s: Store, t: Token, u: UserId)
    requires Inv(s) && t !in s.issued
    ensures Inv(Create(s, t, u))
  {
  }

  lemma RevokeKeepsInv(s: Store, t: Token)
    requires Inv(s)
    ensures Inv(Revoke(s, t))
  {
  }

  lemma RevokeAllKeepsInv(s: Store, u: UserId)
    requires Inv(s)
    ensures Inv(RevokeAll(s, u))
  {
    forall t | t in RevokeAll(s, u).sessions && s.now < s.sessions[t].gone ensures s.sessions[t].user != u { assert Indexed(s, t); }
  }

  lemma RotationKeepsInv(s: Store, t: Token, n: Token)
    requires Inv(s) && n !in s.issued && Get(s, t).Some?
    ensures Inv(Create(MarkRevoked(Revoke(s, t), t, Get(s, t).value.user), n, Get(s, t).value.user))
  {
    RevokeKeepsInv(s, t);
    CreateKeepsInv(MarkRevoked(Revoke(s, t), t, Get(s, t).value.user), n, Get(s, t).value.user);
  }

  lemma NextKeepsInv(s: Store, step: Step)
    requires Inv(s)
    ensures Inv(Next(s, step))
  {
    match step
    case Wait(_) =>
    case Login(u, t) => if t !in s.issued { CreateKeepsInv(s, t, u); }
    case Rotate(t, n, found) =>
      if n !in s.issued {
        if RevokedUser(s, t).Some? { RevokeAllKeepsInv(s, RevokedUser(s, t).value); }
        RevokeKeepsInv(s, t);
        if Get(s, t).Some? { RotationKeepsInv(s, t, n); }
      }
    case Logout(t) => RevokeKeepsInv(s, t);
    case ResetPassword(u) => RevokeAllKeepsInv(s, u);
  }

  lemma {:induction false} RunKeepsInv(s: Store, steps: seq<Step>)
    requires Inv(s)
    ensures Inv(Run(s, steps))
  {
    if steps != [] {
      RunKeepsInv(s, steps[..|steps| - 1]);
      NextKeepsInv(Run(s, steps[..|steps| - 1]), steps[|steps| - 1]);
    }
  }

  /** In every reachable state each live session is in its user's index, and the index expires no earlier. */
  lemma LiveSessionsAreIndexed(ttl: int, start: int, steps: seq<Step>, t: Token)
    requires ttl > 0 && Get(Run(Empty(ttl, start), steps), t).Some?
    ensures var s := Run(Empty(ttl, start), steps);
            var u := s.sessions[t].user;
            t in Members(s, u) && s.sessions[t].gone <= s.indexes[u].gone
  {
    RunKeepsInv(Empty(ttl, start), steps);
    assert Indexed(Run(Empty(ttl, start), steps), t);
  }

  // ---- Each token at most once ----

  predicate Spent(s: Store, t: Token) { t in s.issued && t !in s.sessions }

  lemma SpentStep(s: Store, step: Step, t: Token)
    requires Spent(s, t)
    ensures Spent(Next(s, step), t) && !Accepts(s, step, t)
  {
  }

  lemma AcceptSpends(s: Store, step: Step, t: Token)
    requires Inv(s) && Accepts(s, step, t)
    ensures Spent(Next(s, step), t)
  {
  }

  function TimesAccepted(s: Store, steps: seq<Step>, t: Token): nat {
    if steps == [] then 0
    else TimesAccepted(s, steps[..|steps| - 1], t) + if Accepts(Run(s, steps[..|steps| - 1]), steps[|steps| - 1], t) then 1 else 0
  }

  lemma {:induction false} AcceptedThenSpent(s: Store, steps: seq<Step>, t: Token)
    requires Inv(s)
    ensures TimesAccepted(s, steps, t) <= 1
    ensures TimesAccepted(s, steps, t) == 1 ==> Spent(Run(s, steps), t)
  {
    if steps != [] {
      var init, last := steps[..|steps| - 1], steps[|steps| - 1];
      AcceptedThenSpent(s, init, t);
      RunKeepsInv(s, init);
      if TimesAccepted(s, init, t) == 1 { SpentStep(Run(s, init), last, t); }
      if Accepts(Run(s, init), last, t) { AcceptSpends(Run(s, init), last, t); }
    }
  }

  /** Over any run of requests with fresh tokens, a refresh token is accepted at most once. */
  lemma TokenIsAcceptedOnce(ttl: int, start: int, steps: seq<Step>, t: Token)
    requires ttl > 0
    ensures TimesAccepted(Empty(ttl, start), steps, t) <= 1
  {
    AcceptedThenSpent(Empty(ttl, start), steps, t);
  }

  // ---- After reuse or reset ----

  predicate NoLiveSession(s: Store, u: UserId) { forall t | Get(s, t).Some? && t in s.sessions :: s.sessions[t].user != u }

  lemma RevokeAllEnds(s: Store, u: UserId)
    requires Inv(s)
    ensures NoLiveSession(RevokeAll(s, u), u)
  {
    forall t | t in s.sessions && s.now < s.sessions[t].gone && s.sessions[t].user == u ensures t in Members(s, u) { assert Indexed(s, t); }
  }

  lemma NoLiveStep(s: Store, step: Step, u: UserId)
    requires NoLiveSession(s, u) && !(step.Login? && step.user == u)
    ensures NoLiveSession(Next(s, step), u)
  {
  }

  lemma {:induction false} NoLiveRun(s: Store, steps: seq<Step>, u: UserId)
    requires NoLiveSession(s, u) && forall i | 0 <= i < |steps| :: !(steps[i].Login? && steps[i].user == u)
    ensures NoLiveSession(Run(s, steps), u)
  {
    if steps != [] {
      NoLiveRun(s, steps[..|steps| - 1], u);
      NoLiveStep(Run(s, steps[..|steps| - 1]), steps[|steps| - 1], u);
    }
  }

  /** After a password reset or a detected reuse the user has no live session until they log in again, whatever other
      requests run in between. */
  lemma ReuseAndResetEndEverySession(s: Store, step: Step, u: UserId, later: seq<Step>)
    requires Inv(s) && forall i | 0 <= i < |later| :: !(later[i].Login? && later[i].user == u)
    requires step == ResetPassword(u) || (step.Rotate? && step.replacement !in s.issued && RevokedUser(s, step.token) == Some(u))
    ensures NoLiveSession(Run(Next(s, step), later), u)
    ensures step.Rotate? ==> Refresh(s, step.token, step.replacement, step.userExists).1.ReuseDetected?
  {
    RevokeAllEnds(s, u);
    NoLiveRun(Next(s, step), later, u);
  }

  // ---- Reuse detection ----

  predicate Marked(s: Store, t: Token, u: UserId, until: int) { t in s.markers && s.markers[t] == Marker(u, until) && Spent(s, t) }

  lemma MarkedStep(s: Store, step: Step, t: Token, u: UserId, until: int)
    requires Marked(s, t, u, until)
    ensures Marked(Next(s, step), t, u, until)
  {
  }

  lemma {:induction false} MarkedRun(s: Store, steps: seq<Step>, t: Token, u: UserId, until: int)
    requires Marked(s, t, u, until)
    ensures Marked(Run(s, steps), t, u, until)
  {
    if steps != [] {
      MarkedRun(s, steps[..|steps| - 1], t, u, until);
      MarkedStep(Run(s, steps[..|steps| - 1]), steps[|steps| - 1], t, u, until);
    }
  }

  /** Presenting a rotated token again is detected as reuse for one time to live after its rotation, hence at least
      until that token would itself have expired; afterwards it is merely invalid. */
  lemma RotatedTokenIsRemembered(s: Store, step: Step, t: Token, later: seq<Step>, n: Token, userExists: bool)
    requires Inv(s) && Accepts(s, step, t)
    ensures var r := Run(Next(s, step), later);
            && s.sessions[t].gone <= s.now + s.ttl
            && (r.now < s.now + s.ttl ==> Refresh(r, t, n, userExists) == (RevokeAll(r, s.sessions[t].user), ReuseDetected))
            && (r.now >= s.now + s.ttl ==> Refresh(r, t, n, userExists) == (r, InvalidToken))
  {
    AcceptSpends(s, step, t);
    MarkedRun(Next(s, step), later, t, s.sessions[t].user, s.now + s.ttl);
  }

  // ---- Good tokens are accepted ----

  /** Every session but those of `gone` and `made` is as it was. */
  ghost predicate OthersKept(s: Store, r: Store, gone: Token, made: Token) {
    forall k | k != gone && k != made :: Get(r, k) == Get(s, k)
  }

  /** A live session's token is answered by its stored expiry alone: up to it the token rotates, if its user exists, into
      the replacement, which is then a live session of that user, and afterwards it is expired. Either way, or unless the
      user is missing, the token is dead; no other session is touched. */
  lemma LiveTokenIsAnswered(s: Store, t: Token, n: Token, userExists: bool)
    requires Inv(s) && Get(s, t).Some? && n !in s.issued
    ensures var session, (r, reply) := Get(s, t).value, Refresh(s, t, n, userExists);
            if s.now > session.expiresAt then reply == SessionExpired && Get(r, t).None? && OthersKept(s, r, t, t)
            else if !userExists then reply == UserNotFound && r == s
            else
              && reply == Rotated && Get(r, t).None? && OthersKept(s, r, t, n)
              && Get(r, n) == Some(Session(session.user, (s.now + s.ttl) - (s.now + s.ttl) % 1_000_000_000, s.now + s.ttl))
  {
  }

  /** Logging out ends that session only, without a marker: presenting its token again is merely invalid. */
  lemma LogoutEndsOneSession(s: Store, t: Token, n: Token, userExists: bool)
    requires Inv(s) && Get(s, t).Some?
    ensures var r := Next(s, Logout(t)); Get(r, t).None? && OthersKept(s, r, t, t) && Refresh(r, t, n, userExists) == (r, InvalidToken)
  {
  }

  /** What a user's index lists, if it is still a session, is a session of that user. */
  predicate IndexesOwn(s: Store) {
    forall u | u in s.indexes :: forall t | t in s.indexes[u].tokens :: t in s.issued && (t in s.sessions ==> s.sessions[t].user == u)
  }

  lemma NextKeepsIndexes(s: Store, step: Step)
    requires Inv(s) && IndexesOwn(s)
    ensures IndexesOwn(Next(s, step))
  {
  }

  lemma {:induction false} RunKeepsIndexes(s: Store, steps: seq<Step>)
    requires Inv(s) && IndexesOwn(s)
    ensures IndexesOwn(Run(s, steps))
  {
    if steps != [] {
      RunKeepsIndexes(s, steps[..|steps| - 1]);
      RunKeepsInv(s, steps[..|steps| - 1]);
      NextKeepsIndexes(Run(s, steps[..|steps| - 1]), steps[|steps| - 1]);
    }
  }

  /** The step presents or logs out the token, resets its user's password, or presents a reused token of its user. */
  predicate Disturbs(s: Store, step: Step, t: Token, u: UserId) {
    match step
    case Rotate(other, _, _) => other == t || RevokedUser(s, other) == Some(u)
    case Logout(other) => other == t
    case ResetPassword(user) => user == u
    case _ => false
  }

  predicate Undisturbed(s: Store, steps: seq<Step>, t: Token, u: UserId) {
    if steps == [] then true
    else Undisturbed(s, steps[..|steps| - 1], t, u) && !Disturbs(Run(s, steps[..|steps| - 1]), steps[|steps| - 1], t, u)
  }

  predicate Stored(s: Store, t: Token, session: Session) { t in s.sessions && s.sessions[t] == session }

  lemma StoredStep(s: Store, step: Step, t: Token, session: Session)
    requires Inv(s) && IndexesOwn(s) && Stored(s, t, session) && !Disturbs(s, step, t, session.user)
    ensures Stored(Next(s, step), t, session)
  {
  }

  lemma {:induction false} StoredRun(s: Store, steps: seq<Step>, t: Token, session: Session)
    requires Inv(s) && IndexesOwn(s) && Stored(s, t, session) && Undisturbed(s, steps, t, session.user)
    ensures Stored(Run(s, steps), t, session)
  {
    if steps != [] {
      var init := steps[..|steps| - 1];
      StoredRun(s, init, t, session);
      RunKeepsInv(s, init);
      RunKeepsIndexes(s, init);
      StoredStep(Run(s, init), steps[|steps| - 1], t, session);
    }
  }

  /** The step issues this token to this user: by a login, or in exchange for an accepted token of theirs. */
  predicate Issues(s: Store, step: Step, t: Token, u: UserId) {
    t !in s.issued
    && match step
       case Login(user, token) => token == t && user == u
       case Rotate(spent, replacement, _) => replacement == t && Accepts(s, step, spent) && spent in s.sessions && s.sessions[spent].user == u
       case _ => false
  }

  lemma IssuedIsStored(s: Store, step: Step, t: Token, u: UserId)
    requires Inv(s) && Issues(s, step, t, u)
    ensures Stored(Next(s, step), t, Session(u, (s.now + s.ttl) - (s.now + s.ttl) % 1_000_000_000, s.now + s.ttl))
  {
  }

  lemma {:induction false} TtlIsFixed(s: Store, steps: seq<Step>)
    ensures Run(s, steps).ttl == s.ttl
  {
    if steps != [] { TtlIsFixed(s, steps[..|steps| - 1]); }
  }

  /** Over every run: a token issued at some time and since then neither presented nor logged out, nor ended by a reset or
      a detected reuse for its user, rotates at any time up to one time to live after it was issued, in whole seconds. In
      the rest of that last second it is expired, and once Redis has dropped its key it is invalid. */
  lemma UndisturbedTokenIsAccepted(ttl: int, start: int, before: seq<Step>, issue: Step, t: Token, u: UserId, later: seq<Step>, n: Token)
    requires ttl > 0
    requires var s := Run(Empty(ttl, start), before);
             Issues(s, issue, t, u) && Undisturbed(Next(s, issue), later, t, u) && n !in Run(Next(s, issue), later).issued
    ensures var s := Run(Empty(ttl, start), before);
            var end, r := s.now + ttl, Run(Next(s, issue), later);
            Refresh(r, t, n, true).1 == if r.now >= end then InvalidToken else if r.now > end - end % 1_000_000_000 then SessionExpired else Rotated
  {
    var s := Run(Empty(ttl, start), before);
    RunKeepsInv(Empty(ttl, start), before);
    RunKeepsIndexes(Empty(ttl, start), before);
    TtlIsFixed(Empty(ttl, start), before);
    IssuedIsStored(s, issue, t, u);
    NextKeepsInv(s, issue);
    NextKeepsIndexes(s, issue);
    var end := s.now + ttl;
    StoredRun(Next(s, issue), later, t, Session(u, end - end % 1_000_000_000, end));
    RunKeepsInv(Next(s, issue), later);
  }

  // ---- The store, as it runs ----

  /** Any order will do to list a set of hashes. */
  predicate LowerToken(x: Token, y: Token) { x < y }

  function TokensOf(hashes: seq<Token>): set<Token> { set t | t in hashes }

  class RedisSessionStore {
    const ttl: int
    var now: int
    var sessions: map<Token, Session>
    var indexes: map<UserId, Index>
    var markers: map<Token, Marker>
    var issued: set<Token>

    function Contents(): Store
      reads this
    {
      Store(ttl, now, sessions, indexes, markers, issued)
    }

    constructor (ttl: int, start: int)
      ensures Contents() == Empty(ttl, start)
    {
      this.ttl := ttl;
      now, sessions, indexes, markers, issued := start, map[], map[], map[], {};
    }

    method CreateSession(t: Token, u: UserId)
      modifies this
      ensures Contents() == Create(old(Contents()), t, u)
    {
      var kept := Members(Contents(), u);
      sessions := sessions[t := Session(u, ToSeconds(now + ttl), now + ttl)];
      indexes := indexes[u := Index(kept + {t}, now + ttl)];
      issued := issued + {t};
    }

    method RevokeToken(t: Token)
      modifies this
      ensures Contents() == Revoke(old(Contents()), t)
    {
      var session := Get(Contents(), t);
      if session.None? { return; }
      var u := session.value.user;
      sessions := sessions - {t};
      if u in indexes { indexes := indexes[u := indexes[u].(tokens := indexes[u].tokens - {t})]; }
    }

    method DeleteSessions(hashes: seq<Token>)
      modifies this`sessions
      ensures sessions == old(sessions) - TokensOf(hashes)
    {
      var i := 0;
      while i < |hashes|
        invariant 0 <= i <= |hashes| && sessions == old(sessions) - TokensOf(hashes[..i])
      {
        sessions := sessions - {hashes[i]};
        assert hashes[..i + 1] == hashes[..i] + [hashes[i]];
        assert TokensOf(hashes[..i + 1]) == TokensOf(hashes[..i]) + {hashes[i]};
        i := i + 1;
      }
      assert hashes[..i] == hashes;
    }

    /** Deletes the session of every hash in the user's index, then the index. */
    method RevokeEverySession(u: UserId)
      modifies this
      ensures Contents() == RevokeAll(old(Contents()), u)
    {
      var members := Members(Contents(), u);
      var hashes := Sorted(members, LowerToken);
      SortedIsAscending(members, LowerToken);
      assert TokensOf(hashes) == members;
      DeleteSessions(hashes);
      indexes := indexes - {u};
    }

    method RefreshToken(t: Token, next: Token, userExists: bool) returns (reply: Reply)
      modifies this
      ensures (Contents(), reply) == Refresh(old(Contents()), t, next, userExists)
    {
      var reused := RevokedUser(Contents(), t);
      if reused.Some? {
        RevokeEverySession(reused.value);
        return ReuseDetected;
      }
      var session := Get(Contents(), t);
      if session.None? { return InvalidToken; }
      if session.value.expiresAt < now {
        RevokeToken(t);
        return SessionExpired;
      }
      if !userExists { return UserNotFound; }
      RevokeToken(t);
      markers := markers[t := Marker(session.value.user, now + ttl)];
      CreateSession(next, session.value.user);
      return Rotated;
    }
  }
}
