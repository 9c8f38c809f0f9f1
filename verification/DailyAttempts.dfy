/** Attempts of one owner at one challenge. Creating one reads the latest attempt and inserts the next in two statements
    without a lock, so any number of transactions may interleave between the two. */
module DailyAttempts {
  import opened Wrappers

  const DAILY_GAMES_PER_DAY := 5

  type TxId = int

  datatype Latest = Latest(number: int, completed: bool)

  /** `rows` maps each attempt's number to whether it is completed; `seen` holds what each open transaction has read. */
  datatype State = State(daily: bool, rows: map<int, bool>, seen: map<TxId, Option<Latest>>)

  datatype Step = ReadLatest(tx: TxId) | InsertOrReturn(tx: TxId) | Complete(number: int)

  datatype Reply = Created(number: int) | Existing(number: int) | Aborted | NotReading

  predicate IsHighest(rows: map<int, bool>, n: int) { n in rows && forall m | m in rows :: m <= n }

  /** ORDER BY daily_game_number DESC, first row. */
  ghost function LatestOf(rows: map<int, bool>): Option<Latest> {
    if n: int :| IsHighest(rows, n) then Some(Latest(n, rows[n])) else None
  }

  /** A finished daily attempt below the limit makes room for another; anything else is handed back. */
  function NumberToInsert(daily: bool, existing: Option<Latest>): Option<int> {
    match existing
    case None => Some(1)
    case Some(latest) =>
      if !daily || !latest.completed || latest.number >= DAILY_GAMES_PER_DAY then None else Some(latest.number + 1)
  }

  /** The unique key (challenge, owner, number) and the check 1..5 guard the insert. */
  function Insert(s: State, tx: TxId): (State, Reply) {
    if tx !in s.seen then (s, NotReading)
    else
      var closed := s.(seen := s.seen - {tx});
      match NumberToInsert(s.daily, s.seen[tx])
      case None => (closed, Existing(s.seen[tx].value.number))
      case Some(n) => if n in s.rows || n < 1 || n > 5 then (closed, Aborted) else (closed.(rows := s.rows[n := false]), Created(n))
  }

  ghost function Next(s: State, step: Step): State {
    match step
    case ReadLatest(tx) => s.(seen := s.seen[tx := LatestOf(s.rows)])
    case InsertOrReturn(tx) => Insert(s, tx).0
    case Complete(n) => if n in s.rows then s.(rows := s.rows[n := true]) else s
  }

  ghost function Run(s: State, steps: seq<Step>): State {
    if steps == [] then s else Next(Run(s, steps[..|steps| - 1]), steps[|steps| - 1])
  }

  /** Attempts 1..k, all but the last completed. */
  ghost predicate Consecutive(s: State, k: nat) {
    && (forall n: int :: n in s.rows <==> 1 <= n <= k)
    && (forall n | n in s.rows && n < k :: s.rows[n])
    && k <= (if s.daily then DAILY_GAMES_PER_DAY else 1)
  }

  /** What a transaction read may be out of date, but never wrong about the past. */
  predicate Plausible(s: State, seen: Option<Latest>) {
    seen.Some? ==> seen.value.number in s.rows && (seen.value.completed ==> s.rows[seen.value.number])
  }

  ghost predicate Inv(s: State, k: nat) { Consecutive(s, k) && forall tx | tx in s.seen :: Plausible(s, s.seen[tx]) }

  lemma LatestIsLast(s: State, k: nat)
    requires Consecutive(s, k)
    ensures LatestOf(s.rows) == if k == 0 then None else Some(Latest(k, s.rows[k]))
  {
    if k > 0 { assert IsHighest(s.rows, k); }
  }

  lemma InsertKeepsInv(s: State, k: nat, tx: TxId) returns (k': nat)
    requires Inv(s, k)
    ensures Inv(Insert(s, tx).0, k')
    ensures Insert(s, tx).1.Created? ==> Insert(s, tx).1 == Created(k + 1) && k' == k + 1 && (k > 0 ==> s.rows[k])
    ensures !Insert(s, tx).1.Created? ==> k' == k
  {
    k' := if Insert(s, tx).1.Created? then k + 1 else k;
  }

  lemma NextKeepsInv(s: State, k: nat, step: Step) returns (k': nat)
    requires Inv(s, k)
    ensures Inv(Next(s, step), k')
  {
    match step
    case ReadLatest(_) => LatestIsLast(s, k); k' := k;
    case InsertOrReturn(tx) => k' := InsertKeepsInv(s, k, tx);
    case Complete(_) => k' := k;
  }

  /** A transaction that reads and inserts undisturbed opens the next attempt iff there is none yet, or the challenge is
      daily, its last attempt is finished and fewer than five were made; otherwise it is handed the last one. */
  lemma UndisturbedAttemptOpensIff(s: State, k: nat, tx: TxId)
    requires Inv(s, k)
    ensures var read := Next(s, ReadLatest(tx));
            var (after, reply) := Insert(read, tx);
            if k == 0 || (s.daily && s.rows[k] && k < 5) then reply == Created(k + 1) && after.rows == s.rows[k + 1 := false]
            else reply == Existing(k) && after.rows == s.rows
  {
    LatestIsLast(s, k);
  }

  /** Under every interleaving of reads, inserts and completions the attempts are numbered 1..k without gaps or repeats,
      only the last can be unfinished, and k never exceeds five on a daily challenge or one on a shared one. */
  lemma {:induction false} AttemptsAreConsecutive(daily: bool, steps: seq<Step>) returns (k: nat)
    ensures Inv(Run(State(daily, map[], map[]), steps), k)
    ensures forall n, m | n in Run(State(daily, map[], map[]), steps).rows && m in Run(State(daily, map[], map[]), steps).rows
              && !Run(State(daily, map[], map[]), steps).rows[n] && !Run(State(daily, map[], map[]), steps).rows[m] :: n == m
  {
    if steps == [] {
      k := 0;
    } else {
      var before := AttemptsAreConsecutive(daily, steps[..|steps| - 1]);
      k := NextKeepsInv(Run(State(daily, map[], map[]), steps[..|steps| - 1]), before, steps[|steps| - 1]);
    }
  }
}
