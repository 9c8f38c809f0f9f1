/** Sorted lists and keyset pages over any strict total order.

    A table is a set of rows, so the physical order of a heap cannot matter; a query with
    ORDER BY is the one ascending list of the rows it selects.
  */
module Ranking {
  import opened Wrappers

  ghost predicate StrictTotal<T(!new)>(before: (T, T) -> bool) {
    && (forall x: T :: !before(x, x))
    && (forall x: T, y: T :: before(x, y) || before(y, x) || x == y)
    && (forall x: T, y: T, z: T :: before(x, y) && before(y, z) ==> before(x, z))
  }

  predicate Ascending<T>(l: seq<T>, before: (T, T) -> bool) {
    forall i, j | 0 <= i < j < |l| :: before(l[i], l[j])
  }

  predicate IsLeast<T>(m: T, s: set<T>, before: (T, T) -> bool) { m in s && forall x | x in s :: x == m || before(m, x) }

  lemma {:induction false} LeastExists<T(!new)>(s: set<T>, before: (T, T) -> bool)
    requires StrictTotal(before) && s != {}
    ensures exists m :: IsLeast(m, s, before)
    decreases |s|
  {
    var x :| x in s;
    if s == {x} {
      assert IsLeast(x, s, before);
    } else {
      LeastExists(s - {x}, before);
      var m :| IsLeast(m, s - {x}, before);
      var least := if before(x, m) then x else m;
      forall y | y in s ensures y == least || before(least, y) {
        assert y == x || y in s - {x};
      }
      assert IsLeast(least, s, before);
    }
  }

  /** SELECT ... ORDER BY. */
  function Sorted<T(!new, ==)>(s: set<T>, before: (T, T) -> bool): seq<T>
    requires StrictTotal(before)
    decreases |s|
  {
    if s == {} then []
    else
      LeastExists(s, before);
      var m :| m in s && forall x | x in s :: x == m || before(m, x);
      [m] + Sorted(s - {m}, before)
  }

  lemma {:induction false} SortedIsAscending<T(!new)>(s: set<T>, before: (T, T) -> bool)
    requires StrictTotal(before)
    ensures var l := Sorted(s, before);
            Ascending(l, before) && |l| == |s| && forall x :: x in l <==> x in s
    decreases |s|
  {
    if s != {} {
      LeastExists(s, before);
      var l := Sorted(s, before);
      SortedIsAscending(s - {l[0]}, before);
      assert l[1..] == Sorted(s - {l[0]}, before);
      forall x ensures x in l <==> x in s {
        if x in s && x != l[0] { assert x in l[1..]; }
      }
    }
  }

  /** A set has one ascending list. */
  lemma {:induction false} AscendingIsUnique<T(!new)>(l: seq<T>, r: seq<T>, before: (T, T) -> bool)
    requires StrictTotal(before) && Ascending(l, before) && Ascending(r, before)
    requires forall x :: x in l <==> x in r
    ensures l == r
  {
    if l == [] {
      assert forall i | 0 <= i < |r| :: r[i] in l;
    } else {
      assert l[0] in r;
      assert r[0] in l;
      HeadIsLeast(l, before);
      HeadIsLeast(r, before);
      assert l[0] == r[0];
      forall x ensures x in l[1..] <==> x in r[1..] {
        TailMembers(l, before, x);
        TailMembers(r, before, x);
      }
      AscendingIsUnique(l[1..], r[1..], before);
      assert l == [l[0]] + l[1..] && r == [r[0]] + r[1..];
    }
  }

  lemma HeadIsLeast<T(!new)>(l: seq<T>, before: (T, T) -> bool)
    requires StrictTotal(before) && Ascending(l, before) && l != []
    ensures forall x | x in l :: x == l[0] || before(l[0], x)
  {
  }

  lemma TailMembers<T(!new)>(l: seq<T>, before: (T, T) -> bool, x: T)
    requires StrictTotal(before) && Ascending(l, before) && l != []
    ensures x in l[1..] <==> x in l && x != l[0]
  {
    if x in l && x != l[0] {
      var i :| 0 <= i < |l| && l[i] == x;
      assert l[1..][i - 1] == x;
    }
  }

  /** Adopt an ascending list of exactly the rows of `s` as the answer to its query. */
  lemma SortedIs<T(!new)>(s: set<T>, l: seq<T>, before: (T, T) -> bool)
    requires StrictTotal(before) && Ascending(l, before) && forall x :: x in l <==> x in s
    ensures Sorted(s, before) == l
  {
    SortedIsAscending(s, before);
    AscendingIsUnique(l, Sorted(s, before), before);
  }

  function Limit<T>(l: seq<T>, n: nat): seq<T> { if |l| <= n then l else l[..n] }

  function After<T>(s: set<T>, before: (T, T) -> bool, c: T): set<T> { set x | x in s && before(c, x) }

  function Through<T>(s: set<T>, before: (T, T) -> bool, c: T): set<T> { set x | x in s && !before(c, x) }

  /** Seeking past any cursor, a row or not, leaves a suffix of the list, and the through-count is where it starts. */
  lemma SeekCutsTheList<T(!new)>(s: set<T>, before: (T, T) -> bool, c: T)
    requires StrictTotal(before)
    ensures var n := |Through(s, before, c)|;
            n <= |Sorted(s, before)| && Sorted(After(s, before, c), before) == Sorted(s, before)[n..]
  {
    var front, back := Sorted(Through(s, before, c), before), Sorted(After(s, before, c), before);
    SortedIsAscending(Through(s, before, c), before);
    SortedIsAscending(After(s, before, c), before);
    var l := front + back;
    assert forall x :: x in l <==> x in s;
    forall i, j | 0 <= i < j < |l| ensures before(l[i], l[j]) {
      if i < |front| <= j {
        assert l[i] in Through(s, before, c) && l[j] in After(s, before, c);
      }
    }
    SortedIs(s, l, before);
  }

  function Ahead<T>(s: set<T>, before: (T, T) -> bool, c: T): set<T> { set x | x in s && before(x, c) }

  /** A row's place in the list is the number of rows before it. */
  lemma PlaceIsCount<T(!new)>(s: set<T>, before: (T, T) -> bool, i: nat)
    requires StrictTotal(before) && i < |Sorted(s, before)|
    ensures |Ahead(s, before, Sorted(s, before)[i])| == i
  {
    SortedIsAscending(s, before);
    var l := Sorted(s, before);
    var ahead := Ahead(s, before, l[i]);
    forall x ensures x in l[..i] <==> x in ahead {
      if x in ahead {
        var j :| 0 <= j < |l| && l[j] == x;
        assert l[..i][j] == x;
      }
    }
    SortedIs(ahead, l[..i], before);
    SortedIsAscending(ahead, before);
  }

  /** Counting through a row that is in the list gives the number of rows up to and including it. */
  lemma ThroughCountsTheRow<T(!new)>(s: set<T>, before: (T, T) -> bool, i: nat)
    requires StrictTotal(before) && i < |Sorted(s, before)|
    ensures |Through(s, before, Sorted(s, before)[i])| == i + 1
  {
    SortedIsAscending(s, before);
    PlaceIsCount(s, before, i);
    var c := Sorted(s, before)[i];
    assert c in s;
    assert Through(s, before, c) == Ahead(s, before, c) + {c};
  }
}
