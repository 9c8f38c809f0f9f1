/** Which rows end a page when a list is read a page at a time. */
module Paging {
  /** Reading from position `from`, a page ends at row i. */
  predicate EndsPage(i: int, from: nat, limit: nat)
    requires limit >= 1
  {
    (i + 1 - from) % limit == 0
  }

  /** Every row at which a page ends, other than the last row, can be turned back into a cursor. */
  predicate PageEndsDecode<T>(l: seq<T>, limit: nat, from: nat, decodes: T -> bool)
    requires limit >= 1
  {
    forall i | from <= i < |l| - 1 && EndsPage(i, from, limit) :: decodes(l[i])
  }

  /** The first page from `from` ends limit rows on; the later page ends are those of the pages from there. */
  lemma NextPageEnds<T>(l: seq<T>, limit: nat, from: nat, decodes: T -> bool)
    requires limit >= 1 && from + limit < |l|
    ensures PageEndsDecode(l, limit, from, decodes) <==> decodes(l[from + limit - 1]) && PageEndsDecode(l, limit, from + limit, decodes)
  {
    forall i | from <= i ensures EndsPage(i, from, limit) <==> i == from + limit - 1 || (from + limit <= i && EndsPage(i, from + limit, limit)) {
      ShiftMod(i + 1 - from, limit);
    }
    assert EndsPage(from + limit - 1, from, limit);
  }

  lemma NoPageEnds<T>(l: seq<T>, limit: nat, from: nat, decodes: T -> bool)
    requires limit >= 1 && |l| <= from + limit
    ensures PageEndsDecode(l, limit, from, decodes)
  {
    forall i | from <= i < |l| - 1 ensures !EndsPage(i, from, limit) { ShiftMod(i + 1 - from, limit); }
  }

  lemma ShiftMod(a: int, m: int)
    requires a > 0 && m >= 1
    ensures a % m == 0 <==> a == m || (a > m && (a - m) % m == 0)
  {
    if a < m {
      assert a % m == a;
    } else {
      var q := a / m;
      assert a - m == (q - 1) * m + a % m by { assert a == q * m + a % m; }
      RemainderIs(a - m, m, q - 1, a % m);
    }
  }

  lemma RemainderIs(n: int, d: int, q: int, r: int)
    requires 0 <= r < d && n == q * d + r
    ensures n % d == r
  {
    var k := n / d - q;
    assert n == d * (n / d) + n % d;
    assert d * k == r - n % d;
    MultipleOf(k, d);
  }

  lemma MultipleOf(k: int, d: int)
    requires 0 < d
    ensures k >= 1 ==> d * k >= d
    ensures k <= -1 ==> d * k <= -d
  {
  }
}
