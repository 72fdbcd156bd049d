/**
 * Folds over a keyed table, the in-memory meaning of the SQL aggregates the
 * ledger queries use: SUM over a column, and ORDER BY total DESC with LIMIT.
 * A table column is a `map<int, int>` from row id to value; rows are scanned
 * in increasing id order, which fixes the otherwise unspecified order of ties.
 */
module Tables {

  /** Every non-empty set of ids has a least one. */
  lemma {:induction false} LeastOf(s: set<int>) returns (k: int)
    requires s != {}
    ensures k in s && forall j :: j in s ==> k <= j
  {
    if forall y :: y !in s {
      assert false;
    }
    var x :| x in s;
    if s == {x} {
      k := x;
    } else {
      var rest := s - {x};
      var m := LeastOf(rest);
      k := if x < m then x else m;
      forall j | j in s
        ensures k <= j
      {
        if j != x {
          assert j in rest;
        }
      }
    }
  }

  lemma HasLeast(s: set<int>)
    requires s != {}
    ensures exists k :: k in s && forall j :: j in s ==> k <= j
  {
    var k := LeastOf(s);
  }

  /** The first row id of a scan. */
  function Least(s: set<int>): (k: int)
    requires s != {}
    ensures k in s
  {
    HasLeast(s);
    var k :| k in s && forall j :: j in s ==> k <= j;
    k
  }

  /** No id of the set comes before the first one scanned. */
  lemma LeastIsLeast(s: set<int>)
    requires s != {}
    ensures forall j :: j in s ==> Least(s) <= j
  {
  }

  lemma RemoveOne(m: map<int, int>, k: int)
    requires k in m
    ensures |m - {k}| == |m| - 1
  {
    assert (m - {k}).Keys == m.Keys - {k};
  }

  /** SUM of a column; the empty table sums to 0. */
  function Sum(m: map<int, int>): int
    decreases |m|
  {
    if |m| == 0 then 0
    else
      var k := Least(m.Keys);
      RemoveOne(m, k);
      m[k] + Sum(m - {k})
  }

  /** Summing does not depend on the scan order: any row can be taken out first. */
  lemma {:induction false} SumRemove(m: map<int, int>, k: int)
    requires k in m
    ensures Sum(m) == m[k] + Sum(m - {k})
    decreases |m|
  {
    var f := Least(m.Keys);
    if k != f {
      RemoveOne(m, f);
      SumRemove(m - {f}, k);
      RemoveOne(m, k);
      assert f in (m - {k}).Keys;
      LeastIsLeast(m.Keys);
      LeastIsLeast((m - {k}).Keys);
      assert Least((m - {k}).Keys) == f;
      assert m - {f} - {k} == m - {k} - {f};
    }
  }

  /** Changing one row's value changes the sum by exactly the difference. */
  lemma SumUpdate(m: map<int, int>, k: int, v: int)
    requires k in m
    ensures Sum(m[k := v]) == Sum(m) - m[k] + v
  {
    SumRemove(m[k := v], k);
    assert m[k := v] - {k} == m - {k};
    SumRemove(m, k);
  }

  /** A column of non-negative values has a non-negative sum. */
  lemma {:induction false} SumNonNegative(m: map<int, int>)
    requires forall k :: k in m ==> m[k] >= 0
    ensures Sum(m) >= 0
    decreases |m|
  {
    if |m| != 0 {
      var k := Least(m.Keys);
      RemoveOne(m, k);
      SumNonNegative(m - {k});
    }
  }

  /** A column of positive values sums to zero exactly when it is empty. */
  lemma SumPositive(m: map<int, int>)
    requires forall k :: k in m ==> m[k] > 0
    ensures Sum(m) == 0 <==> |m| == 0
    ensures Sum(m) >= 0
  {
    if |m| != 0 {
      var k := Least(m.Keys);
      RemoveOne(m, k);
      SumNonNegative(m - {k});
    }
  }

  /** Dropping rows of non-negative value never increases the sum. */
  lemma {:induction false} SumSubset(small: map<int, int>, big: map<int, int>)
    requires forall k :: k in small ==> k in big && small[k] == big[k]
    requires forall k :: k in big ==> big[k] >= 0
    ensures Sum(small) <= Sum(big)
    decreases |big|
  {
    if |small| == 0 {
      SumNonNegative(big);
    } else {
      var k := Least(small.Keys);
      SumRemove(small, k);
      SumRemove(big, k);
      RemoveOne(big, k);
      var rest := big - {k};
      var others := small - {k};
      forall j | j in others
        ensures j in rest && others[j] == rest[j]
      {
      }
      SumSubset(others, rest);
    }
  }

  /**
   * The row of greatest value, the first row of `ORDER BY value DESC`; among
   * equal values the scan keeps the earliest row.
   */
  function ArgMax(m: map<int, int>): (k: int)
    requires |m| != 0
    ensures k in m
    ensures forall j :: j in m ==> m[j] <= m[k]
    decreases |m|
  {
    var f := Least(m.Keys);
    RemoveOne(m, f);
    if |m| == 1 then
      assert m.Keys == {f};
      f
    else
      var rest := ArgMax(m - {f});
      assert forall j :: j in m && j != f ==> j in m - {f} && m[j] == (m - {f})[j];
      if m[f] >= m[rest] then f else rest
  }

  /**
   * `ORDER BY value DESC LIMIT n`: the row ids of the n greatest values, in
   * non-increasing order of value, each row at most once, and no row left out
   * is greater than any row kept.
   */
  function TopK(m: map<int, int>, n: nat): (r: seq<int>)
    ensures |r| == if n < |m| then n else |m|
    ensures forall i :: 0 <= i < |r| ==> r[i] in m
    ensures forall i, j :: 0 <= i < j < |r| ==> r[i] != r[j]
    ensures forall i, j :: 0 <= i < j < |r| ==> m[r[i]] >= m[r[j]]
    ensures forall k, i :: k in m && k !in r && 0 <= i < |r| ==> m[k] <= m[r[i]]
    decreases n
  {
    if n == 0 || |m| == 0 then []
    else
      var k := ArgMax(m);
      RemoveOne(m, k);
      [k] + TopK(m - {k}, n - 1)
  }
}
