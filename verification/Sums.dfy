/** Sums of a weight over the rows of a table, and the one law that every proof about
    totals needs: changing a single row changes the sum by the difference of its weights. */
module Sums {

  ghost function SumMap<K, V>(m: map<K, V>, f: (K, V) -> int): int
    decreases m.Keys
  {
    if m == map[] then 0
    else
      var k :| k in m;
      f(k, m[k]) + SumMap(m - {k}, f)
  }

  /** The sum does not depend on which row is taken out first. */
  lemma {:induction false} SumRemove<K, V>(m: map<K, V>, f: (K, V) -> int, k: K)
    requires k in m
    ensures SumMap(m, f) == f(k, m[k]) + SumMap(m - {k}, f)
    decreases m.Keys
  {
    var j :| j in m && SumMap(m, f) == f(j, m[j]) + SumMap(m - {j}, f);
    if j != k {
      SumRemove(m - {j}, f, k);
      SumRemove(m - {k}, f, j);
      assert m - {j} - {k} == m - {k} - {j};
    }
  }

  lemma {:induction false} SumAgree<K, V>(m: map<K, V>, n: map<K, V>, f: (K, V) -> int, g: (K, V) -> int)
    requires m.Keys == n.Keys
    requires forall k :: k in m ==> f(k, m[k]) == g(k, n[k])
    ensures SumMap(m, f) == SumMap(n, g)
    decreases m.Keys
  {
    if m == map[] {
      assert n == map[];
    } else {
      var k :| k in m;
      SumRemove(m, f, k);
      SumRemove(n, g, k);
      SumAgree(m - {k}, n - {k}, f, g);
    }
  }

  /** Only row `k` differs (it may be new), so only its weight matters. */
  lemma {:induction false} SumChange<K, V>(m: map<K, V>, n: map<K, V>, f: (K, V) -> int, g: (K, V) -> int, k: K)
    requires n.Keys == m.Keys + {k}
    requires forall x :: x in m && x != k ==> f(x, m[x]) == g(x, n[x])
    ensures SumMap(n, g) == SumMap(m, f) - (if k in m then f(k, m[k]) else 0) + g(k, n[k])
  {
    SumRemove(n, g, k);
    if k in m {
      SumRemove(m, f, k);
    }
    assert m - {k} == if k in m then m - {k} else m;
    SumAgree(m - {k}, n - {k}, f, g);
  }

  lemma {:induction false} SumLe<K, V>(m: map<K, V>, f: (K, V) -> int, g: (K, V) -> int)
    requires forall k :: k in m ==> f(k, m[k]) <= g(k, m[k])
    ensures SumMap(m, f) <= SumMap(m, g)
    decreases m.Keys
  {
    if m != map[] {
      var k :| k in m;
      SumRemove(m, f, k);
      SumRemove(m, g, k);
      SumLe(m - {k}, f, g);
    }
  }

  lemma {:induction false} SumZero<K, V>(m: map<K, V>, f: (K, V) -> int)
    requires forall k :: k in m ==> f(k, m[k]) == 0
    ensures SumMap(m, f) == 0
    decreases m.Keys
  {
    if m != map[] {
      var k :| k in m;
      SumRemove(m, f, k);
      SumZero(m - {k}, f);
    }
  }

  lemma SumNonNegative<K, V>(m: map<K, V>, f: (K, V) -> int)
    requires forall k :: k in m ==> 0 <= f(k, m[k])
    ensures 0 <= SumMap(m, f)
  {
    var zero := (k: K, v: V) => 0;
    SumZero(m, zero);
    SumLe(m, zero, f);
  }

  /** A row weighs no more than the whole table when no row weighs less than nothing. */
  lemma SumAtLeast<K, V>(m: map<K, V>, f: (K, V) -> int, k: K)
    requires k in m
    requires forall x :: x in m ==> 0 <= f(x, m[x])
    ensures f(k, m[k]) <= SumMap(m, f)
  {
    SumRemove(m, f, k);
    SumNonNegative(m - {k}, f);
  }

  lemma SumAtLeastTwo<K, V>(m: map<K, V>, f: (K, V) -> int, j: K, k: K)
    requires j in m && k in m && j != k
    requires forall x :: x in m ==> 0 <= f(x, m[x])
    ensures f(j, m[j]) + f(k, m[k]) <= SumMap(m, f)
  {
    SumRemove(m, f, j);
    SumAtLeast(m - {j}, f, k);
  }
}
