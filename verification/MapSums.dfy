/**
 Sums of the integer values of a finite map, used wherever the node keeps a
 total next to the entries it totals (balances, stake weights, delegations).
 */
module MapSums {

  ghost function Sum<K>(m: map<K, int>): int
    decreases |m|
  {
    if m == map[] then 0
    else
      var k :| k in m;
      m[k] + Sum(m - {k})
  }

  /** The choice of key in Sum does not matter: any key may be split off. */
  lemma {:induction false} SumSplit<K>(m: map<K, int>, k: K)
    requires k in m
    ensures Sum(m) == m[k] + Sum(m - {k})
    decreases |m|
  {
    var j :| j in m && Sum(m) == m[j] + Sum(m - {j});
    if j != k {
      SumSplit(m - {j}, k);
      SumSplit(m - {k}, j);
      assert m - {j} - {k} == m - {k} - {j};
    }
  }

  function Lookup<K>(m: map<K, int>, k: K): int {
    if k in m then m[k] else 0
  }

  /** Writing one key moves the sum by exactly the change at that key. */
  lemma SumUpdate<K>(m: map<K, int>, k: K, v: int)
    ensures Sum(m[k := v]) == Sum(m) - Lookup(m, k) + v
  {
    SumSplit(m[k := v], k);
    assert m[k := v] - {k} == m - {k};
    if k in m {
      SumSplit(m, k);
    } else {
      assert m - {k} == m;
    }
  }

  lemma SumRemove<K>(m: map<K, int>, k: K)
    ensures Sum(m - {k}) == Sum(m) - Lookup(m, k)
  {
    if k in m {
      SumSplit(m, k);
    } else {
      assert m - {k} == m;
    }
  }

  /** With non-negative values every entry is bounded by the sum. */
  lemma {:induction false} SumBounds<K>(m: map<K, int>)
    requires forall k :: k in m ==> m[k] >= 0
    ensures Sum(m) >= 0
    ensures forall k :: k in m ==> m[k] <= Sum(m)
    decreases |m|
  {
    forall k | k in m
      ensures 0 <= m[k] <= Sum(m)
    {
      SumSplit(m, k);
      SumBounds(m - {k});
    }
    if m == map[] {
    } else {
      var k :| k in m;
    }
  }

  lemma {:induction false} SumMono<K>(m: map<K, int>, n: map<K, int>)
    requires m.Keys == n.Keys && forall k :: k in m ==> m[k] <= n[k]
    ensures Sum(m) <= Sum(n)
    decreases |m|
  {
    if m == map[] {
      assert n == map[];
    } else {
      var k :| k in m;
      SumSplit(m, k);
      SumSplit(n, k);
      SumMono(m - {k}, n - {k});
    }
  }

  /** Sums add up key by key. */
  lemma {:induction false} SumAdd<K>(m: map<K, int>, n: map<K, int>, t: map<K, int>)
    requires m.Keys == n.Keys == t.Keys && forall k :: k in t ==> t[k] == m[k] + n[k]
    ensures Sum(t) == Sum(m) + Sum(n)
    decreases |t|
  {
    if t == map[] {
      assert m == map[] && n == map[];
    } else {
      var k :| k in t;
      SumSplit(t, k);
      SumSplit(m, k);
      SumSplit(n, k);
      SumAdd(m - {k}, n - {k}, t - {k});
    }
  }

  lemma {:induction false} SumZero<K>(m: map<K, int>)
    requires forall k :: k in m ==> m[k] == 0
    ensures Sum(m) == 0
    decreases |m|
  {
    if m != map[] {
      var k :| k in m;
      SumSplit(m, k);
      SumZero(m - {k});
    }
  }
}
