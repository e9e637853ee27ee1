// Sums over keyed counts: tables of seconds, read with zero for a missing key.

module Totals {

  function CountOf<K>(m: map<K, int>, k: K): int {
    if k in m then m[k] else 0
  }

  /** Upserting every entry of `d` into `m`. */
  function Added<K>(m: map<K, int>, d: map<K, int>): map<K, int> {
    map k | k in m.Keys + d.Keys :: CountOf(m, k) + CountOf(d, k)
  }

  lemma PutAdds<K>(m: map<K, int>, k: K, v: int)
    ensures m[k := CountOf(m, k) + v] == Added(m, map[k := v])
  {
  }

  /** The counts of all keys but some. */
  function Except<K>(m: map<K, int>, left: set<K>): map<K, int> {
    map k | k in m && k !in left :: m[k]
  }

  lemma ExceptGrows<K>(m: map<K, int>, left: set<K>, k: K)
    requires k in m && k in left
    ensures Except(m, left - {k}) == Added(Except(m, left), map[k := m[k]])
  {
  }

  lemma ExceptNone<K>(m: map<K, int>)
    ensures Except(m, m.Keys) == map[] && Except(m, {}) == m
  {
  }

  ghost function Sum<K>(m: map<K, int>): int {
    if m == map[] then 0
    else
      var k :| k in m;
      m[k] + Sum(m - {k})
  }

  /** The sum does not depend on the order of the keys. */
  lemma {:induction false} SumRemove<K>(m: map<K, int>, k: K)
    requires k in m
    ensures Sum(m) == m[k] + Sum(m - {k})
    decreases |m|
  {
    var j :| j in m && Sum(m) == m[j] + Sum(m - {j});
    if j != k {
      SumRemove(m - {j}, k);
      SumRemove(m - {k}, j);
      assert m - {j} - {k} == m - {k} - {j};
    }
  }

  lemma SumPut<K>(m: map<K, int>, k: K, v: int)
    ensures Sum(m[k := v]) == Sum(m) + v - CountOf(m, k)
  {
    SumRemove(m[k := v], k);
    assert m[k := v] - {k} == m - {k};
    if k in m {
      SumRemove(m, k);
    } else {
      assert m - {k} == m;
    }
  }

  function Kept<K>(m: map<K, int>, keep: K -> bool): map<K, int> {
    map k | k in m && keep(k) :: m[k]
  }

  /** The sum over the keys that `keep` accepts. */
  ghost function Total<K>(m: map<K, int>, keep: K -> bool): int {
    Sum(Kept(m, keep))
  }

  lemma TotalPut<K>(m: map<K, int>, keep: K -> bool, k: K, v: int)
    ensures Total(m[k := v], keep) == Total(m, keep) + if keep(k) then v - CountOf(m, k) else 0
  {
    if keep(k) {
      assert Kept(m[k := v], keep) == Kept(m, keep)[k := v];
      SumPut(Kept(m, keep), k, v);
    } else {
      assert Kept(m[k := v], keep) == Kept(m, keep);
    }
  }

  lemma AddedPut<K>(m: map<K, int>, d: map<K, int>, k: K, v: int)
    requires k !in d
    ensures Added(m, d[k := v]) == Added(m, d)[k := CountOf(m, k) + v]
    ensures CountOf(Added(m, d), k) == CountOf(m, k)
  {
  }

  lemma TotalAddedPut<K>(m: map<K, int>, d: map<K, int>, keep: K -> bool, k: K, v: int)
    requires k !in d && Total(Added(m, d), keep) == Total(m, keep) + Total(d, keep)
    ensures Total(Added(m, d[k := v]), keep) == Total(m, keep) + Total(d[k := v], keep)
  {
    AddedPut(m, d, k, v);
    TotalPut(Added(m, d), keep, k, CountOf(m, k) + v);
    TotalPut(d, keep, k, v);
  }

  lemma TotalAddedNone<K>(m: map<K, int>, none: map<K, int>, keep: K -> bool)
    requires none == map[]
    ensures Added(m, none) == m && Total(none, keep) == 0
  {
  }

  lemma PutBack<K>(d: map<K, int>, k: K)
    requires k in d
    ensures (d - {k})[k := d[k]] == d
  {
  }

  /** Upserting adds to every total. */
  lemma {:induction false} TotalAdded<K>(m: map<K, int>, d: map<K, int>, keep: K -> bool)
    ensures Total(Added(m, d), keep) == Total(m, keep) + Total(d, keep)
    decreases |d|
  {
    if d == map[] {
      TotalAddedNone(m, d, keep);
    } else {
      var k :| k in d;
      TotalAdded(m, d - {k}, keep);
      TotalAddedPut(m, d - {k}, keep, k, d[k]);
      PutBack(d, k);
    }
  }

  /** A total over keys of which at most one is present. */
  lemma TotalSingle<K>(m: map<K, int>, keep: K -> bool, k: K)
    requires keep(k) && forall j :: j in m && keep(j) ==> j == k
    ensures Total(m, keep) == CountOf(m, k)
  {
    if k in m {
      assert Kept(m, keep) == map[k := m[k]];
      SumRemove(Kept(m, keep), k);
      assert Kept(m, keep) - {k} == map[];
    } else {
      assert Kept(m, keep) == map[];
    }
  }

  lemma TotalNone<K>(m: map<K, int>, keep: K -> bool)
    requires forall k :: k in m ==> !keep(k)
    ensures Total(m, keep) == 0
  {
    assert Kept(m, keep) == map[];
  }

  lemma BoundedWithout<K, L>(m: map<K, int>, n: map<L, int>, f: K -> L, k: K)
    requires forall k :: k in m ==> m[k] <= CountOf(n, f(k))
    requires forall j, k :: j in m && k in m && f(j) == f(k) ==> j == k
    requires k in m
    ensures forall j :: j in m - {k} ==> m[j] <= CountOf(n - {f(k)}, f(j))
  {
  }

  /** Entry by entry no more than distinct entries of a non-negative table: no more in sum. */
  lemma {:induction false} SumBounded<K, L>(m: map<K, int>, n: map<L, int>, f: K -> L)
    requires forall k :: k in m ==> m[k] <= CountOf(n, f(k))
    requires forall j, k :: j in m && k in m && f(j) == f(k) ==> j == k
    requires forall l :: l in n ==> 0 <= n[l]
    ensures Sum(m) <= Sum(n)
    decreases |m| + |n|
  {
    if m != map[] {
      var k :| k in m;
      SumRemove(m, k);
      if f(k) in n {
        SumRemove(n, f(k));
        BoundedWithout(m, n, f, k);
        SumBounded(m - {k}, n - {f(k)}, f);
      } else {
        SumBounded(m - {k}, n, f);
      }
    } else if n != map[] {
      var l :| l in n;
      SumRemove(n, l);
      SumBounded(m, n - {l}, f);
    }
  }
}
