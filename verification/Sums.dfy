// Totals over finite maps, independent of the order in which entries are visited.

module Sums {

  ghost function SumMap<K(!new)>(m: map<K, int>): int
  {
    if m == map[] then 0
    else
      var k :| k in m;
      m[k] + SumMap(m - {k})
  }

  /** Any entry can be taken out first. */
  lemma {:induction false} SumRemove<K(!new)>(m: map<K, int>, k: K)
    requires k in m
    ensures SumMap(m) == m[k] + SumMap(m - {k})
    decreases |m|
  {
    var j :| j in m && SumMap(m) == m[j] + SumMap(m - {j});
    if j != k {
      SumRemove(m - {j}, k);
      SumRemove(m - {k}, j);
      assert m - {j} - {k} == m - {k} - {j};
    }
  }

  lemma SumInsert<K(!new)>(m: map<K, int>, k: K, v: int)
    requires k !in m
    ensures SumMap(m[k := v]) == SumMap(m) + v
  {
    SumRemove(m[k := v], k);
    assert m[k := v] - {k} == m;
  }

  lemma SumUpdate<K(!new)>(m: map<K, int>, k: K, v: int)
    requires k in m
    ensures SumMap(m[k := v]) == SumMap(m) - m[k] + v
  {
    SumRemove(m[k := v], k);
    SumRemove(m, k);
    assert m[k := v] - {k} == m - {k};
  }

  /** Renaming the keys one to one keeps the total. */
  lemma {:induction false} SumRename<K(!new), J(!new)>(m: map<K, int>, t: map<J, int>, f: map<K, J>)
    requires f.Keys == m.Keys
    requires forall k :: k in m ==> f[k] in t && t[f[k]] == m[k]
    requires forall k1, k2 :: k1 in f && k2 in f && f[k1] == f[k2] ==> k1 == k2
    requires forall j :: j in t ==> exists k :: k in f && f[k] == j
    ensures SumMap(m) == SumMap(t)
    decreases |m|
  {
    if m == map[] {
      assert t == map[];
    } else {
      var k :| k in m;
      SumRemove(m, k);
      SumRemove(t, f[k]);
      forall j | j in t - {f[k]}
        ensures exists i :: i in f - {k} && (f - {k})[i] == j
      {
        var i :| i in f && f[i] == j;
        assert i in f - {k};
      }
      SumRename(m - {k}, t - {f[k]}, f - {k});
    }
  }
}
