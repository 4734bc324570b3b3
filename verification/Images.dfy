// A string-keyed table that stores the image of a map under an injective key function.

module Images {

  ghost predicate Injective<K(!new), V(!new)>(kf: (K, V) -> string)
  {
    forall k1, v1, k2, v2 :: kf(k1, v1) == kf(k2, v2) ==> k1 == k2
  }

  ghost predicate IsImage<K(!new), V(!new)>(kf: (K, V) -> string, m: map<K, V>, t: map<string, V>)
  {
    && (forall k :: k in m ==> kf(k, m[k]) in t && t[kf(k, m[k])] == m[k])
    && (forall s :: s in t ==> exists k :: k in m && kf(k, m[k]) == s)
  }

  lemma ImageMember<K(!new), V(!new)>(kf: (K, V) -> string, m: map<K, V>, t: map<string, V>, k: K, v: V)
    requires Injective(kf) && IsImage(kf, m, t)
    requires k in m ==> v == m[k]
    ensures kf(k, v) in t <==> k in m
  {
  }

  lemma ImageAdd<K(!new), V(!new)>(kf: (K, V) -> string, m: map<K, V>, t: map<string, V>, k: K, v: V)
    requires Injective(kf) && IsImage(kf, m, t) && k !in m
    ensures kf(k, v) !in t
    ensures IsImage(kf, m[k := v], t[kf(k, v) := v])
  {
    var m', t' := m[k := v], t[kf(k, v) := v];
    forall s | s in t'
      ensures exists j :: j in m' && kf(j, m'[j]) == s
    {
      if s == kf(k, v) {
        assert k in m' && kf(k, m'[k]) == s;
      } else {
        var j :| j in m && kf(j, m[j]) == s;
        assert j in m' && kf(j, m'[j]) == s;
      }
    }
  }

  lemma ImageRemove<K(!new), V(!new)>(kf: (K, V) -> string, m: map<K, V>, t: map<string, V>, k: K)
    requires Injective(kf) && IsImage(kf, m, t) && k in m
    ensures IsImage(kf, m - {k}, t - {kf(k, m[k])})
  {
    var m', t' := m - {k}, t - {kf(k, m[k])};
    forall s | s in t'
      ensures exists j :: j in m' && kf(j, m'[j]) == s
    {
      var j :| j in m && kf(j, m[j]) == s;
      assert j in m' && kf(j, m'[j]) == s;
    }
  }

  lemma ImageMerge<K(!new), V(!new)>(kf: (K, V) -> string, m1: map<K, V>, t1: map<string, V>, m2: map<K, V>,
      t2: map<string, V>)
    requires Injective(kf) && IsImage(kf, m1, t1) && IsImage(kf, m2, t2) && m1.Keys !! m2.Keys
    ensures t1.Keys !! t2.Keys
    ensures IsImage(kf, m1 + m2, t1 + t2)
  {
    var m, t := m1 + m2, t1 + t2;
    forall s | s in t
      ensures exists j :: j in m && kf(j, m[j]) == s
    {
      if s in t2 {
        var j :| j in m2 && kf(j, m2[j]) == s;
        assert j in m && kf(j, m[j]) == s;
      } else {
        var j :| j in m1 && kf(j, m1[j]) == s;
        assert j in m && kf(j, m[j]) == s;
      }
    }
    forall s | s in t1
      ensures s !in t2
    {
      var j1 :| j1 in m1 && kf(j1, m1[j1]) == s;
      assert forall j2 :: j2 in m2 ==> kf(j2, m2[j2]) != s;
    }
  }

  /** Tables merge also when they share entries, as long as those agree. */
  lemma ImageOverlay<K(!new), V(!new)>(kf: (K, V) -> string, m1: map<K, V>, t1: map<string, V>, m2: map<K, V>,
      t2: map<string, V>)
    requires Injective(kf) && IsImage(kf, m1, t1) && IsImage(kf, m2, t2)
    requires forall k :: k in m1 && k in m2 ==> m1[k] == m2[k]
    ensures IsImage(kf, m1 + m2, t1 + t2)
  {
    var m, t := m1 + m2, t1 + t2;
    forall s | s in t
      ensures exists j :: j in m && kf(j, m[j]) == s
    {
      if s in t2 {
        var j :| j in m2 && kf(j, m2[j]) == s;
        assert j in m && kf(j, m[j]) == s;
      } else {
        var j :| j in m1 && kf(j, m1[j]) == s;
        assert j in m && kf(j, m[j]) == s;
      }
    }
    forall k | k in m
      ensures kf(k, m[k]) in t && t[kf(k, m[k])] == m[k]
    {
      if k !in m2 {
        assert forall j :: j in m2 ==> kf(j, m2[j]) != kf(k, m[k]);
      }
    }
  }

  function SetOf<T>(xs: seq<T>): set<T> { set x | x in xs }

  lemma SetOfSnoc<T>(xs: seq<T>)
    requires xs != []
    ensures SetOf(xs) == SetOf(xs[..|xs| - 1]) + {xs[|xs| - 1]}
  {
    assert xs == xs[..|xs| - 1] + [xs[|xs| - 1]];
  }

  lemma {:induction false} SetOfSize<T>(xs: seq<T>)
    requires forall i, j :: 0 <= i < j < |xs| ==> xs[i] != xs[j]
    ensures |SetOf(xs)| == |xs|
    decreases |xs|
  {
    if xs != [] {
      SetOfSize(xs[..|xs| - 1]);
      SetOfSnoc(xs);
    }
  }

  /** Dropping a list of distinct entries drops their keys. */
  lemma {:induction false} ImageDropAll<K(!new),
      V(!new)>(kf: (K, V) -> string, m: map<K, V>, t: map<string, V>, ks: seq<K>, ss: seq<string>)
    requires Injective(kf) && IsImage(kf, m, t) && |ks| == |ss|
    requires forall i, j :: 0 <= i < j < |ks| ==> ks[i] != ks[j]
    requires forall i :: 0 <= i < |ks| ==> ks[i] in m && ss[i] == kf(ks[i], m[ks[i]])
    ensures IsImage(kf, m - SetOf(ks), t - SetOf(ss))
    decreases |ks|
  {
    if ks == [] {
      assert m - SetOf(ks) == m && t - SetOf(ss) == t;
    } else {
      var n := |ks| - 1;
      ImageDropAll(kf, m, t, ks[..n], ss[..n]);
      var m1, t1 := m - SetOf(ks[..n]), t - SetOf(ss[..n]);
      assert ks[n] in m1 && m1[ks[n]] == m[ks[n]];
      ImageRemove(kf, m1, t1, ks[n]);
      SetOfSnoc(ks);
      SetOfSnoc(ss);
      assert m - SetOf(ks) == m1 - {ks[n]};
      assert t - SetOf(ss) == t1 - {ss[n]};
    }
  }

  /** Every map has a table. */
  lemma {:induction false} ImageFor<K(!new), V(!new)>(kf: (K, V) -> string, m: map<K, V>) returns (t: map<string, V>)
    requires Injective(kf)
    ensures IsImage(kf, m, t)
    decreases |m|
  {
    if m == map[] {
      t := map[];
    } else {
      var k :| k in m;
      var rest := m - {k};
      assert m == rest[k := m[k]];
      t := ImageFor(kf, rest);
      ImageAdd(kf, rest, t, k, m[k]);
      t := t[kf(k, m[k]) := m[k]];
    }
  }

  /** The map determines its table. */
  lemma ImageUnique<K(!new), V(!new)>(kf: (K, V) -> string, m: map<K, V>, t1: map<string, V>, t2: map<string, V>)
    requires IsImage(kf, m, t1) && IsImage(kf, m, t2)
    ensures t1 == t2
  {
    forall s | s in t1
      ensures s in t2 && t1[s] == t2[s]
    {
      var k :| k in m && kf(k, m[k]) == s;
    }
    forall s | s in t2
      ensures s in t1
    {
      var k :| k in m && kf(k, m[k]) == s;
    }
  }

  /** And the table determines its map. */
  lemma SourceUnique<K(!new), V(!new)>(kf: (K, V) -> string, m1: map<K, V>, m2: map<K, V>, t: map<string, V>)
    requires Injective(kf) && IsImage(kf, m1, t) && IsImage(kf, m2, t)
    ensures m1 == m2
  {
    forall k | k in m1
      ensures k in m2 && m2[k] == m1[k]
    {
      var j :| j in m2 && kf(j, m2[j]) == kf(k, m1[k]);
    }
    forall k | k in m2
      ensures k in m1
    {
      var j :| j in m1 && kf(j, m1[j]) == kf(k, m2[k]);
    }
  }
}
