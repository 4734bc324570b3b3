// Choice of the inputs of a transaction (utils/sim_btc_utils.py, utils/btm_utils.py, utils/hc_utils.py).
// The three functions hold the same loops with their own threshold and padding. Amounts are whole
// numbers of the smallest unit.

module CoinSelection {

  datatype Coin = Coin(txid: string, vout: int, amount: nat)

  /** With more than `threshold` coins, one coin is looked for and up to `padding` coins are spent. */
  datatype Params = Params(threshold: nat, padding: nat)

  const SIM_BTC := Params(8, 5)
  const BTM := Params(20, 6)
  const HC := Params(15, 10)

  predicate ValidParams(p: Params) { 0 < p.padding <= p.threshold }

  // ---- Sorting: largest first, equal amounts in their old order ----

  function Insert(c: Coin, cs: seq<Coin>): (r: seq<Coin>)
    ensures |r| == |cs| + 1
  {
    if cs == [] then [c]
    else if c.amount >= cs[0].amount then [c] + cs
    else [cs[0]] + Insert(c, cs[1..])
  }

  function SortDescending(cs: seq<Coin>): (r: seq<Coin>)
    ensures |r| == |cs|
  {
    if cs == [] then [] else Insert(cs[0], SortDescending(cs[1..]))
  }

  predicate Descending(cs: seq<Coin>)
  {
    forall i, j :: 0 <= i < j < |cs| ==> cs[i].amount >= cs[j].amount
  }

  /** The coins of one amount, in order. */
  function OfAmount(cs: seq<Coin>, v: nat): seq<Coin>
  {
    if cs == [] then [] else (if cs[0].amount == v then [cs[0]] else []) + OfAmount(cs[1..], v)
  }

  lemma {:induction false} InsertSorts(c: Coin, cs: seq<Coin>)
    requires Descending(cs)
    ensures Descending(Insert(c, cs))
    ensures forall d :: d in Insert(c, cs) <==> d == c || d in cs
  {
    if cs != [] && c.amount < cs[0].amount {
      InsertSorts(c, cs[1..]);
      var r := Insert(c, cs[1..]);
      forall j | 0 <= j < |r| ensures cs[0].amount >= r[j].amount { assert r[j] in r; }
    }
  }

  lemma {:induction false} InsertIsStable(c: Coin, cs: seq<Coin>, v: nat)
    requires Descending(cs)
    ensures OfAmount(Insert(c, cs), v) == (if c.amount == v then [c] else []) + OfAmount(cs, v)
  {
    if cs != [] && c.amount < cs[0].amount {
      InsertIsStable(c, cs[1..], v);
      var r := [cs[0]] + Insert(c, cs[1..]);
      assert r[0] == cs[0] && r[1..] == Insert(c, cs[1..]);
      assert OfAmount(r, v) == (if cs[0].amount == v then [cs[0]] else []) + OfAmount(Insert(c, cs[1..]), v);
      assert c.amount == v ==> cs[0].amount != v;
    } else {
      assert ([c] + cs)[0] == c && ([c] + cs)[1..] == cs;
    }
  }

  /** The two facts fix the sorted list; the second one also says that no coin is lost. */
  lemma {:induction false} SortIsStable(cs: seq<Coin>, v: nat)
    ensures Descending(SortDescending(cs))
    ensures OfAmount(SortDescending(cs), v) == OfAmount(cs, v)
  {
    if cs != [] {
      SortIsStable(cs[1..], v);
      InsertSorts(cs[0], SortDescending(cs[1..]));
      InsertIsStable(cs[0], SortDescending(cs[1..]), v);
    }
  }

  // ---- Totals ----

  function Total(cs: seq<Coin>): nat
  {
    if cs == [] then 0 else Total(cs[..|cs| - 1]) + cs[|cs| - 1].amount
  }

  lemma {:induction false} TotalCons(cs: seq<Coin>)
    requires cs != []
    ensures Total(cs) == cs[0].amount + Total(cs[1..])
    decreases |cs|
  {
    if |cs| > 1 {
      TotalCons(cs[..|cs| - 1]);
      assert cs[..|cs| - 1][1..] == cs[1..][..|cs| - 2];
    }
  }

  lemma {:induction false} InsertTotal(c: Coin, cs: seq<Coin>)
    ensures Total(Insert(c, cs)) == c.amount + Total(cs)
  {
    TotalCons(Insert(c, cs));
    if cs != [] {
      TotalCons(cs);
      if c.amount < cs[0].amount { InsertTotal(c, cs[1..]); }
    }
  }

  lemma {:induction false} SortKeepsTotal(cs: seq<Coin>)
    ensures Total(SortDescending(cs)) == Total(cs)
  {
    if cs != [] {
      SortKeepsTotal(cs[1..]);
      InsertTotal(cs[0], SortDescending(cs[1..]));
      TotalCons(cs);
    }
  }

  predicate Indices(s: set<int>, n: nat) { forall i :: i in s ==> 0 <= i < n }

  /** The worth of the coins in s below n. */
  function Worth(cs: seq<Coin>, s: set<int>, n: nat): nat
    requires n <= |cs|
  {
    if n == 0 then 0 else Worth(cs, s, n - 1) + (if n - 1 in s then cs[n - 1].amount else 0)
  }

  lemma {:induction false} WorthAdd(cs: seq<Coin>, s: set<int>, i: nat, n: nat)
    requires n <= |cs| && i !in s && i < |cs|
    ensures Worth(cs, s + {i}, n) == Worth(cs, s, n) + (if i < n then cs[i].amount else 0)
  {
    if n > 0 { WorthAdd(cs, s, i, n - 1); }
  }

  lemma {:induction false} WorthAtMostTotal(cs: seq<Coin>, s: set<int>, n: nat)
    requires n <= |cs|
    ensures Worth(cs, s, n) <= Total(cs[..n])
  {
    if n > 0 {
      WorthAtMostTotal(cs, s, n - 1);
      assert cs[..n][..n - 1] == cs[..n - 1];
    }
  }

  lemma {:induction false} WorthAtLeast(cs: seq<Coin>, s: set<int>, i: nat, n: nat)
    requires i < n <= |cs| && i in s
    ensures Worth(cs, s, n) >= cs[i].amount
  {
    if i < n - 1 { WorthAtLeast(cs, s, i, n - 1); }
  }

  lemma TotalSnoc(cs: seq<Coin>, k: nat)
    requires k < |cs|
    ensures Total(cs[..k + 1]) == Total(cs[..k]) + cs[k].amount
  {
    assert cs[..k + 1][..k] == cs[..k];
  }

  lemma WithLast(cs: seq<Coin>, r: set<int>, k: nat)
    requires Descending(cs) && k < |cs| && k !in r && |r| <= k && Worth(cs, r, k) <= Total(cs[..|r|])
    ensures |r + {k}| == |r| + 1 && Worth(cs, r + {k}, k + 1) <= Total(cs[..|r + {k}|])
  {
    WorthAdd(cs, r, k, k + 1);
    TotalSnoc(cs, |r|);
    assert |r| < k ==> cs[|r|].amount >= cs[k].amount;
  }

  /** The exchange argument: no set of coins is worth more than as many of the largest coins. */
  lemma {:induction false} LargestAreWorthMost(cs: seq<Coin>, s: set<int>, n: nat)
    requires Descending(cs) && n <= |cs| && Indices(s, n)
    ensures |s| <= n && Worth(cs, s, n) <= Total(cs[..|s|])
    decreases n
  {
    if n == 0 {
      forall i ensures i !in s {}
      assert s == {};
    } else if n - 1 in s {
      LargestAreWorthMost(cs, s - {n - 1}, n - 1);
      WithLast(cs, s - {n - 1}, n - 1);
      assert s == (s - {n - 1}) + {n - 1};
    } else {
      LargestAreWorthMost(cs, s, n - 1);
    }
  }

  // ---- What is chosen ----

  function Elements(idx: seq<int>): set<int> { set i | i in idx }

  predicate Distinct(idx: seq<int>) { forall i, j :: 0 <= i < j < |idx| ==> idx[i] != idx[j] }

  lemma DistinctSnoc(idx: seq<int>, x: int)
    requires Distinct(idx) && x !in idx
    ensures Distinct(idx + [x]) && Elements(idx + [x]) == Elements(idx) + {x}
  {
  }

  /** The first coins, as few as reach the need. */
  predicate FewestLargest(cs: seq<Coin>, need: int, core: seq<int>)
  {
    && |core| <= |cs|
    && (forall i :: 0 <= i < |core| ==> core[i] == i)
    && (forall k :: 0 <= k < |core| ==> Total(cs[..k]) < need)
    && (|core| < |cs| ==> Total(cs[..|core|]) >= need)
  }

  /** The coins chosen before padding: among many coins the smallest that is large enough by itself,
      nothing when every coin is, otherwise the fewest largest. */
  predicate IsCore(p: Params, cs: seq<Coin>, need: int, core: seq<int>)
  {
    if |cs| > p.threshold && cs[0].amount >= need then
      if cs[|cs| - 1].amount >= need then core == []
      else |core| == 1 && 0 <= core[0] < |cs| - 1 && cs[core[0]].amount >= need && cs[core[0] + 1].amount < need
    else FewestLargest(cs, need, core)
  }

  /** The last `m` indices below n, from the top, without those of the core. */
  function Pads(n: nat, m: nat, core: seq<int>): (r: seq<int>)
  {
    if m == 0 then []
    else Pads(n, m - 1, core) + (if n - m in core then [] else [n - m])
  }

  function Padding(p: Params, n: nat, core: seq<int>): seq<int>
  {
    if n > p.threshold && |core| < p.padding then Pads(n, p.padding - |core|, core) else []
  }

  lemma {:induction false} PadsFit(n: nat, m: nat, core: seq<int>)
    requires m <= n && Distinct(core) && Indices(Elements(core), n)
    ensures Distinct(core + Pads(n, m, core))
    ensures |Pads(n, m, core)| <= m
    ensures forall i :: i in Pads(n, m, core) <==> n - m <= i < n && i !in core
  {
    if m > 0 {
      PadsFit(n, m - 1, core);
      if n - m in core {
        assert Pads(n, m, core) == Pads(n, m - 1, core);
      } else {
        assert core + Pads(n, m, core) == core + Pads(n, m - 1, core) + [n - m];
        DistinctSnoc(core + Pads(n, m - 1, core), n - m);
      }
    }
  }

  /** The chosen indices, their worth, and the promise that it reaches the need when anything does. */
  ghost predicate Chosen(p: Params, cs: seq<Coin>, need: int, core: seq<int>, idx: seq<int>, sum: int)
  {
    && IsCore(p, cs, need, core)
    && idx == core + Padding(p, |cs|, core)
    && Distinct(idx) && Indices(Elements(idx), |cs|)
    && sum == Worth(cs, Elements(idx), |cs|)
  }

  lemma IndicesOfCore(p: Params, cs: seq<Coin>, need: int, core: seq<int>)
    requires IsCore(p, cs, need, core)
    ensures Distinct(core) && Indices(Elements(core), |cs|)
  {
  }

  lemma {:induction false} WorthOfFirst(cs: seq<Coin>, s: set<int>, k: nat, n: nat)
    requires n <= |cs| && (forall i :: 0 <= i < k && i < n ==> i in s)
    ensures k <= n ==> Worth(cs, s, n) >= Total(cs[..k])
    decreases n
  {
    if n > 0 && k <= n {
      WorthOfFirst(cs, s, if k < n then k else n - 1, n - 1);
      if k == n { TotalSnoc(cs, n - 1); }
    }
  }

  /** The selection is complete: it reaches the need exactly when all coins together do. */
  lemma ReachesWhenAllDo(p: Params, cs: seq<Coin>, need: int, core: seq<int>, idx: seq<int>, sum: int)
    requires ValidParams(p) && Descending(cs) && Chosen(p, cs, need, core, idx, sum)
    ensures sum >= need <==> Total(cs) >= need
  {
    assert cs[..|cs|] == cs;
    WorthAtMostTotal(cs, Elements(idx), |cs|);
    if Total(cs) >= need {
      if |cs| > p.threshold && cs[0].amount >= need {
        OneReaches(p, cs, need, core, idx);
      } else {
        PrefixReaches(cs, need, core, idx);
      }
    }
  }

  lemma OneReaches(p: Params, cs: seq<Coin>, need: int, core: seq<int>, idx: seq<int>)
    requires ValidParams(p) && |cs| > p.threshold && cs[0].amount >= need && IsCore(p, cs, need, core)
    requires idx == core + Padding(p, |cs|, core)
    ensures Worth(cs, Elements(idx), |cs|) >= need
  {
    hide Worth;
    if cs[|cs| - 1].amount >= need {
      PadsFit(|cs|, p.padding, core);
      assert |cs| - 1 in idx;
      WorthAtLeast(cs, Elements(idx), |cs| - 1, |cs|);
    } else {
      assert idx[0] == core[0];
      WorthAtLeast(cs, Elements(idx), core[0], |cs|);
    }
  }

  lemma PrefixReaches(cs: seq<Coin>, need: int, core: seq<int>, idx: seq<int>)
    requires FewestLargest(cs, need, core) && core <= idx && Total(cs) >= need
    ensures Worth(cs, Elements(idx), |cs|) >= need
  {
    hide Worth, Total;
    forall i | 0 <= i < |core| ensures i in Elements(idx) { assert idx[i] == i; }
    WorthOfFirst(cs, Elements(idx), |core|, |cs|);
    assert cs[..|cs|] == cs;
  }

  /** No set of coins that covers the need is smaller than what was chosen before padding. */
  lemma FewestCoins(p: Params, cs: seq<Coin>, need: int, core: seq<int>, s: set<int>)
    requires Descending(cs) && IsCore(p, cs, need, core)
    requires Indices(s, |cs|) && Worth(cs, s, |cs|) >= need
    ensures |core| <= |s|
  {
    LargestAreWorthMost(cs, s, |cs|);
  }

  lemma FewestUnique(cs: seq<Coin>, need: int, c1: seq<int>, c2: seq<int>)
    requires FewestLargest(cs, need, c1) && FewestLargest(cs, need, c2)
    ensures c1 == c2
  {
  }

  /** The rules leave no freedom: they fix which coins are spent, and in which order. */
  lemma CoreUnique(p: Params, cs: seq<Coin>, need: int, c1: seq<int>, c2: seq<int>)
    requires Descending(cs) && IsCore(p, cs, need, c1) && IsCore(p, cs, need, c2)
    ensures c1 == c2
  {
    hide FewestLargest;
    if |cs| > p.threshold && cs[0].amount >= need {
      assert |c1| == 1 && |c2| == 1 ==> c1[0] == c2[0];
    } else {
      FewestUnique(cs, need, c1, c2);
    }
  }

  // ---- The selection as a function ----

  /** The last coin that is large enough. */
  function LastEnough(cs: seq<Coin>, need: int, i: nat): (r: nat)
    requires i < |cs| - 1 && cs[i].amount >= need && cs[|cs| - 1].amount < need
    ensures r < |cs| - 1 && cs[r].amount >= need && cs[r + 1].amount < need
    decreases |cs| - i
  {
    if cs[i + 1].amount < need then i else LastEnough(cs, need, i + 1)
  }

  /** The least number of coins, from k on, that reaches the need. */
  function FewestFrom(cs: seq<Coin>, need: int, k: nat): (r: nat)
    requires k <= |cs| && forall j :: 0 <= j < k ==> Total(cs[..j]) < need
    ensures k <= r <= |cs| && (forall j :: 0 <= j < r ==> Total(cs[..j]) < need)
    ensures r < |cs| ==> Total(cs[..r]) >= need
    decreases |cs| - k
  {
    if k == |cs| || Total(cs[..k]) >= need then k else FewestFrom(cs, need, k + 1)
  }

  function CoreOf(p: Params, cs: seq<Coin>, need: int): (core: seq<int>)
    requires cs != []
    ensures IsCore(p, cs, need, core)
  {
    if |cs| > p.threshold && cs[0].amount >= need then
      if cs[|cs| - 1].amount >= need then [] else [LastEnough(cs, need, 0)]
    else
      seq(FewestFrom(cs, need, 0), i => i)
  }

  function CoinsOf(txout: seq<Coin>, idx: seq<int>): (cs: seq<Coin>)
    requires Indices(Elements(idx), |txout|)
    ensures CoinsAt(txout, idx, cs)
  {
    assert forall i :: 0 <= i < |idx| ==> idx[i] in Elements(idx);
    seq(|idx|, i requires 0 <= i < |idx| => txout[idx[i]])
  }

  lemma PaddedFits(p: Params, cs: seq<Coin>, core: seq<int>)
    requires ValidParams(p) && Distinct(core) && Indices(Elements(core), |cs|)
    ensures Distinct(core + Padding(p, |cs|, core)) && Indices(Elements(core + Padding(p, |cs|, core)), |cs|)
  {
    if |cs| > p.threshold && |core| < p.padding {
      PadsFit(|cs|, p.padding - |core|, core);
      assert forall i :: i in core ==> i in Elements(core);
    } else {
      assert core + [] == core;
    }
  }

  /** The coins spent for a need. */
  function Selection(p: Params, coins: seq<Coin>, need: int): (vins: seq<Coin>)
    requires ValidParams(p) && coins != []
  {
    var txout := SortDescending(coins);
    var core := CoreOf(p, txout, need);
    IndicesOfCore(p, txout, need, core);
    PaddedFits(p, txout, core);
    CoinsOf(txout, core + Padding(p, |txout|, core))
  }

  /** It is what the rules call for, and nothing else is. */
  lemma SelectionIsUnique(p: Params, coins: seq<Coin>, need: int, vinNeed: seq<Coin>)
    requires ValidParams(p) && coins != []
    ensures Selected(p, coins, need, vinNeed) <==> vinNeed == Selection(p, coins, need)
  {
    var txout := SortDescending(coins);
    var core := CoreOf(p, txout, need);
    var idx := core + Padding(p, |txout|, core);
    SortIsStable(coins, 0);
    IndicesOfCore(p, txout, need, core);
    PaddedFits(p, txout, core);
    hide IsCore, Padding;
    if vinNeed == Selection(p, coins, need) {
      SumOfChosen(txout, idx, vinNeed);
      assert Chosen(p, txout, need, core, idx, Total(vinNeed));
    }
    if Selected(p, coins, need, vinNeed) {
      var core', idx' :| CoinsAt(txout, idx', vinNeed) && Chosen(p, txout, need, core', idx', Total(vinNeed));
      CoreUnique(p, txout, need, core, core');
    }
  }

  ghost predicate Coverable(cs: seq<Coin>, need: int, most: nat)
  {
    exists s :: Indices(s, |cs|) && |s| <= most && Worth(cs, s, |cs|) >= need
  }

  lemma {:induction false} DistinctSize(idx: seq<int>)
    requires Distinct(idx)
    ensures |Elements(idx)| == |idx|
    decreases |idx|
  {
    if idx != [] {
      var n := |idx| - 1;
      DistinctSize(idx[..n]);
      assert idx == idx[..n] + [idx[n]];
      DistinctSnoc(idx[..n], idx[n]);
    }
  }

  /** A limit on the number of inputs refuses only what no choice of coins within it could pay. */
  lemma LimitIsFair(p: Params, cs: seq<Coin>, need: int, core: seq<int>, idx: seq<int>, sum: int, most: nat)
    requires ValidParams(p) && Descending(cs) && Chosen(p, cs, need, core, idx, sum)
    requires p.padding <= most
    ensures |idx| <= most && sum >= need <==> Coverable(cs, need, most)
  {
    IndicesOfCore(p, cs, need, core);
    DistinctSize(idx);
    if |idx| <= most && sum >= need {
      assert Coverable(cs, need, most);
    }
    if Coverable(cs, need, most) {
      var s :| Indices(s, |cs|) && |s| <= most && Worth(cs, s, |cs|) >= need;
      FewestCoins(p, cs, need, core, s);
      PaddedSize(p, |cs|, core);
      hide IsCore, Worth, Total;
      WorthAtMostTotal(cs, s, |cs|);
      assert cs[..|cs|] == cs;
      ReachesWhenAllDo(p, cs, need, core, idx, sum);
    }
  }

  lemma PaddedSize(p: Params, n: nat, core: seq<int>)
    requires ValidParams(p) && Distinct(core) && Indices(Elements(core), n)
    ensures |core + Padding(p, n, core)| <= if |core| < p.padding then p.padding else |core|
  {
    if n > p.threshold && |core| < p.padding { PadsFit(n, p.padding - |core|, core); }
  }

  // ---- The loops ----

  /** Looks for the smallest coin that is large enough; -1 when the largest coin is not. */
  method FindSingle(txout: seq<Coin>, need: int) returns (bakIndex: int, found: bool)
    requires Descending(txout) && txout != []
    ensures bakIndex == -1 <==> txout[0].amount < need
    ensures -1 <= bakIndex < |txout|
    ensures found <==> bakIndex != -1 && txout[|txout| - 1].amount < need
    ensures found ==> bakIndex < |txout| - 1 && txout[bakIndex].amount >= need && txout[bakIndex + 1].amount < need
  {
    bakIndex, found := -1, false;
    for i := 0 to |txout|
      invariant bakIndex == i - 1 && !found
      invariant forall k :: 0 <= k < i ==> txout[k].amount >= need
    {
      if txout[i].amount >= need {
        bakIndex := i;
      } else if bakIndex != -1 {
        found := true;
        break;
      } else {
        break;
      }
    }
  }

  /** The coins at the given indices. */
  predicate CoinsAt(txout: seq<Coin>, useIdx: seq<int>, vinNeed: seq<Coin>)
  {
    && |vinNeed| == |useIdx|
    && forall i :: 0 <= i < |useIdx| ==> 0 <= useIdx[i] < |txout| && vinNeed[i] == txout[useIdx[i]]
  }

  ghost predicate Consistent(txout: seq<Coin>, useIdx: seq<int>, vinNeed: seq<Coin>, sum: int)
  {
    && Distinct(useIdx) && Indices(Elements(useIdx), |txout|)
    && sum == Worth(txout, Elements(useIdx), |txout|)
    && CoinsAt(txout, useIdx, vinNeed)
  }

  lemma TakeOne(txout: seq<Coin>, useIdx: seq<int>, vinNeed: seq<Coin>, sum: int, i: nat)
    requires Consistent(txout, useIdx, vinNeed, sum) && i < |txout| && i !in useIdx
    ensures Consistent(txout, useIdx + [i], vinNeed + [txout[i]], sum + txout[i].amount)
  {
    DistinctSnoc(useIdx, i);
    WorthAdd(txout, Elements(useIdx), i, |txout|);
  }

  lemma {:induction false} NothingIsWorthNothing(cs: seq<Coin>, n: nat)
    requires n <= |cs|
    ensures Worth(cs, {}, n) == 0
  {
    if n > 0 { NothingIsWorthNothing(cs, n - 1); }
  }

  method TakeLargest(txout: seq<Coin>, need: int) returns (sum: int, vinNeed: seq<Coin>, useIdx: seq<int>)
    ensures Consistent(txout, useIdx, vinNeed, sum) && FewestLargest(txout, need, useIdx)
  {
    sum, vinNeed, useIdx := 0, [], [];
    assert Elements(useIdx) == {};
    NothingIsWorthNothing(txout, |txout|);
    var i := 0;
    while i < |txout|
      invariant 0 <= i <= |txout| && |useIdx| == i
      invariant Consistent(txout, useIdx, vinNeed, sum) && sum == Total(txout[..i])
      invariant forall k :: 0 <= k < i ==> useIdx[k] == k && Total(txout[..k]) < need
    {
      if sum >= need {
        break;
      }
      TakeOne(txout, useIdx, vinNeed, sum, i);
      TotalSnoc(txout, i);
      sum := sum + txout[i].amount;
      vinNeed := vinNeed + [txout[i]];
      useIdx := useIdx + [i];
      i := i + 1;
    }
  }

  lemma SameLength(txout: seq<Coin>, core: seq<int>, vin0: seq<Coin>, sum0: int)
    requires Consistent(txout, core, vin0, sum0)
    ensures |vin0| == |core|
  {
  }

  lemma NotPaddedYet(txout: seq<Coin>, core: seq<int>, vin0: seq<Coin>, sum0: int, i: nat)
    requires Consistent(txout, core, vin0, sum0) && i < |txout|
    ensures |txout| - i - 1 in core + Pads(|txout|, i, core) <==> |txout| - i - 1 in core
    ensures Pads(|txout|, i + 1, core)
      == Pads(|txout|, i, core) + (if |txout| - i - 1 in core then [] else [|txout| - i - 1])
  {
    PadsFit(|txout|, i, core);
  }

  method Pad(p: Params, txout: seq<Coin>, sum0: int, vin0: seq<Coin>, core: seq<int>)
    returns (sum: int, vinNeed: seq<Coin>, useIdx: seq<int>)
    requires ValidParams(p) && Consistent(txout, core, vin0, sum0)
    ensures Consistent(txout, useIdx, vinNeed, sum) && useIdx == core + Padding(p, |txout|, core)
  {
    hide Consistent;
    sum, vinNeed, useIdx := sum0, vin0, core;
    assert |vinNeed| == |core| by { SameLength(txout, core, vin0, sum0); }
    if |txout| > p.threshold && |vinNeed| < p.padding {
      var more := p.padding - |vinNeed|;
      for i := 0 to more
        invariant Consistent(txout, useIdx, vinNeed, sum) && useIdx == core + Pads(|txout|, i, core)
      {
        var curIdx := |txout| - i - 1;
        NotPaddedYet(txout, core, vin0, sum0, i);
        if curIdx !in useIdx {
          TakeOne(txout, useIdx, vinNeed, sum, curIdx);
          sum := sum + txout[curIdx].amount;
          vinNeed := vinNeed + [txout[curIdx]];
          useIdx := useIdx + [curIdx];
        }
      }
    }
  }

  /** The coins vinNeed, at distinct indices of the sorted list, are what the need calls for. */
  ghost predicate Selected(p: Params, coins: seq<Coin>, need: int, vinNeed: seq<Coin>)
  {
    exists core, idx ::
      && CoinsAt(SortDescending(coins), idx, vinNeed)
      && Chosen(p, SortDescending(coins), need, core, idx, Total(vinNeed))
  }

  /** The inputs for `need` = amount + fee.  The caller refuses the transaction when sum < need. */
  method Select(p: Params, coins: seq<Coin>, need: int) returns (sum: int, vinNeed: seq<Coin>)
    requires ValidParams(p) && coins != []
    ensures vinNeed == Selection(p, coins, need) && Selected(p, coins, need, vinNeed)
    ensures Spends(coins, need, p.threshold, p.padding, vinNeed)
    ensures sum == Total(vinNeed)
    ensures sum >= need <==> Total(coins) >= need
  {
    hide Consistent, Chosen, Selected, Selection, Total, IsCore, FewestLargest, Spends;
    var txout := SortDescending(coins);
    SortIsStable(coins, 0);
    SortKeepsTotal(coins);
    var bakIndex, found := -1, false;
    if |txout| > p.threshold {
      bakIndex, found := FindSingle(txout, need);
    }
    sum, vinNeed := 0, [];
    var useIdx := [];
    NothingTaken(txout);
    if found {
      TakeOne(txout, useIdx, vinNeed, sum, bakIndex);
      sum, vinNeed, useIdx := sum + txout[bakIndex].amount, vinNeed + [txout[bakIndex]], useIdx + [bakIndex];
    }
    if bakIndex == -1 {
      sum, vinNeed, useIdx := TakeLargest(txout, need);
    }
    ghost var core := useIdx;
    assert IsCore(p, txout, need, core) by { CoreTaken(p, txout, need, bakIndex, found, core); }
    sum, vinNeed, useIdx := Pad(p, txout, sum, vinNeed, useIdx);
    SelectedWhole(p, coins, need, core, useIdx, vinNeed, sum);
    SelectionByRules(p, coins, need);
  }

  lemma NothingTaken(txout: seq<Coin>)
    ensures Consistent(txout, [], [], 0)
  {
    assert Elements([]) == {};
    NothingIsWorthNothing(txout, |txout|);
  }

  /** What the first two loops chose is the core. */
  lemma CoreTaken(p: Params, txout: seq<Coin>, need: int, bakIndex: int, found: bool, core: seq<int>)
    requires txout != [] && (|txout| <= p.threshold ==> bakIndex == -1 && !found)
    requires |txout| > p.threshold ==>
      && (bakIndex == -1 <==> txout[0].amount < need)
      && (found <==> bakIndex != -1 && txout[|txout| - 1].amount < need)
      && (found ==> 0 <= bakIndex < |txout| - 1 && txout[bakIndex].amount >= need && txout[bakIndex + 1].amount < need)
    requires if bakIndex == -1 then FewestLargest(txout, need, core) else core == if found then [bakIndex] else []
    ensures IsCore(p, txout, need, core)
  {
  }

  lemma SelectedWhole(p: Params, coins: seq<Coin>, need: int, core: seq<int>, idx: seq<int>, vinNeed: seq<Coin>,
      sum: int)
    requires ValidParams(p) && coins != []
    requires var txout := SortDescending(coins);
      && IsCore(p, txout, need, core) && idx == core + Padding(p, |txout|, core) && Consistent(txout, idx, vinNeed, sum)
    ensures Selected(p, coins, need, vinNeed) && vinNeed == Selection(p, coins, need)
    ensures sum == Total(vinNeed) && (sum >= need <==> Total(coins) >= need)
  {
    hide IsCore, Padding, Selection, Worth, Total;
    var txout := SortDescending(coins);
    SortIsStable(coins, 0);
    SortKeepsTotal(coins);
    SumOfChosen(txout, idx, vinNeed);
    assert Chosen(p, txout, need, core, idx, sum);
    ReachesWhenAllDo(p, txout, need, core, idx, sum);
    SelectionIsUnique(p, coins, need, vinNeed);
  }

  /** The sum kept along the way is what the chosen coins are worth. */
  lemma {:induction false} SumOfChosen(txout: seq<Coin>, useIdx: seq<int>, vinNeed: seq<Coin>)
    requires Distinct(useIdx) && CoinsAt(txout, useIdx, vinNeed)
    ensures Worth(txout, Elements(useIdx), |txout|) == Total(vinNeed)
    decreases |useIdx|
  {
    if useIdx == [] {
      assert Elements(useIdx) == {};
      NothingIsWorthNothing(txout, |txout|);
    } else {
      var n := |useIdx| - 1;
      SumOfChosen(txout, useIdx[..n], vinNeed[..n]);
      assert useIdx == useIdx[..n] + [useIdx[n]];
      DistinctSnoc(useIdx[..n], useIdx[n]);
      WorthAdd(txout, Elements(useIdx[..n]), useIdx[n], |txout|);
    }
  }

  /** With a limit on the inputs, what is refused is exactly what no choice within the limit could pay. */
  lemma LimitOnSelected(p: Params, coins: seq<Coin>, need: int, vinNeed: seq<Coin>, most: nat)
    requires ValidParams(p) && p.padding <= most && Selected(p, coins, need, vinNeed)
    ensures |vinNeed| <= most && Total(vinNeed) >= need <==> Coverable(SortDescending(coins), need, most)
  {
    var txout := SortDescending(coins);
    SortIsStable(coins, 0);
    var core, idx :| CoinsAt(txout, idx, vinNeed) && Chosen(p, txout, need, core, idx, Total(vinNeed));
    LimitIsFair(p, txout, need, core, idx, Total(vinNeed), most);
  }

  // ---- The rules coin by coin ----

  /** Is coin i needed?  When one of many coins is large enough by itself, only if it is the smallest such and a
      smaller one follows; otherwise if the coins before it do not reach the need. */
  ghost predicate Takes(cs: seq<Coin>, need: int, threshold: nat, i: int)
  {
    && 0 <= i < |cs|
    && if |cs| > threshold && cs[0].amount >= need then
         cs[i].amount >= need && i + 1 < |cs| && cs[i + 1].amount < need
       else Total(cs[..i]) < need
  }

  ghost function TakenSet(cs: seq<Coin>, need: int, threshold: nat): set<int>
  {
    set i | 0 <= i < |cs| && Takes(cs, need, threshold, i)
  }

  /** Besides the coins that are needed, when there are more than `threshold`, the smallest ones: as many as are
      missing from `padding`, less those taken already. */
  ghost predicate SpendsIndices(cs: seq<Coin>, need: int, threshold: nat, padding: nat, idx: seq<int>)
  {
    var taken := TakenSet(cs, need, threshold);
    && Distinct(idx)
    && forall i :: i in idx <==>
         0 <= i < |cs| && (i in taken || (|cs| > threshold && i >= |cs| - (padding - |taken|)))
  }

  ghost predicate Spends(coins: seq<Coin>, need: int, threshold: nat, padding: nat, vins: seq<Coin>)
  {
    exists idx ::
      CoinsAt(SortDescending(coins), idx, vins) && SpendsIndices(SortDescending(coins), need, threshold, padding, idx)
  }

  lemma {:induction false} TotalMonotone(cs: seq<Coin>, i: nat, j: nat)
    requires i <= j <= |cs|
    ensures Total(cs[..i]) <= Total(cs[..j])
    decreases j - i
  {
    if i < j {
      TotalMonotone(cs, i, j - 1);
      TotalSnoc(cs, j - 1);
    }
  }

  lemma CoreIsTaken(p: Params, cs: seq<Coin>, need: int, core: seq<int>)
    requires Descending(cs) && IsCore(p, cs, need, core)
    ensures Elements(core) == TakenSet(cs, need, p.threshold)
  {
    hide Total;
    forall i | 0 <= i < |cs| ensures i in core <==> Takes(cs, need, p.threshold, i) {
      if !(|cs| > p.threshold && cs[0].amount >= need) {
        if i < |core| {
          assert core[i] == i;
        } else {
          TotalMonotone(cs, |core|, i);
        }
      }
    }
  }

  lemma SpendsChosen(p: Params, cs: seq<Coin>, need: int, core: seq<int>)
    requires ValidParams(p) && Descending(cs) && IsCore(p, cs, need, core)
    ensures SpendsIndices(cs, need, p.threshold, p.padding, core + Padding(p, |cs|, core))
  {
    IndicesOfCore(p, cs, need, core);
    PaddedFits(p, cs, core);
    CoreIsTaken(p, cs, need, core);
    DistinctSize(core);
    hide IsCore, Takes;
    if |cs| > p.threshold && |core| < p.padding { PadsFit(|cs|, p.padding - |core|, core); }
    var taken := TakenSet(cs, need, p.threshold);
    assert forall i :: i in core <==> i in taken;
  }

  /** The selection is what the rules say of every single coin. */
  lemma SelectionByRules(p: Params, coins: seq<Coin>, need: int)
    requires ValidParams(p) && coins != []
    ensures Spends(coins, need, p.threshold, p.padding, Selection(p, coins, need))
  {
    var txout := SortDescending(coins);
    var core := CoreOf(p, txout, need);
    SortIsStable(coins, 0);
    IndicesOfCore(p, txout, need, core);
    PaddedFits(p, txout, core);
    SpendsChosen(p, txout, need, core);
    hide SpendsIndices;
  }

  // ---- Coins of one amount ----

  predicate AllWorth(cs: seq<Coin>, a: nat) { forall i :: 0 <= i < |cs| ==> cs[i].amount == a }

  lemma {:induction false} TotalOfEqual(cs: seq<Coin>, a: nat)
    requires AllWorth(cs, a)
    ensures Total(cs) == |cs| * a
    decreases |cs|
  {
    if cs != [] { TotalOfEqual(cs[..|cs| - 1], a); }
  }

  lemma {:induction false} SortOfEqual(cs: seq<Coin>, a: nat)
    requires AllWorth(cs, a)
    ensures AllWorth(SortDescending(cs), a)
  {
    if cs != [] {
      SortOfEqual(cs[1..], a);
      InsertEqual(cs[0], SortDescending(cs[1..]), a);
    }
  }

  lemma {:induction false} InsertEqual(c: Coin, cs: seq<Coin>, a: nat)
    requires AllWorth(cs, a) && c.amount == a
    ensures AllWorth(Insert(c, cs), a)
  {
  }

  lemma TimesMono(r: nat, n: nat, a: nat)
    requires r < n
    ensures r * a <= (n - 1) * a
  {
  }

  lemma CoreOfEqual(p: Params, txout: seq<Coin>, a: nat, need: int)
    requires AllWorth(txout, a) && |txout| >= 2 && (|txout| - 1) * a < need
    ensures |CoreOf(p, txout, need)| == |txout|
  {
    TimesMono(1, |txout|, a);
    var r := FewestFrom(txout, need, 0);
    TotalOfEqual(txout[..r], a);
    if r < |txout| { TimesMono(r, |txout|, a); }
  }

  /** Many coins of one amount that are all needed are all spent. */
  lemma SelectionOfEqual(p: Params, coins: seq<Coin>, a: nat, need: int)
    requires ValidParams(p) && AllWorth(coins, a) && |coins| > p.threshold && |coins| >= 2
    requires (|coins| - 1) * a < need
    ensures |Selection(p, coins, need)| == |coins| && Total(Selection(p, coins, need)) == |coins| * a
  {
    SortOfEqual(coins, a);
    CoreOfEqual(p, SortDescending(coins), a, need);
    hide CoreOf;
    TotalOfEqual(Selection(p, coins, need), a);
  }
}
