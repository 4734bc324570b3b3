// collect_block of the BTC-family collector (btc_collect/main.go): heights are taken in batches,
// fetched by concurrent workers over a buffered channel, and passed on in their old order.

module ParallelFetch {

  datatype Msg<+B> = Data(block: B) | Exit

  function Ceil(a: nat, b: nat): (r: nat)
    requires b > 0
    ensures b * r >= a && (r > 0 ==> b * (r - 1) < a)
  {
    var res := a / b;
    assert a == b * res + a % b;
    if a % b > 0 then res + 1 else res
  }

  function Fetched<B>(heights: seq<int>, fetch: int -> B): (out: seq<B>)
    ensures |out| == |heights| && forall i :: 0 <= i < |out| ==> out[i] == fetch(heights[i])
  {
    seq(|heights|, i requires 0 <= i < |heights| => fetch(heights[i]))
  }

  function Total(ws: seq<seq<int>>): nat
  {
    if ws == [] then 0 else Total(ws[..|ws| - 1]) + |ws[|ws| - 1]|
  }

  function Concat(ws: seq<seq<int>>): seq<int>
  {
    if ws == [] then [] else Concat(ws[..|ws| - 1]) + ws[|ws| - 1]
  }

  lemma {:induction false} ConcatSize(ws: seq<seq<int>>)
    ensures |Concat(ws)| == Total(ws)
    ensures forall h :: h in Concat(ws) ==> exists j :: 0 <= j < |ws| && h in ws[j]
    decreases |ws|
  {
    if ws != [] {
      var front := ws[..|ws| - 1];
      ConcatSize(front);
      forall h | h in Concat(ws)
        ensures exists j :: 0 <= j < |ws| && h in ws[j]
      {
        if h in Concat(front) {
          var j :| 0 <= j < |front| && h in front[j];
          assert h in ws[j];
        } else {
          assert h in ws[|ws| - 1];
        }
      }
    }
  }

  lemma {:induction false} TotalUpdate(ws: seq<seq<int>>, j: nat, w: seq<int>)
    requires j < |ws|
    ensures Total(ws[j := w]) == Total(ws) - |ws[j]| + |w|
    decreases |ws|
  {
    var n := |ws| - 1;
    if j < n {
      TotalUpdate(ws[..n], j, w);
      assert ws[j := w][..n] == ws[..n][j := w];
    } else {
      assert ws[j := w][..n] == ws[..n];
    }
  }

  lemma {:induction false} TotalZero(ws: seq<seq<int>>)
    ensures (forall j :: 0 <= j < |ws| ==> ws[j] == []) ==> Total(ws) == 0
    decreases |ws|
  {
    if ws != [] { TotalZero(ws[..|ws| - 1]); }
  }

  /** The slices handed to the workers: height_cache[j*per:(j+1)*per], the last one open-ended.
      They partition the batch in order, none is empty and none exceeds its share. */
  method Slices(heights: seq<int>, per: nat) returns (ws: seq<seq<int>>)
    requires per > 0
    ensures |ws| == Ceil(|heights|, per)
    ensures Concat(ws) == heights
    ensures forall j :: 0 <= j < |ws| ==> 1 <= |ws[j]| <= per
  {
    ws := [];
    var count := Ceil(|heights|, per);
    for j := 0 to count
      invariant |ws| == j && per * j <= |heights| + per
      invariant j < count ==> per * j <= |heights| && Concat(ws) == heights[..per * j]
      invariant j == count ==> Concat(ws) == heights
      invariant forall i :: 0 <= i < |ws| ==> 1 <= |ws[i]| <= per
    {
      SliceBounds(|heights|, per, count, j);
      var slice := if j == count - 1 then heights[per * j..] else heights[per * j..per * (j + 1)];
      assert (ws + [slice])[..j] == ws;
      ws := ws + [slice];
      assert Concat(ws) == heights[..per * j] + slice;
    }
  }

  lemma SliceBounds(n: nat, per: nat, count: nat, j: nat)
    requires per > 0 && count == Ceil(n, per) && j < count
    ensures per * (j + 1) == per * j + per
    ensures per * j < n
    ensures j == count - 1 ==> n - per * j <= per
    ensures j < count - 1 ==> per * (j + 1) < n
  {
    Mono(per, j, count - 1);
    if j < count - 1 {
      Mono(per, j + 1, count - 1);
    }
  }

  lemma Mono(per: nat, a: nat, b: nat)
    requires a <= b
    ensures per * a <= per * b
  {
  }

  predicate Waiting(ws: seq<seq<int>>, h: int)
  {
    exists j :: 0 <= j < |ws| && h in ws[j]
  }

  /** Taking one height from one worker leaves every other waiting height waiting. */
  lemma TakeOne(ws: seq<seq<int>>, j: nat, h: int)
    requires j < |ws| && ws[j] != [] && Waiting(ws, h) && h != ws[j][0]
    ensures Waiting(ws[j := ws[j][1..]], h)
  {
    var i :| 0 <= i < |ws| && h in ws[i];
    assert ws[j] == [ws[j][0]] + ws[j][1..];
    assert h in ws[j := ws[j][1..]][i];
  }

  predicate Received<B>(chan: seq<(int, B)>, h: int)
  {
    exists k :: 0 <= k < |chan| && chan[k].0 == h
  }

  lemma ReceivedSnoc<B>(chan: seq<(int, B)>, h: int, b: B, x: int)
    requires x == h || Received(chan, x)
    ensures Received(chan + [(h, b)], x)
  {
    var next := chan + [(h, b)];
    if x == h {
      assert next[|chan|].0 == x;
    } else {
      var k :| 0 <= k < |chan| && chan[k].0 == x;
      assert next[k].0 == x;
    }
  }

  /** All interleavings of the workers: each step one worker fetches its next height and sends.
      No send ever blocks, and the wait ends with one message per height. */
  method RunWorkers<B>(heights: seq<int>, slices: seq<seq<int>>, capacity: nat,
      fetch: int -> B) returns (dataChan: seq<(int, B)>)
    requires Concat(slices) == heights && |heights| <= capacity
    ensures |dataChan| == |heights|
    ensures forall m :: m in dataChan ==> m.1 == fetch(m.0)
    ensures forall h :: h in heights ==> Received(dataChan, h)
  {
    var workers := slices;
    dataChan := [];
    ConcatSize(workers);
    while exists j :: 0 <= j < |workers| && workers[j] != []
      invariant |dataChan| + Total(workers) == |heights|
      invariant forall m :: m in dataChan ==> m.1 == fetch(m.0)
      invariant forall h :: h in heights ==> Received(dataChan, h) || Waiting(workers, h)
      decreases Total(workers)
    {
      var j :| 0 <= j < |workers| && workers[j] != [];
      var h := workers[j][0];
      TotalUpdate(workers, j, workers[j][1..]);
      forall x | x in heights && x != h && !Received(dataChan, x)
        ensures Waiting(workers[j := workers[j][1..]], x)
      {
        TakeOne(workers, j, x);
      }
      forall x | x == h || Received(dataChan, x)
        ensures Received(dataChan + [(h, fetch(h))], x)
      {
        ReceivedSnoc(dataChan, h, fetch(h), x);
      }
      workers := workers[j := workers[j][1..]];
      assert |dataChan| < capacity;
      dataChan := dataChan + [(h, fetch(h))];
    }
    TotalZero(workers);
  }

  /** One batch: whatever the interleaving, the blocks come out in the order of the heights. */
  method FetchBatch<B>(heights: seq<int>, per: nat, capacity: nat, fetch: int -> B) returns (out: seq<B>)
    requires per > 0 && |heights| <= capacity
    ensures out == Fetched(heights, fetch)
  {
    var slices := Slices(heights, per);
    var dataChan := RunWorkers(heights, slices, capacity, fetch);
    var cacheMap: map<int, B> := map[];
    for i := 0 to |heights|
      invariant forall h :: h in cacheMap ==> cacheMap[h] == fetch(h)
      invariant forall k :: 0 <= k < i ==> dataChan[k].0 in cacheMap
    {
      assert dataChan[i] in dataChan;
      cacheMap := cacheMap[dataChan[i].0 := dataChan[i].1];
    }
    out := [];
    for i := 0 to |heights|
      invariant out == Fetched(heights[..i], fetch)
    {
      assert heights[i] in heights;
      assert Received(dataChan, heights[i]);
      out := out + [cacheMap[heights[i]]];
    }
    assert heights[..|heights|] == heights;
  }

  function Stream<B>(heights: seq<int>, fetch: int -> B): (out: seq<Msg<B>>)
    ensures |out| == |heights| && forall i :: 0 <= i < |out| ==> out[i] == Data(fetch(heights[i]))
  {
    seq(|heights|, i requires 0 <= i < |heights| => Data(fetch(heights[i])))
  }

  /** The whole loop: `feed` is what height_chan delivers, with its stop marker -1 at `stop`. */
  method CollectBlock<B>(feed: seq<int>, stop: nat, delta: nat, per: nat, fetch: int -> B) returns (out: seq<Msg<B>>)
    requires 0 < per <= delta
    requires stop < |feed| && feed[stop] == -1 && -1 !in feed[..stop]
    ensures out == Stream(feed[..stop], fetch) + [Exit]
  {
    out := [];
    var n := 0;
    while true
      invariant n <= stop && out == Stream(feed[..n], fetch)
      decreases stop - n
    {
      var heightCache: seq<int> := [];
      ghost var start := n;
      while |heightCache| < delta
        invariant start <= n <= stop && heightCache == feed[start..n] && |heightCache| <= delta
        decreases delta - |heightCache|
      {
        var onceHeight := feed[n];
        if onceHeight == -1 {
          assert forall k :: 0 <= k < stop ==> feed[k] == feed[..stop][k];
          var tail := FetchBatch(heightCache, per, delta, fetch);
          out := Emit(out, tail, feed, start, n, fetch) + [Exit];
          return;
        }
        heightCache := heightCache + [onceHeight];
        n := n + 1;
      }
      var blocks := FetchBatch(heightCache, per, delta, fetch);
      out := Emit(out, blocks, feed, start, n, fetch);
    }
  }

  function Emit<B>(out: seq<Msg<B>>, blocks: seq<B>, ghost feed: seq<int>, ghost start: nat, ghost n: nat,
      ghost fetch: int -> B): (r: seq<Msg<B>>)
    requires start <= n <= |feed| && out == Stream(feed[..start], fetch) && blocks == Fetched(feed[start..n], fetch)
    ensures r == Stream(feed[..n], fetch)
  {
    out + seq(|blocks|, i requires 0 <= i < |blocks| => Data(blocks[i]))
  }
}
