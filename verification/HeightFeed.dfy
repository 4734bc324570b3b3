// Which heights main hands to the collector (btc_collect/main.go), session after session: a fast phase
// up to the chain height observed at start, then a slow phase that follows the chain. Between the two
// the height to be stored next is set back to one below the observed height.

module HeightFeed {
  import opened Options

  function Range(lo: int, hi: int): (r: seq<int>)
    ensures |r| == if lo <= hi then hi - lo else 0
    ensures forall i :: 0 <= i < |r| ==> r[i] == lo + i
    decreases hi - lo
  {
    if lo >= hi then [] else Range(lo, hi - 1) + [hi - 1]
  }

  lemma RangeJoin(a: int, b: int, c: int)
    requires a <= b <= c
    ensures Range(a, b) + Range(b, c) == Range(a, c)
  {
  }

  /** The highest chain height seen so far. */
  function Highest(count: int, later: seq<int>): (h: int)
    ensures h >= count
    ensures h == count || h in later
    ensures forall c :: c in later ==> c <= h
  {
    if later == [] then count
    else
      var h := Highest(count, later[..|later| - 1]);
      var c := later[|later| - 1];
      assert later == later[..|later| - 1] + [c];
      if h < c then c else h
  }

  /** One session: the first observed height that is not below the stored one, the observations of the slow
      phase, and after how many heights a signal ended the fast phase, if one did. */
  datatype Visit = Visit(count: int, later: seq<int>, interrupt: Option<nat>)

  /** Where the fast phase stops. */
  function FastEnd(height: int, v: Visit): (end: int)
  {
    if v.count <= height then height + 1
    else if v.interrupt.Some? && height + 1 + v.interrupt.value < v.count then height + 1 + v.interrupt.value
    else v.count
  }

  /** The heights one session hands over. */
  function Handed(height: int, v: Visit): seq<int>
  {
    Range(height + 1, FastEnd(height, v))
    + (if v.interrupt.Some? then [] else Range(v.count, Highest(v.count, v.later)))
  }

  /** The height on disk after a session that stopped cleanly. */
  function StoredAfter(height: int, v: Visit): int
  {
    if v.interrupt.Some? then FastEnd(height, v) - 1 else Highest(v.count, v.later) - 1
  }

  // ---- The two loops ----

  method FeedFast(height: int, v: Visit) returns (fed: seq<int>)
    ensures fed == Range(height + 1, FastEnd(height, v))
  {
    fed := [];
    var i := height + 1;
    while i < v.count && !(v.interrupt.Some? && i >= height + 1 + v.interrupt.value)
      invariant height + 1 <= i <= FastEnd(height, v)
      invariant fed == Range(height + 1, i)
    {
      fed := fed + [i];
      i := i + 1;
    }
  }

  method FeedUpTo(fed0: seq<int>, oldCount: int, count: int) returns (fed: seq<int>)
    requires oldCount <= count
    ensures fed == fed0 + Range(oldCount, count)
  {
    fed := fed0;
    var i := oldCount;
    while i < count
      invariant oldCount <= i <= count
      invariant fed == fed0 + Range(oldCount, i)
    {
      fed := fed + [i];
      i := i + 1;
    }
  }

  method FeedSlow(count: int, later: seq<int>) returns (fed: seq<int>)
    ensures fed == Range(count, Highest(count, later))
  {
    fed := [];
    var oldCount := count;
    var n := 0;
    while n < |later|
      invariant 0 <= n <= |later|
      invariant oldCount == Highest(count, later[..n])
      invariant fed == Range(count, oldCount)
    {
      assert later[..n + 1][..n] == later[..n];
      if oldCount < later[n] {
        fed := FeedUpTo(fed, oldCount, later[n]);
        RangeJoin(count, oldCount, later[n]);
        oldCount := later[n];
      }
      n := n + 1;
    }
    assert later[..|later|] == later;
  }

  // ---- One session ----

  /** The largest height the tables hold after a session that started with all blocks up to `height`. */
  function Largest(height: int, fed: seq<int>): (h: int)
    ensures h >= height
    ensures h == height || h in fed
    ensures forall n :: n in fed ==> n <= h
  {
    if fed == [] then height
    else
      var h, n := Largest(height, fed[..|fed| - 1]), fed[|fed| - 1];
      assert fed == fed[..|fed| - 1] + [n];
      if h < n then n else h
  }

  /** The blocks after the stored one are handed over without gap and without repetition if and only if
      the first observed height was above the stored one, or nothing was handed over at all. */
  lemma HandOverExact(height: int, v: Visit)
    requires v.count >= height
    ensures Handed(height, v) == Range(height + 1, height + 1 + |Handed(height, v)|)
       <==> Above(height, v) || Handed(height, v) == []
  {
    var fed := Handed(height, v);
    if v.count > height {
      if v.interrupt.None? { RangeJoin(height + 1, v.count, Highest(v.count, v.later)); }
    } else if fed != [] {
      assert fed[0] == height;
    }
  }

  /** A session leaves on disk the largest height in the tables if and only if the chain was seen above the
      stored height, or a signal ended the session in its fast phase. */
  lemma StoredHeightExact(height: int, v: Visit)
    requires v.count >= height
    ensures StoredAfter(height, v) == Largest(height, Handed(height, v))
       <==> v.interrupt.Some? || Highest(v.count, v.later) > height
  {
    var fed, top := Handed(height, v), Highest(v.count, v.later);
    if v.interrupt.Some? {
      assert FastEnd(height, v) > height + 1 ==> fed[|fed| - 1] == FastEnd(height, v) - 1;
    } else if top > v.count {
      assert fed[|fed| - 1] == top - 1;
    } else if v.count > height + 1 {
      assert fed[|fed| - 1] == v.count - 1;
    }
  }

  // ---- Session after session ----

  function StoredAll(height: int, vs: seq<Visit>): int
  {
    if vs == [] then height else StoredAfter(StoredAll(height, vs[..|vs| - 1]), vs[|vs| - 1])
  }

  function HandedAll(height: int, vs: seq<Visit>): seq<int>
  {
    if vs == [] then []
    else HandedAll(height, vs[..|vs| - 1]) + Handed(StoredAll(height, vs[..|vs| - 1]), vs[|vs| - 1])
  }

  /** main waits until the observed height is not below the stored one. */
  predicate Waited(height: int, vs: seq<Visit>)
  {
    vs == [] || (Waited(height, vs[..|vs| - 1]) && vs[|vs| - 1].count >= StoredAll(height, vs[..|vs| - 1]))
  }

  /** Every session first saw the chain above the stored height, or was ended in its fast phase. */
  predicate NoneEqual(height: int, vs: seq<Visit>)
  {
    vs == [] ||
    (NoneEqual(height, vs[..|vs| - 1])
     && Above(StoredAll(height, vs[..|vs| - 1]), vs[|vs| - 1]))
  }

  /** A session that first saw the chain at the stored height, and every later one, handed over nothing. */
  predicate IdleOnceEqual(height: int, vs: seq<Visit>)
  {
    vs == [] ||
    (IdleOnceEqual(height, vs[..|vs| - 1])
     && (Handed(StoredAll(height, vs[..|vs| - 1]), vs[|vs| - 1]) == [] || NoneEqual(height, vs)))
  }

  /** The heights after the given one, each once and without gap. */
  predicate Consecutive(height: int, fed: seq<int>) { forall i :: 0 <= i < |fed| ==> fed[i] == height + 1 + i }

  lemma ConsecutiveIsRange(height: int, fed: seq<int>)
    ensures Consecutive(height, fed) <==> fed == Range(height + 1, height + 1 + |fed|)
  {
  }

  /** Adding the heights of one more session. */
  lemma ConsecutiveAppend(height: int, fed: seq<int>, more: seq<int>)
    ensures Consecutive(height, fed + more) <==>
      Consecutive(height, fed) && (more == [] || Consecutive(height + |fed|, more))
  {
    var all := fed + more;
    assert forall i :: 0 <= i < |fed| ==> fed[i] == all[i];
    assert forall i :: 0 <= i < |more| ==> more[i] == all[|fed| + i];
  }

  /** One session from a stored height that is not above the height reached. */
  lemma NextSession(stored: int, reached: int, v: Visit)
    requires v.count >= stored && stored <= reached
    ensures var fed := Handed(stored, v);
      fed != [] ==> (Consecutive(reached, fed) <==> Above(stored, v) && stored == reached)
    ensures var fed := Handed(stored, v);
      fed == [] || Consecutive(reached, fed) ==>
        StoredAfter(stored, v) <= reached + |fed|
        && (StoredAfter(stored, v) == reached + |fed| <==> Above(stored, v) && stored == reached)
  {
    var fed := Handed(stored, v);
    HandOverExact(stored, v);
    ConsecutiveIsRange(stored, fed);
    StoredByHanded(stored, v);
    if fed != [] { FirstHanded(stored, v); }
    hide Handed, StoredAfter, Above;
    assert fed != [] && Consecutive(reached, fed) ==> fed[0] == reached + 1;
  }

  predicate Above(stored: int, v: Visit) { v.count > stored || v.interrupt.Some? }

  lemma FirstHanded(stored: int, v: Visit)
    requires v.count >= stored && Handed(stored, v) != []
    ensures Handed(stored, v)[0] == if Above(stored, v) then stored + 1 else stored
  {
  }

  /** What is stored, in terms of how much was handed over. */
  lemma StoredByHanded(stored: int, v: Visit)
    requires v.count >= stored
    ensures StoredAfter(stored, v) == stored + |Handed(stored, v)| - (if Above(stored, v) then 0 else 1)
  {
  }

  /** Over any number of sessions the heights are handed over each exactly once, in order and without gap,
      if and only if nothing was handed over from the first session on that saw the chain at the stored
      height; and the stored height is the last one handed over if and only if there was no such session. */
  lemma {:induction false} ConsecutiveSessions(height: int, vs: seq<Visit>)
    requires Waited(height, vs)
    ensures Consecutive(height, HandedAll(height, vs)) <==> IdleOnceEqual(height, vs)
    ensures IdleOnceEqual(height, vs) ==>
      StoredAll(height, vs) <= height + |HandedAll(height, vs)|
      && (StoredAll(height, vs) == height + |HandedAll(height, vs)| <==> NoneEqual(height, vs))
    decreases |vs|
  {
    if vs != [] {
      var front, last := vs[..|vs| - 1], vs[|vs| - 1];
      ConsecutiveSessions(height, front);
      var fed, stored := HandedAll(height, front), StoredAll(height, front);
      ConsecutiveAppend(height, fed, Handed(stored, last));
      hide Handed, StoredAfter, Consecutive, Above;
      if IdleOnceEqual(height, front) {
        NextSession(stored, height + |fed|, last);
      }
    }
  }

  /** Without such a session the stored height follows exactly what was handed over. */
  lemma NoneEqualIsExact(height: int, vs: seq<Visit>)
    requires Waited(height, vs) && NoneEqual(height, vs)
    ensures HandedAll(height, vs) == Range(height + 1, StoredAll(height, vs) + 1) && StoredAll(height, vs) >= height
  {
    hide Handed, StoredAfter, NoneEqual, IdleOnceEqual, StoredAll, HandedAll, Waited;
    NoneEqualIdles(height, vs);
    ConsecutiveSessions(height, vs);
    ConsecutiveIsRange(height, HandedAll(height, vs));
  }

  lemma {:induction false} NoneEqualIdles(height: int, vs: seq<Visit>)
    requires NoneEqual(height, vs)
    ensures IdleOnceEqual(height, vs)
    decreases |vs|
  {
    if vs != [] { NoneEqualIdles(height, vs[..|vs| - 1]); }
  }

  /** A start at the stored height, with no growth, sets it back by one: the next session hands the block
      over again. */
  lemma SetBackHandsOverAgain(height: int, next: Visit)
    requires next.count > height && next.interrupt.None?
    ensures var idle := Visit(height, [], None);
      && Handed(height, idle) == []
      && StoredAll(height, [idle]) == height - 1
      && HandedAll(height, [idle, next]) == Range(height, Highest(next.count, next.later))
  {
    var idle := Visit(height, [], None);
    assert [idle, next][..1] == [idle] && [idle][..0] == [];
    assert StoredAll(height, [idle]) == height - 1 && HandedAll(height, [idle]) == [];
    assert HandedAll(height, [idle, next]) == Handed(height - 1, next);
    RangeJoin(height, next.count, Highest(next.count, next.later));
  }

  // ---- A node that never falls back ----

  /** The largest height handed over so far. */
  function Reached(height: int, vs: seq<Visit>): int
  {
    if vs == [] then height
    else Largest(Reached(height, vs[..|vs| - 1]), Handed(StoredAll(height, vs[..|vs| - 1]), vs[|vs| - 1]))
  }

  /** Every session first sees the chain at least as high as it was ever handed over. */
  predicate NotFalling(height: int, vs: seq<Visit>)
  {
    vs == [] || (NotFalling(height, vs[..|vs| - 1]) && vs[|vs| - 1].count >= Reached(height, vs[..|vs| - 1]))
  }

  lemma {:induction false} LargestOfRange(h: int, lo: int, hi: int)
    ensures Largest(h, Range(lo, hi)) == if lo < hi && h < hi - 1 then hi - 1 else h
    decreases hi - lo
  {
    if lo < hi {
      LargestOfRange(h, lo, hi - 1);
      assert Range(lo, hi)[..hi - lo - 1] == Range(lo, hi - 1);
    }
  }

  /** Then a session goes on after the highest block, or hands that one over once more first. */
  lemma NextReached(stored: int, reached: int, v: Visit)
    requires reached - 1 <= stored <= reached <= v.count
    ensures var fed, next := Handed(stored, v), Largest(reached, Handed(stored, v));
      && (fed == [] ==> next == reached)
      && (fed != [] ==>
            reached <= fed[0] <= reached + 1 && fed == Range(fed[0], next + 1) && StoredAfter(stored, v) == next)
      && next - 1 <= StoredAfter(stored, v) <= next
  {
    hide Handed, StoredAfter, Range, Largest;
    HandedIsRange(stored, v);
    RangeReached(reached, if Above(stored, v) then stored + 1 else stored, StoredAfter(stored, v) + 1);
  }

  lemma RangeReached(reached: int, lo: int, hi: int)
    requires reached <= lo <= reached + 1 && lo <= hi
    ensures var fed, next := Range(lo, hi), Largest(reached, Range(lo, hi));
      && (fed == [] ==> next == reached)
      && (fed != [] ==> fed[0] == lo && next == hi - 1)
      && next - 1 <= hi - 1 <= next
  {
    LargestOfRange(reached, lo, hi);
  }

  /** One session hands over one range, up to the height it stores. */
  lemma HandedIsRange(stored: int, v: Visit)
    requires v.count >= stored
    ensures var lo := if Above(stored, v) then stored + 1 else stored;
      StoredAfter(stored, v) >= lo - 1 && Handed(stored, v) == Range(lo, StoredAfter(stored, v) + 1)
  {
    if v.count > stored && v.interrupt.None? {
      RangeJoin(stored + 1, v.count, Highest(v.count, v.later));
    }
  }

  lemma {:induction false} StoredNearReached(height: int, vs: seq<Visit>)
    requires NotFalling(height, vs)
    ensures Reached(height, vs) - 1 <= StoredAll(height, vs) <= Reached(height, vs) && Reached(height, vs) >= height
    ensures Waited(height, vs)
    decreases |vs|
  {
    if vs != [] {
      var front, last := vs[..|vs| - 1], vs[|vs| - 1];
      StoredNearReached(height, front);
      NextReached(StoredAll(height, front), Reached(height, front), last);
    }
  }

  /** Sessions none of which saw the chain at the stored height never meet a node that fell back. */
  lemma {:induction false} NoneEqualNotFalling(height: int, vs: seq<Visit>)
    requires Waited(height, vs) && NoneEqual(height, vs)
    ensures NotFalling(height, vs) && Reached(height, vs) == StoredAll(height, vs)
    decreases |vs|
  {
    if vs != [] {
      var front, last := vs[..|vs| - 1], vs[|vs| - 1];
      NoneEqualNotFalling(height, front);
      NextReached(StoredAll(height, front), Reached(height, front), last);
      StoredByHanded(StoredAll(height, front), last);
    }
  }
}
