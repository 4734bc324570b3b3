// Shutdown of the Ethereum collector (eth_collect/main.go): three collectors and H handlers share
// two bounded channels and an exit counter; exit tokens are posted again by the handlers.

module EthShutdown {
  import opened Options

  const THREADS: int := 3   // collect_threads
  const CAPACITY: int := 40 // of both channels
  const STOP: int := -1

  datatype Msg = Block(height: int) | Exit

  /** Holding: a block fetched, not sent yet.  Stopping: the stop marker read.  Counted: the exit
      counter raised, the token not sent yet. */
  datatype CState = CIdle | CHolding(height: int) | CStopping | CCounted | CDone

  /** Waiting: a token taken, the counter below three for all it knows.  Ready: about to compare
      the counter with the number of handlers.  Reposting: the test passed, the counter not raised
      yet.  Raised: the token not sent yet.  Test and increment are separate steps. */
  datatype HState = HIdle | HWorking(height: int) | HWaiting | HReady | HReposting | HRaised | HPosted | HDropped

  datatype State = State(
    feed: seq<int>, heightChan: seq<int>, collectors: seq<CState>,
    blockChan: seq<Msg>, handlers: seq<HState>, exitCount: int, handled: seq<int>)

  datatype Actor = Main | Collector(c: nat) | Handler(h: nat)

  function IdleHandlers(n: nat): (hs: seq<HState>)
    ensures |hs| == n
  {
    if n == 0 then [] else IdleHandlers(n - 1) + [HIdle]
  }

  /** main feeds every height and then one stop marker per collector. */
  function Init(heights: seq<int>, handlers: nat): State
  {
    State(heights + [STOP, STOP, STOP], [], [CIdle, CIdle, CIdle], [], IdleHandlers(handlers), 0, [])
  }

  /** One step of one goroutine, if it is not blocked (or finished). */
  function Step(s: State, a: Actor): Option<State>
  {
    match a
    case Main =>
      if s.feed == [] || |s.heightChan| >= CAPACITY then None
      else Some(s.(feed := s.feed[1..], heightChan := s.heightChan + [s.feed[0]]))
    case Collector(c) =>
      if c >= |s.collectors| then None
      else
        (match s.collectors[c]
         case CIdle =>
           if s.heightChan == [] then None
           else Some(s.(heightChan := s.heightChan[1..], collectors :=
             s.collectors[c := if s.heightChan[0] == STOP then CStopping else CHolding(s.heightChan[0])]))
         case CHolding(height) =>
           if |s.blockChan| >= CAPACITY then None
           else Some(s.(blockChan := s.blockChan + [Block(height)], collectors := s.collectors[c := CIdle]))
         case CStopping =>
           Some(s.(exitCount := s.exitCount + 1, collectors := s.collectors[c := CCounted]))
         case CCounted =>
           if |s.blockChan| >= CAPACITY then None
           else Some(s.(blockChan := s.blockChan + [Exit], collectors := s.collectors[c := CDone]))
         case CDone => None)
    case Handler(h) =>
      if h >= |s.handlers| then None
      else
        (match s.handlers[h]
         case HIdle =>
           if s.blockChan == [] then None
           else Some(s.(blockChan := s.blockChan[1..], handlers :=
             s.handlers[h := if s.blockChan[0].Exit? then HWaiting else HWorking(s.blockChan[0].height)]))
         case HWorking(height) =>
           Some(s.(handled := s.handled + [height], handlers := s.handlers[h := HIdle]))
         case HWaiting =>
           if s.exitCount < THREADS then None
           else Some(s.(handlers := s.handlers[h := HReady]))
         case HReady =>
           Some(s.(handlers := s.handlers[h := if s.exitCount < |s.handlers| then HReposting else HDropped]))
         case HReposting =>
           Some(s.(exitCount := s.exitCount + 1, handlers := s.handlers[h := HRaised]))
         case HRaised =>
           if |s.blockChan| >= CAPACITY then None
           else Some(s.(blockChan := s.blockChan + [Exit], handlers := s.handlers[h := HPosted]))
         case HPosted => None
         case HDropped => None)
  }

  /** The state after the given interleaving, if every step in it was possible. */
  function Run(s: State, actors: seq<Actor>): Option<State>
    decreases |actors|
  {
    if actors == [] then Some(s)
    else
      match Run(s, actors[..|actors| - 1])
      case None => None
      case Some(t) => Step(t, actors[|actors| - 1])
  }

  // ---- Counting ----

  datatype CKind = IdleC | HoldingC | StoppingC | CountedC | DoneC
  datatype HKind = IdleH | WorkingH | WaitingH | ReadyH | RepostingH | RaisedH | PostedH | DroppedH

  function KindC(c: CState): CKind
  {
    match c case CIdle => IdleC case CHolding(_) => HoldingC case CStopping => StoppingC case CCounted => CountedC
    case CDone => DoneC
  }

  function KindH(h: HState): HKind
  {
    match h case HIdle => IdleH case HWorking(_) => WorkingH case HWaiting => WaitingH case HReady => ReadyH
    case HReposting => RepostingH case HRaised => RaisedH case HPosted => PostedH case HDropped => DroppedH
  }

  /** How many of xs have k. */
  function Count<S, K>(xs: seq<S>, has: (S, K) -> bool, k: K): nat
  {
    if xs == [] then 0 else Count(xs[..|xs| - 1], has, k) + (if has(xs[|xs| - 1], k) then 1 else 0)
  }

  lemma {:induction false} CountUpdate<S, K>(xs: seq<S>, i: nat, x: S, has: (S, K) -> bool, k: K)
    requires i < |xs|
    ensures Count(xs[i := x], has, k)
        == Count(xs, has, k) - (if has(xs[i], k) then 1 else 0) + (if has(x, k) then 1 else 0)
    decreases |xs|
  {
    var n := |xs| - 1;
    if i < n {
      CountUpdate(xs[..n], i, x, has, k);
      assert xs[i := x][..n] == xs[..n][i := x];
    } else {
      assert xs[i := x][..n] == xs[..n];
    }
  }

  lemma {:induction false} CountCons<S, K>(xs: seq<S>, has: (S, K) -> bool, k: K)
    requires xs != []
    ensures Count(xs, has, k) == Count(xs[1..], has, k) + (if has(xs[0], k) then 1 else 0)
    decreases |xs|
  {
    if |xs| > 1 {
      CountCons(xs[..|xs| - 1], has, k);
      assert xs[..|xs| - 1][1..] == xs[1..][..|xs| - 2];
    }
  }

  lemma CountSnoc<S, K>(xs: seq<S>, x: S, has: (S, K) -> bool, k: K)
    ensures Count(xs + [x], has, k) == Count(xs, has, k) + (if has(x, k) then 1 else 0)
  {
    assert (xs + [x])[..|xs|] == xs;
  }

  /** What is counted is there. */
  lemma {:induction false} Find<S, K>(xs: seq<S>, has: (S, K) -> bool, k: K) returns (i: nat)
    requires Count(xs, has, k) > 0
    ensures i < |xs| && has(xs[i], k)
    decreases |xs|
  {
    if has(xs[|xs| - 1], k) { i := |xs| - 1; } else { i := Find(xs[..|xs| - 1], has, k); }
  }

  predicate IsC(c: CState, k: CKind) { KindC(c) == k }
  predicate IsH(h: HState, k: HKind) { KindH(h) == k }
  predicate HasHeight(n: int, height: int) { n == height }
  predicate HasMsg(m: Msg, m': Msg) { m == m' }

  function NumC(cs: seq<CState>, k: CKind): nat { Count(cs, IsC, k) }
  function NumH(hs: seq<HState>, k: HKind): nat { Count(hs, IsH, k) }
  function Stops(q: seq<int>): nat { Count(q, HasHeight, STOP) }
  function Exits(q: seq<Msg>): nat { Count(q, HasMsg, Exit) }

  lemma {:induction false} NumCTotal(cs: seq<CState>)
    ensures NumC(cs, IdleC) + NumC(cs, HoldingC) + NumC(cs, StoppingC) + NumC(cs, CountedC) + NumC(cs, DoneC) == |cs|
    decreases |cs|
  {
    if cs != [] { NumCTotal(cs[..|cs| - 1]); }
  }

  lemma {:induction false} NumHTotal(hs: seq<HState>)
    ensures NumH(hs, IdleH) + NumH(hs, WorkingH) + NumH(hs, WaitingH) + NumH(hs, ReadyH) + NumH(hs, RepostingH)
          + NumH(hs, RaisedH) + NumH(hs, PostedH) + NumH(hs, DroppedH) == |hs|
    decreases |hs|
  {
    if hs != [] { NumHTotal(hs[..|hs| - 1]); }
  }

  /** How many tokens stand before each block of the channel. */
  ghost predicate TokensAhead(q: seq<Msg>, most: int)
  {
    forall p :: 0 <= p < |q| && q[p].Block? ==> Exits(q[..p]) <= most
  }

  lemma TokensAheadSnoc(q: seq<Msg>, m: Msg, most: int)
    requires TokensAhead(q, most) && (m.Block? ==> Exits(q) <= most)
    ensures TokensAhead(q + [m], most)
  {
    var r := q + [m];
    forall p | 0 <= p < |r| && r[p].Block?
      ensures Exits(r[..p]) <= most
    {
      if p < |q| {
        assert r[..p] == q[..p] && q[p] == r[p];
      } else {
        assert r[..p] == q;
      }
    }
  }

  lemma TokensAheadTail(q: seq<Msg>, most: int)
    requires TokensAhead(q, most) && q != []
    ensures TokensAhead(q[1..], if q[0].Exit? then most - 1 else most)
  {
    var r := q[1..];
    forall p | 0 <= p < |r| && r[p].Block?
      ensures Exits(r[..p]) <= if q[0].Exit? then most - 1 else most
    {
      assert q[p + 1] == r[p];
      CountCons(q[..p + 1], HasMsg, Exit);
      assert q[..p + 1][1..] == r[..p];
    }
  }

  // ---- The invariant ----

  function CollectorsCounted(s: State): nat { NumC(s.collectors, CountedC) + NumC(s.collectors, DoneC) }

  /** Handlers that took a token and have not finished. */
  function Holding(s: State): nat
  {
    NumH(s.handlers, WaitingH) + NumH(s.handlers, ReadyH) + NumH(s.handlers, RepostingH) + NumH(s.handlers, RaisedH)
  }

  function TookToken(s: State): nat { Holding(s) + NumH(s.handlers, PostedH) + NumH(s.handlers, DroppedH) }

  /** Handlers that have seen the counter at three or more. */
  function PastWait(s: State): nat { TookToken(s) - NumH(s.handlers, WaitingH) }

  ghost predicate Inv(s: State)
  {
    && |s.collectors| == THREADS && |s.handlers| >= THREADS
    && |s.heightChan| <= CAPACITY && |s.blockChan| <= CAPACITY
    // every stop marker not yet read is still on its way
    && Stops(s.feed) + Stops(s.heightChan) + NumC(s.collectors, StoppingC) + CollectorsCounted(s) == THREADS
    // the counter is raised once by every collector and by every handler that posts again
    && s.exitCount == CollectorsCounted(s) + NumH(s.handlers, RaisedH) + NumH(s.handlers, PostedH)
    // a token is to come, in the channel, in a hand or dropped
    && Exits(s.blockChan) + (THREADS - NumC(s.collectors, DoneC)) + Holding(s) + NumH(s.handlers, DroppedH) == THREADS
    // a token is dropped only when the counter has reached the number of handlers
    && (NumH(s.handlers, DroppedH) > 0 ==> s.exitCount >= |s.handlers|)
    // nobody gets past the wait before all collectors are counted
    && (PastWait(s) > 0 ==> CollectorsCounted(s) == THREADS)
    // at most two tokens were posted before any block still in the channel
    && TokensAhead(s.blockChan, 2 - TookToken(s))
  }

  lemma CMoves(cs: seq<CState>, i: nat, c: CState)
    requires i < |cs|
    ensures forall k ::
        NumC(cs[i := c], k) == NumC(cs, k) - (if KindC(cs[i]) == k then 1 else 0) + (if KindC(c) == k then 1 else 0)
  {
    forall k
      ensures NumC(cs[i := c], k)
           == NumC(cs, k) - (if KindC(cs[i]) == k then 1 else 0) + (if KindC(c) == k then 1 else 0)
    {
      CountUpdate(cs, i, c, IsC, k);
    }
  }

  lemma HMoves(hs: seq<HState>, i: nat, h: HState)
    requires i < |hs|
    ensures forall k ::
        NumH(hs[i := h], k) == NumH(hs, k) - (if KindH(hs[i]) == k then 1 else 0) + (if KindH(h) == k then 1 else 0)
  {
    forall k
      ensures NumH(hs[i := h], k)
           == NumH(hs, k) - (if KindH(hs[i]) == k then 1 else 0) + (if KindH(h) == k then 1 else 0)
    {
      CountUpdate(hs, i, h, IsH, k);
    }
  }

  lemma MainKeepsInv(s: State, t: State)
    requires Inv(s) && Step(s, Main) == Some(t)
    ensures Inv(t)
  {
    CountCons(s.feed, HasHeight, STOP);
    CountSnoc(s.heightChan, s.feed[0], HasHeight, STOP);
  }

  lemma ReadsHeight(s: State, c: nat, t: State)
    requires Inv(s) && c < |s.collectors| && s.collectors[c].CIdle? && Step(s, Collector(c)) == Some(t)
    ensures Inv(t)
  {
    hide TokensAhead, Count;
    CountCons(s.heightChan, HasHeight, STOP);
    CMoves(s.collectors, c, t.collectors[c]);
  }

  lemma SendsBlock(s: State, c: nat, t: State)
    requires Inv(s) && c < |s.collectors| && s.collectors[c].CHolding? && Step(s, Collector(c)) == Some(t)
    ensures Inv(t)
  {
    hide TokensAhead, Count;
    NumCTotal(s.collectors);
    CMoves(s.collectors, c, t.collectors[c]);
    CountSnoc(s.blockChan, t.blockChan[|s.blockChan|], HasMsg, Exit);
    TokensAheadSnoc(s.blockChan, t.blockChan[|s.blockChan|], 2 - TookToken(s));
  }

  lemma CountsItself(s: State, c: nat, t: State)
    requires Inv(s) && c < |s.collectors| && s.collectors[c].CStopping? && Step(s, Collector(c)) == Some(t)
    ensures Inv(t)
  {
    hide TokensAhead, Count;
    CMoves(s.collectors, c, t.collectors[c]);
  }

  lemma SendsToken(s: State, c: nat, t: State)
    requires Inv(s) && c < |s.collectors| && s.collectors[c].CCounted? && Step(s, Collector(c)) == Some(t)
    ensures Inv(t)
  {
    hide TokensAhead, Count;
    CMoves(s.collectors, c, t.collectors[c]);
    CountSnoc(s.blockChan, Exit, HasMsg, Exit);
    TokensAheadSnoc(s.blockChan, Exit, 2 - TookToken(s));
  }

  lemma TakesMessage(s: State, h: nat, t: State)
    requires Inv(s) && h < |s.handlers| && s.handlers[h].HIdle? && Step(s, Handler(h)) == Some(t)
    ensures Inv(t)
  {
    hide TokensAhead, Count;
    CountCons(s.blockChan, HasMsg, Exit);
    TokensAheadTail(s.blockChan, 2 - TookToken(s));
    HMoves(s.handlers, h, t.handlers[h]);
  }

  lemma HandlesOrWaits(s: State, h: nat, t: State)
    requires Inv(s) && h < |s.handlers| && (s.handlers[h].HWorking? || s.handlers[h].HWaiting?)
    requires Step(s, Handler(h)) == Some(t)
    ensures Inv(t)
  {
    hide TokensAhead, Count;
    HMoves(s.handlers, h, t.handlers[h]);
  }

  lemma ComparesOrRaises(s: State, h: nat, t: State)
    requires Inv(s) && h < |s.handlers| && (s.handlers[h].HReady? || s.handlers[h].HReposting?)
    requires Step(s, Handler(h)) == Some(t)
    ensures Inv(t)
  {
    hide TokensAhead, Count;
    HMoves(s.handlers, h, t.handlers[h]);
  }

  lemma PostsAgain(s: State, h: nat, t: State)
    requires Inv(s) && h < |s.handlers| && s.handlers[h].HRaised? && Step(s, Handler(h)) == Some(t)
    ensures Inv(t)
  {
    hide TokensAhead, Count;
    HMoves(s.handlers, h, t.handlers[h]);
    CountSnoc(s.blockChan, Exit, HasMsg, Exit);
    TokensAheadSnoc(s.blockChan, Exit, 2 - TookToken(s));
  }

  lemma StepKeepsInv(s: State, a: Actor, t: State)
    requires Inv(s) && Step(s, a) == Some(t)
    ensures Inv(t)
  {
    hide Inv;
    match a
    case Main => MainKeepsInv(s, t);
    case Collector(c) =>
      match s.collectors[c] {
       case CIdle => ReadsHeight(s, c, t);
       case CHolding(_) => SendsBlock(s, c, t);
       case CStopping => CountsItself(s, c, t);
       case CCounted => SendsToken(s, c, t);
       case CDone => }
    case Handler(h) =>
      match s.handlers[h] {
       case HIdle => TakesMessage(s, h, t);
       case HRaised => PostsAgain(s, h, t);
       case HReady => ComparesOrRaises(s, h, t);
       case HReposting => ComparesOrRaises(s, h, t);
       case _ => HandlesOrWaits(s, h, t);}
  }

  // ---- No block is lost or handled twice ----

  predicate HoldsC(c: CState, height: int) { c == CHolding(height) }
  predicate WorksH(h: HState, height: int) { h == HWorking(height) }

  /** How often a height is still to be handled, or is handled, wherever it is now. */
  function Copies(s: State, x: int): nat
  {
    Count(s.feed, HasHeight, x) + Count(s.heightChan, HasHeight, x) + Count(s.collectors, HoldsC, x)
    + Count(s.blockChan, HasMsg, Block(x)) + Count(s.handlers, WorksH, x) + Count(s.handled, HasHeight, x)
  }

  lemma CollectorConserves(s: State, c: nat, t: State, x: int)
    requires Step(s, Collector(c)) == Some(t) && x != STOP
    ensures Copies(t, x) == Copies(s, x)
  {
    hide Count;
    CountUpdate(s.collectors, c, t.collectors[c], HoldsC, x);
    assert t.collectors == s.collectors[c := t.collectors[c]];
    match s.collectors[c] {
      case CIdle => CountCons(s.heightChan, HasHeight, x);
      case CHolding(height) => CountSnoc(s.blockChan, Block(height), HasMsg, Block(x));
      case CCounted => CountSnoc(s.blockChan, Exit, HasMsg, Block(x));
      case _ =>
    }
  }

  lemma HandlerConserves(s: State, h: nat, t: State, x: int)
    requires Step(s, Handler(h)) == Some(t)
    ensures Copies(t, x) == Copies(s, x)
  {
    hide Count;
    CountUpdate(s.handlers, h, t.handlers[h], WorksH, x);
    assert t.handlers == s.handlers[h := t.handlers[h]];
    match s.handlers[h] {
      case HIdle => CountCons(s.blockChan, HasMsg, Block(x));
      case HWorking(height) => CountSnoc(s.handled, height, HasHeight, x);
      case HRaised => CountSnoc(s.blockChan, Exit, HasMsg, Block(x));
      case _ =>
    }
  }

  lemma StepConserves(s: State, a: Actor, t: State, x: int)
    requires Step(s, a) == Some(t) && x != STOP
    ensures Copies(t, x) == Copies(s, x)
  {
    match a
    case Main =>
      CountCons(s.feed, HasHeight, x);
      CountSnoc(s.heightChan, s.feed[0], HasHeight, x);
    case Collector(c) => CollectorConserves(s, c, t, x);
    case Handler(h) => HandlerConserves(s, h, t, x);
  }

  // ---- Every run ends, with every block handled once ----

  /** The stop markers come after every height. */
  predicate StopsLast(s: State)
  {
    var rest := s.heightChan + s.feed;
    rest == [] || rest[|rest| - 1] == STOP
  }

  lemma StepKeepsStopsLast(s: State, a: Actor, t: State)
    requires StopsLast(s) && Step(s, a) == Some(t)
    ensures StopsLast(t)
  {
    if a.Main? {
      assert t.heightChan + t.feed == s.heightChan + s.feed;
    } else if a.Collector? && s.collectors[a.c].CIdle? {
      assert t.heightChan + t.feed == (s.heightChan + s.feed)[1..];
    }
  }

  lemma CountPositive<S, K>(xs: seq<S>, i: nat, has: (S, K) -> bool, k: K)
    requires i < |xs| && has(xs[i], k)
    ensures Count(xs, has, k) > 0
  {
    if i < |xs| - 1 { CountPositive(xs[..|xs| - 1], i, has, k); }
  }

  /** Finished: nothing left but exit tokens, which main throws away; everybody has returned. */
  ghost predicate Final(s: State)
  {
    && s.feed == [] && s.heightChan == []
    && (forall c :: 0 <= c < |s.collectors| ==> s.collectors[c] == CDone)
    && (forall h :: 0 <= h < |s.handlers| ==> s.handlers[h] == HPosted || s.handlers[h] == HDropped)
    && (forall p :: 0 <= p < |s.blockChan| ==> s.blockChan[p] == Exit)
    && |s.blockChan| <= THREADS
  }

  ghost predicate Blocked(s: State) { forall a :: Step(s, a) == None }

  /** Steps that may still be taken. */
  function Fuel(s: State): int
  {
    7 * |s.feed| + 6 * |s.heightChan|
    + 5 * NumC(s.collectors, HoldingC) + 3 * NumC(s.collectors, StoppingC) + 2 * NumC(s.collectors, CountedC)
    + 3 * |s.blockChan| - 2 * Exits(s.blockChan)
    + 5 * NumH(s.handlers, IdleH) + 7 * NumH(s.handlers, WorkingH) + 5 * NumH(s.handlers, WaitingH)
    + 4 * NumH(s.handlers, ReadyH) + 3 * NumH(s.handlers, RepostingH) + 2 * NumH(s.handlers, RaisedH)
  }

  lemma CollectorBurns(s: State, c: nat, t: State)
    requires Step(s, Collector(c)) == Some(t)
    ensures Fuel(t) < Fuel(s)
  {
    hide Count;
    CMoves(s.collectors, c, t.collectors[c]);
    assert t.collectors == s.collectors[c := t.collectors[c]];
    match s.collectors[c] {
      case CHolding(height) => CountSnoc(s.blockChan, Block(height), HasMsg, Exit);
      case CCounted => CountSnoc(s.blockChan, Exit, HasMsg, Exit);
      case _ =>
    }
  }

  lemma HandlerBurns(s: State, h: nat, t: State)
    requires Step(s, Handler(h)) == Some(t)
    ensures Fuel(t) < Fuel(s)
  {
    hide Count, NumC, NumH;
    HMoves(s.handlers, h, t.handlers[h]);
    assert t.handlers == s.handlers[h := t.handlers[h]];
    match s.handlers[h] {
      case HIdle => CountCons(s.blockChan, HasMsg, Exit);
      case HRaised => CountSnoc(s.blockChan, Exit, HasMsg, Exit);
      case _ =>
    }
  }

  lemma StepBurns(s: State, a: Actor, t: State)
    requires Step(s, a) == Some(t)
    ensures Fuel(t) < Fuel(s)
  {
    match a
    case Main =>
    case Collector(c) => CollectorBurns(s, c, t);
    case Handler(h) => HandlerBurns(s, h, t);
  }

  lemma {:induction false} CountAtMost<S, K>(xs: seq<S>, has: (S, K) -> bool, k: K)
    ensures Count(xs, has, k) <= |xs|
    decreases |xs|
  {
    if xs != [] { CountAtMost(xs[..|xs| - 1], has, k); }
  }

  lemma FuelNonNegative(s: State)
    ensures Fuel(s) >= 0
  {
    CountAtMost(s.blockChan, HasMsg, Exit);
  }

  lemma {:induction false} IdleCounts(n: nat, k: HKind)
    ensures NumH(IdleHandlers(n), k) == if k == IdleH then n else 0
  {
    if n > 0 {
      IdleCounts(n - 1, k);
      CountSnoc(IdleHandlers(n - 1), HIdle, IsH, k);
    }
  }

  lemma {:induction false} NoneOf<S, K>(xs: seq<S>, has: (S, K) -> bool, k: K)
    requires forall i :: 0 <= i < |xs| ==> !has(xs[i], k)
    ensures Count(xs, has, k) == 0
    decreases |xs|
  {
    if xs != [] { NoneOf(xs[..|xs| - 1], has, k); }
  }

  lemma FeedCount(heights: seq<int>, x: int)
    ensures Count(heights + [STOP, STOP, STOP], HasHeight, x)
        == Count(heights, HasHeight, x) + (if x == STOP then 3 else 0)
  {
    hide Count;
    CountSnoc(heights, STOP, HasHeight, x);
    CountSnoc(heights + [STOP], STOP, HasHeight, x);
    CountSnoc(heights + [STOP] + [STOP], STOP, HasHeight, x);
    assert heights + [STOP, STOP, STOP] == heights + [STOP] + [STOP] + [STOP];
  }

  lemma IdleCollectors(k: CKind)
    ensures NumC([CIdle, CIdle, CIdle], k) == if k == IdleC then 3 else 0
  {
    CountSnoc([], CIdle, IsC, k);
    CountSnoc([CIdle], CIdle, IsC, k);
    CountSnoc([CIdle, CIdle], CIdle, IsC, k);
    assert [CIdle, CIdle, CIdle] == [CIdle, CIdle] + [CIdle] && [CIdle, CIdle] == [CIdle] + [CIdle]
        && [CIdle] == [] + [CIdle];
  }

  lemma StartHoldsInv(heights: seq<int>, handlers: nat)
    requires STOP !in heights && handlers >= THREADS
    ensures Inv(Init(heights, handlers)) && StopsLast(Init(heights, handlers))
    ensures Fuel(Init(heights, handlers)) == 7 * (|heights| + 3) + 5 * handlers
  {
    NoneOf(heights, HasHeight, STOP);
    FeedCount(heights, STOP);
    forall k ensures NumC([CIdle, CIdle, CIdle], k) == if k == IdleC then 3 else 0 { IdleCollectors(k); }
    forall k ensures NumH(IdleHandlers(handlers), k) == if k == IdleH then handlers else 0 { IdleCounts(handlers, k); }
    hide NumC, NumH;
  }

  /** What a blocked goroutine waits for. */
  lemma BlockedHandler(s: State, h: nat)
    requires Blocked(s) && h < |s.handlers|
    ensures !s.handlers[h].HWorking? && !s.handlers[h].HReady? && !s.handlers[h].HReposting?
    ensures s.handlers[h].HIdle? ==> s.blockChan == []
    ensures s.handlers[h].HWaiting? ==> s.exitCount < THREADS
    ensures s.handlers[h].HRaised? ==> |s.blockChan| >= CAPACITY
  {
    assert Step(s, Handler(h)) == None;
  }

  lemma BlockedCollector(s: State, c: nat)
    requires Blocked(s) && c < |s.collectors|
    ensures !s.collectors[c].CStopping?
    ensures s.collectors[c].CIdle? ==> s.heightChan == []
    ensures s.collectors[c].CHolding? || s.collectors[c].CCounted? ==> |s.blockChan| >= CAPACITY
  {
    assert Step(s, Collector(c)) == None;
  }

  lemma BlockedHandlers(s: State, k: HKind)
    requires Blocked(s)
    requires k == WorkingH || k == ReadyH || k == RepostingH
    ensures NumH(s.handlers, k) == 0
  {
    if NumH(s.handlers, k) > 0 {
      var h := Find(s.handlers, IsH, k);
      BlockedHandler(s, h);
      assert false;
    }
  }

  lemma BlockedHasNoBlock(s: State, p: nat)
    requires Inv(s) && Blocked(s) && p < |s.blockChan|
    ensures s.blockChan[p] == Exit
  {
    if s.blockChan[p].Block? {
      NumHTotal(s.handlers);
      BlockedHandlers(s, WorkingH);
      assert Exits(s.blockChan[..p]) <= 2 - TookToken(s);
      var h := Find(s.handlers, IsH, IdleH);
      BlockedHandler(s, h);
      assert false;
    }
  }

  lemma {:induction false} AllExits(q: seq<Msg>)
    requires forall p :: 0 <= p < |q| ==> q[p] == Exit
    ensures Exits(q) == |q|
    decreases |q|
  {
    if q != [] { AllExits(q[..|q| - 1]); }
  }

  lemma BlockedChannel(s: State)
    requires Inv(s) && Blocked(s)
    ensures Exits(s.blockChan) == |s.blockChan| <= THREADS
    ensures forall p :: 0 <= p < |s.blockChan| ==> s.blockChan[p] == Exit
    ensures NumH(s.handlers, RaisedH) == 0
  {
    forall p | 0 <= p < |s.blockChan| ensures s.blockChan[p] == Exit { BlockedHasNoBlock(s, p); }
    AllExits(s.blockChan);
    CountAtMost(s.collectors, IsC, DoneC);
    if NumH(s.handlers, RaisedH) > 0 {
      var h := Find(s.handlers, IsH, RaisedH);
      BlockedHandler(s, h);
      assert false;
    }
  }

  lemma StopsPositive(s: State)
    requires StopsLast(s) && s.heightChan + s.feed != []
    ensures Stops(s.feed) + Stops(s.heightChan) > 0
  {
    var rest := s.heightChan + s.feed;
    if s.feed != [] {
      assert rest[|rest| - 1] == s.feed[|s.feed| - 1];
    }
  }

  lemma BlockedCollectors(s: State)
    requires Inv(s) && Blocked(s) && StopsLast(s)
    ensures NumC(s.collectors, DoneC) == THREADS && s.feed == [] && s.heightChan == []
  {
    BlockedChannel(s);
    NumCTotal(s.collectors);
    assert s.heightChan == [] ==> s.feed == [] by { assert Step(s, Main) == None; }
    if NumC(s.collectors, HoldingC) > 0 {
      var c := Find(s.collectors, IsC, HoldingC);
      BlockedCollector(s, c);
      assert false;
    }
    if NumC(s.collectors, StoppingC) > 0 {
      var c := Find(s.collectors, IsC, StoppingC);
      BlockedCollector(s, c);
      assert false;
    }
    if NumC(s.collectors, CountedC) > 0 {
      var c := Find(s.collectors, IsC, CountedC);
      BlockedCollector(s, c);
      assert false;
    }
    if NumC(s.collectors, IdleC) > 0 {
      var c := Find(s.collectors, IsC, IdleC);
      BlockedCollector(s, c);
      assert false;
    }
    if s.heightChan + s.feed != [] { StopsPositive(s); }
  }

  lemma BlockedTally(s: State)
    requires Inv(s) && Blocked(s) && StopsLast(s)
    ensures NumH(s.handlers, PostedH) + NumH(s.handlers, DroppedH) == |s.handlers|
  {
    BlockedChannel(s);
    BlockedCollectors(s);
    NumHTotal(s.handlers);
    BlockedHandlers(s, WorkingH);
    BlockedHandlers(s, ReadyH);
    BlockedHandlers(s, RepostingH);
    if NumH(s.handlers, WaitingH) > 0 {
      var h := Find(s.handlers, IsH, WaitingH);
      BlockedHandler(s, h);
      assert false;
    }
    if NumH(s.handlers, IdleH) > 0 {
      var h := Find(s.handlers, IsH, IdleH);
      BlockedHandler(s, h);
      assert false;
    }
  }

  lemma BlockedIsFinal(s: State)
    requires Inv(s) && Blocked(s) && StopsLast(s)
    ensures Final(s)
  {
    BlockedChannel(s);
    BlockedCollectors(s);
    BlockedTally(s);
    NumCTotal(s.collectors);
    NumHTotal(s.handlers);
    forall c | 0 <= c < |s.collectors| ensures s.collectors[c] == CDone {
      CountPositive(s.collectors, c, IsC, KindC(s.collectors[c]));
    }
    forall h | 0 <= h < |s.handlers| ensures s.handlers[h] == HPosted || s.handlers[h] == HDropped {
      CountPositive(s.handlers, h, IsH, KindH(s.handlers[h]));
    }
  }

  lemma {:induction false} RunKeeps(heights: seq<int>, handlers: nat, actors: seq<Actor>, t: State)
    requires STOP !in heights && handlers >= THREADS && Run(Init(heights, handlers), actors) == Some(t)
    ensures Inv(t) && StopsLast(t)
    ensures |actors| + Fuel(t) <= 7 * (|heights| + 3) + 5 * handlers
    decreases |actors|
  {
    hide Inv, Fuel, StopsLast, Step, Init;
    if actors == [] {
      StartHoldsInv(heights, handlers);
    } else {
      var n := |actors| - 1;
      var m := Run(Init(heights, handlers), actors[..n]).value;
      RunKeeps(heights, handlers, actors[..n], m);
      StepKeepsInv(m, actors[n], t);
      StepKeepsStopsLast(m, actors[n], t);
      StepBurns(m, actors[n], t);
    }
  }

  lemma {:induction false} RunConserves(s: State, actors: seq<Actor>, t: State, x: int)
    requires Run(s, actors) == Some(t) && x != STOP
    ensures Copies(t, x) == Copies(s, x)
    decreases |actors|
  {
    hide Copies, Step;
    if actors != [] {
      var n := |actors| - 1;
      var m := Run(s, actors[..n]).value;
      RunConserves(s, actors[..n], m, x);
      StepConserves(m, actors[n], t, x);
    }
  }

  /** Every height is handled as often as it stands in the list. */
  ghost predicate HandledAll(s: State, heights: seq<int>)
  {
    forall x :: x != STOP ==> Count(s.handled, HasHeight, x) == Count(heights, HasHeight, x)
  }

  lemma {:induction false} NobodyWorks(handlers: nat, x: int)
    ensures Count(IdleHandlers(handlers), WorksH, x) == 0
  {
    if handlers > 0 {
      NobodyWorks(handlers - 1, x);
      CountSnoc(IdleHandlers(handlers - 1), HIdle, WorksH, x);
    }
  }

  lemma StartCopies(heights: seq<int>, handlers: nat, x: int)
    requires x != STOP
    ensures Copies(Init(heights, handlers), x) == Count(heights, HasHeight, x)
  {
    FeedCount(heights, x);
    NoneOf([CIdle, CIdle, CIdle], HoldsC, x);
    NobodyWorks(handlers, x);
  }

  lemma FinalCopies(s: State, x: int)
    requires Final(s)
    ensures Copies(s, x) == Count(s.handled, HasHeight, x)
  {
    NoneOf(s.collectors, HoldsC, x);
    NoneOf(s.handlers, WorksH, x);
    NoneOf(s.blockChan, HasMsg, Block(x));
  }

  /** No interleaving handles a block more often than it was fed. */
  lemma NeverTwice(heights: seq<int>, handlers: nat, actors: seq<Actor>, t: State, x: int)
    requires x != STOP && Run(Init(heights, handlers), actors) == Some(t)
    ensures Count(t.handled, HasHeight, x) <= Count(heights, HasHeight, x)
  {
    StartCopies(heights, handlers, x);
    RunConserves(Init(heights, handlers), actors, t, x);
  }

  /** With three handlers or more every interleaving is finite, nobody waits for ever, and when no step
      is left every block was handled exactly once and only exit tokens remain. */
  lemma EveryRunFinishes(heights: seq<int>, handlers: nat, actors: seq<Actor>, t: State)
    requires -1 !in heights && handlers >= 3 && Run(Init(heights, handlers), actors) == Some(t)
    ensures |actors| <= 7 * (|heights| + 3) + 5 * handlers
    ensures Blocked(t) <==> Final(t)
    ensures Final(t) ==> HandledAll(t, heights)
  {
    hide Inv, Fuel, StopsLast, Init, Run, Copies;
    RunKeeps(heights, handlers, actors, t);
    FuelNonNegative(t);
    if Blocked(t) { BlockedIsFinal(t); }
    if Final(t) {
      forall x | x != STOP
        ensures Count(t.handled, HasHeight, x) == Count(heights, HasHeight, x)
      {
        StartCopies(heights, handlers, x);
        RunConserves(Init(heights, handlers), actors, t, x);
        FinalCopies(t, x);
      }
    }
  }

  /** Nobody who wants to send waits unless the channel holds 40 messages, and none ever holds more. */
  lemma SendsWaitAtForty(heights: seq<int>, handlers: nat, actors: seq<Actor>, t: State)
    requires -1 !in heights && handlers >= 3 && Run(Init(heights, handlers), actors) == Some(t)
    ensures |t.heightChan| <= 40 && |t.blockChan| <= 40
    ensures t.feed != [] ==> (Step(t, Main).None? <==> |t.heightChan| == 40)
    ensures forall c :: 0 <= c < |t.collectors| && (t.collectors[c].CHolding? || t.collectors[c].CCounted?) ==>
        (Step(t, Collector(c)).None? <==> |t.blockChan| == 40)
    ensures forall h :: 0 <= h < |t.handlers| && t.handlers[h].HRaised? ==>
        (Step(t, Handler(h)).None? <==> |t.blockChan| == 40)
  {
    hide Init, Run, Fuel, StopsLast;
    RunKeeps(heights, handlers, actors, t);
  }

  /** Nobody posts a token again, or is about to. */
  ghost predicate NobodyReposts(s: State)
  {
    NumH(s.handlers, RepostingH) + NumH(s.handlers, RaisedH) + NumH(s.handlers, PostedH) == 0
  }

  lemma StepRepostsNothing(s: State, a: Actor, t: State)
    requires Inv(s) && |s.handlers| == 3 && NobodyReposts(s) && Step(s, a) == Some(t)
    ensures NobodyReposts(t) && |t.handlers| == 3
  {
    hide Count;
    if a.Handler? {
      var h := a.h;
      HMoves(s.handlers, h, t.handlers[h]);
      NumHTotal(s.handlers);
      assert t.handlers == s.handlers[h := t.handlers[h]];
      if s.handlers[h].HReady? {
        CountPositive(s.handlers, h, IsH, ReadyH);
        assert s.exitCount >= 3;
      }
    }
  }

  lemma {:induction false} RunRepostsNothing(heights: seq<int>, actors: seq<Actor>, t: State)
    requires STOP !in heights && Run(Init(heights, 3), actors) == Some(t)
    ensures NobodyReposts(t) && |t.handlers| == 3
    decreases |actors|
  {
    hide Inv, Fuel, StopsLast, Step;
    if actors == [] {
      IdleCounts(3, RepostingH);
      IdleCounts(3, RaisedH);
      IdleCounts(3, PostedH);
    } else {
      var n := |actors| - 1;
      var m := Run(Init(heights, 3), actors[..n]).value;
      RunRepostsNothing(heights, actors[..n], m);
      RunKeeps(heights, 3, actors[..n], m);
      StepRepostsNothing(m, actors[n], t);
    }
  }

  /** The tokens are enough to wake everybody, and no more are made than that takes: with three handlers none is
      posted again, with more at least as many as there are handlers beyond three. */
  lemma TokensSuffice(heights: seq<int>, handlers: nat, actors: seq<Actor>, t: State)
    requires -1 !in heights && handlers >= 3 && Run(Init(heights, handlers), actors) == Some(t)
    ensures handlers == 3 ==> NobodyReposts(t)
    ensures Final(t) ==> NumH(t.handlers, PostedH) >= handlers - 3
  {
    if handlers == 3 { RunRepostsNothing(heights, actors, t); }
    RunKeeps(heights, handlers, actors, t);
    RunKeepsHandlers(Init(heights, handlers), actors, t);
    if Final(t) {
      EveryRunFinishes(heights, handlers, actors, t);
      hide Run, Fuel, StopsLast, Count, Blocked, Final;
      BlockedTally(t);
      BlockedCollectors(t);
      NumHTotal(t.handlers);
      NumCTotal(t.collectors);
    }
  }

  lemma {:induction false} RunKeepsHandlers(s: State, actors: seq<Actor>, t: State)
    requires Run(s, actors) == Some(t)
    ensures |t.handlers| == |s.handlers|
    decreases |actors|
  {
    if actors != [] {
      RunKeepsHandlers(s, actors[..|actors| - 1], Run(s, actors[..|actors| - 1]).value);
    }
  }

  // ---- Fewer than three handlers lose a block ----

  ghost predicate NeverLoses(handlers: nat)
  {
    forall heights, actors ::
      var r := Run(Init(heights, handlers), actors);
      -1 !in heights && r.Some? && Blocked(r.value) ==> HandledAll(r.value, heights)
  }

  lemma RunSnoc(s: State, actors: seq<Actor>, a: Actor)
    ensures Run(s, actors + [a]) == if Run(s, actors).None? then None else Step(Run(s, actors).value, a)
  {
    assert (actors + [a])[..|actors|] == actors;
  }

  ghost predicate Reaches(s: State, t: State) { exists actors :: Run(s, actors) == Some(t) }

  lemma Go(s: State, t: State, a: Actor) returns (u: State)
    requires Reaches(s, t) && Step(t, a).Some?
    ensures Reaches(s, u) && Some(u) == Step(t, a)
  {
    hide Step;
    u := Step(t, a).value;
    var actors :| Run(s, actors) == Some(t);
    RunSnoc(s, actors, a);
  }

  /** Two collectors finish first, so that two tokens overtake the block the third one holds. */
  lemma TwoTokensPosted(handlers: nat)
    ensures Reaches(Init([7], handlers),
      State([], [STOP], [CHolding(7), CDone, CDone], [Exit, Exit], IdleHandlers(handlers), 2, []))
  {
    hide Run, Reaches, IdleHandlers;
    var s := Init([7], handlers);
    assert Reaches(s, s) by { ReachesSelf(s); }
    var t := Go(s, s, Main);
    t := Go(s, t, Main);
    t := Go(s, t, Main);
    t := Go(s, t, Main);
    assert t.feed == [] && t.heightChan == [7, STOP, STOP, STOP];
    t := Go(s, t, Collector(0));
    t := Go(s, t, Collector(1));
    t := Go(s, t, Collector(2));
    assert t.heightChan == [STOP] && t.collectors == [CHolding(7), CStopping, CStopping];
    t := Go(s, t, Collector(1));
    t := Go(s, t, Collector(2));
    t := Go(s, t, Collector(1));
    t := Go(s, t, Collector(2));
    assert t.heightChan == [STOP] && t.collectors == [CHolding(7), CDone, CDone] && t.blockChan == [Exit, Exit];
  }

  lemma ReachesSelf(s: State)
    ensures Reaches(s, s)
  {
    assert Run(s, []) == Some(s);
  }

  lemma BlockThirdInLine(handlers: nat)
    ensures Reaches(Init([7], handlers),
      State([], [], [CDone, CDone, CDone], [Exit, Exit, Block(7), Exit], IdleHandlers(handlers), 3, []))
  {
    hide Run, Reaches, IdleHandlers;
    TwoTokensPosted(handlers);
    var s := Init([7], handlers);
    var t := State([], [STOP], [CHolding(7), CDone, CDone], [Exit, Exit], IdleHandlers(handlers), 2, []);
    t := Go(s, t, Collector(0));
    t := Go(s, t, Collector(0));
    t := Go(s, t, Collector(0));
    t := Go(s, t, Collector(0));
    assert t.heightChan == [] && t.collectors == [CDone, CDone, CDone] && t.blockChan == [Exit, Exit, Block(7), Exit];
  }

  /** The block is behind as many tokens as there are handlers, and the counter is already there. */
  lemma FewHandlersLose(handlers: nat) returns (t: State)
    requires handlers < THREADS
    ensures Reaches(Init([7], handlers), t) && Blocked(t) && t.handled == []
  {
    var s := Init([7], handlers);
    BlockThirdInLine(handlers);
    t := State([], [], [CDone, CDone, CDone], [Exit, Exit, Block(7), Exit], IdleHandlers(handlers), 3, []);
    hide Run, Reaches;
    if handlers >= 1 {
      t := Go(s, t, Handler(0));
      t := Go(s, t, Handler(0));
      t := Go(s, t, Handler(0));
    }
    if handlers == 2 {
      t := Go(s, t, Handler(1));
      t := Go(s, t, Handler(1));
      t := Go(s, t, Handler(1));
    }
  }

  /** Three handlers are exactly enough: with fewer some interleaving loses a block. */
  lemma ThreeHandlersNeeded(handlers: nat)
    ensures NeverLoses(handlers) <==> handlers >= 3
  {
    if handlers >= THREADS {
      forall heights, actors |
        STOP !in heights && Run(Init(heights, handlers), actors).Some?
            && Blocked(Run(Init(heights, handlers), actors).value)
        ensures HandledAll(Run(Init(heights, handlers), actors).value, heights)
      {
        EveryRunFinishes(heights, handlers, actors, Run(Init(heights, handlers), actors).value);
      }
    } else {
      var t := FewHandlersLose(handlers);
      var actors :| Run(Init([7], handlers), actors) == Some(t);
      assert Count([7], HasHeight, 7) == 1;
      assert !HandledAll(t, [7]);
    }
  }
}
