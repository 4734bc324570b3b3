// The UTXO engine of the BTC-family collector (btc_collect/main.go): blocks are folded into two
// write-back tables, one keyed by output and one keyed by address, and flushed in batches.

module UtxoCollector {
  import opened Chain
  import opened WriteBack
  import opened Options
  import opened HeightFeed
  import Images
  import Keys

  /** 230 per cached output (180 and 50) and 136 per pending spend (68 and 68). */
  function Weight(s: Split): int { 230 * |s.cached| + 136 * |s.pending| }

  lemma WeightSpend(s: Split, op: OutPoint)
    ensures Weight(SpendOp(s, op)) == Weight(s) + (if op in s.cached then -230 else 136)
  {
    if op in s.cached {
      assert s.cached.Keys == (s.cached - {op}).Keys + {op};
    }
  }

  lemma WeightAdd(s: Split, op: OutPoint, u: Utxo)
    requires op !in s.cached
    ensures Weight(AddOp(s, op, u)) == Weight(s) + 230
  {
    assert AddOp(s, op, u).cached.Keys == s.cached.Keys + {op};
  }

  /** How far the ledger has moved from what is on disk: 230 for every output that is not there, 136 for every
      one that is there and no longer live. */
  ghost function Moved(disk: Live, ledger: Live): int
  {
    230 * |ledger.Keys - disk.Keys| + 136 * |disk.Keys - ledger.Keys|
  }

  lemma WeightIsMoved(s: Split)
    requires SplitInv(s)
    ensures Weight(s) == Moved(s.durable, LiveOf(s))
  {
    assert LiveOf(s).Keys == (s.durable.Keys - PendingSet(s)) + s.cached.Keys;
    hide LiveOf;
    Images.SetOfSize(s.pending);
    KeysMoved(s.durable.Keys, PendingSet(s), s.cached.Keys);
    assert |s.cached| == |s.cached.Keys|;
  }

  lemma KeysMoved(durable: set<OutPoint>, pending: set<OutPoint>, cached: set<OutPoint>)
    requires cached !! durable && pending <= durable
    ensures ((durable - pending) + cached) - durable == cached
    ensures durable - ((durable - pending) + cached) == pending
  {
  }

  function OpKey(chain: string, op: OutPoint): string { Keys.CalUtxoPrefix(chain, op.txid, op.vout) }

  /** The two tables in lockstep. */
  ghost predicate Lockstep(chain: string, s: Split, ut: Tables, at: Tables)
  {
    Rep(KeyFn(ByOutPoint, chain), s, ut) && Rep(KeyFn(ByAddress, chain), s, at)
  }

  lemma LockstepSplit(chain: string, s: Split, ut: Tables, at: Tables)
    requires Lockstep(chain, s, ut, at)
    ensures SplitInv(s)
  {
  }

  /** What get_utxo finds for an output that is not waiting for deletion. */
  lemma LockstepLookup(chain: string, s: Split, ut: Tables, at: Tables, op: OutPoint)
    requires Lockstep(chain, s, ut, at) && op !in PendingSet(s)
    ensures SplitInv(s)
    ensures Lookup(ut, OpKey(chain, op)) == LookupLive(LiveOf(s), op)
  {
    LookupAnswersLedger(chain, s, ut, op);
  }

  lemma SpendKeys(s: Split, op: OutPoint)
    ensures SpendOp(s, op).durable == s.durable && SpendOp(s, op).cached.Keys <= s.cached.Keys
  {
  }

  lemma LockstepSpend(chain: string, s: Split, ut: Tables, at: Tables, op: OutPoint, u: Utxo)
    requires Lockstep(chain, s, ut, at) && op in LiveOf(s) && LiveOf(s)[op] == u
    ensures KeyFn(ByOutPoint, chain)(op, u) in ut.cache <==> op in s.cached
    ensures KeyFn(ByAddress, chain)(op, u) in at.cache <==> op in s.cached
    ensures Lockstep(chain, SpendOp(s, op), SpendKey(ut, KeyFn(ByOutPoint, chain)(op, u)),
        SpendKey(at, KeyFn(ByAddress, chain)(op, u)))
  {
    KeyFnInjective(ByOutPoint, chain);
    KeyFnInjective(ByAddress, chain);
    SpendKeepsRep(KeyFn(ByOutPoint, chain), s, ut, op, u);
    SpendKeepsRep(KeyFn(ByAddress, chain), s, at, op, u);
  }

  lemma LockstepAdd(chain: string, s: Split, ut: Tables, at: Tables, op: OutPoint, u: Utxo)
    requires Lockstep(chain, s, ut, at) && op !in s.durable && op !in s.cached
    ensures Lockstep(chain, AddOp(s, op, u), AddKey(ut, KeyFn(ByOutPoint, chain)(op, u), u),
        AddKey(at, KeyFn(ByAddress, chain)(op, u), u))
  {
    KeyFnInjective(ByOutPoint, chain);
    KeyFnInjective(ByAddress, chain);
    AddKeepsRep(KeyFn(ByOutPoint, chain), s, ut, op, u);
    AddKeepsRep(KeyFn(ByAddress, chain), s, at, op, u);
  }

  lemma LockstepStart(chain: string, d: Disk, live: Live)
    requires Stores(chain, d, live)
    ensures Lockstep(chain, Split(live, map[], []), Tables(d.utxo, map[], []), Tables(d.addr, map[], []))
  {
    StartKeepsRep(KeyFn(ByOutPoint, chain), live, d.utxo);
    StartKeepsRep(KeyFn(ByAddress, chain), live, d.addr);
  }

  lemma LockstepFlush(chain: string, s: Split, ut: Tables, at: Tables, height: int)
    requires Lockstep(chain, s, ut, at)
    ensures Lockstep(chain, Split(LiveOf(s), map[], []), Tables(Flushed(ut), map[], []), Tables(Flushed(at), map[], []))
    ensures Stores(chain, Disk(Flushed(ut), Flushed(at), height), LiveOf(s))
  {
    KeyFnInjective(ByOutPoint, chain);
    KeyFnInjective(ByAddress, chain);
    FlushKeepsRep(KeyFn(ByOutPoint, chain), s, ut);
    FlushKeepsRep(KeyFn(ByAddress, chain), s, at);
  }

  function Upper(c: char): char { if 'a' <= c <= 'z' then (c as int - 32) as char else c }

  function IsChainBch(chain: string): bool
  {
    |chain| >= 3 && Upper(chain[0]) == 'B' && Upper(chain[1]) == 'C' && Upper(chain[2]) == 'H'
  }

  ghost const BCH_NAMES: set<string> := {"BCH", "BCh", "BcH", "Bch", "bCH", "bCh", "bcH", "bch"}

  /** The chains whose name begins with BCH, in whatever case. */
  lemma BchByName(chain: string)
    ensures IsChainBch(chain) <==> exists name :: name in BCH_NAMES && name <= chain
  {
    if IsChainBch(chain) {
      var name := chain[..3];
      assert name == [chain[0], chain[1], chain[2]] && name <= chain;
      assert chain[0] in {'B', 'b'} && chain[1] in {'C', 'c'} && chain[2] in {'H', 'h'};
    }
  }

  // ---- The disk ----

  datatype Disk = Disk(utxo: Table, addr: Table, height: int)

  datatype DiskWrite = UtxoWrite(w: Write) | AddrWrite(w: Write) | HeightWrite(h: int)

  function ApplyDisk(d: Disk, w: DiskWrite): Disk
  {
    match w
    case UtxoWrite(b) => d.(utxo := Apply(d.utxo, b))
    case AddrWrite(b) => d.(addr := Apply(d.addr, b))
    case HeightWrite(h) => d.(height := h)
  }

  /** The disk after the first writes of a journal: what a crash would leave. */
  function ReplayDisk(d: Disk, ws: seq<DiskWrite>): Disk
  {
    if ws == [] then d else ApplyDisk(ReplayDisk(d, ws[..|ws| - 1]), ws[|ws| - 1])
  }

  function UtxoJournal(ws: seq<Write>): (j: seq<DiskWrite>)
    ensures |j| == |ws| && forall i :: 0 <= i < |ws| ==> j[i] == UtxoWrite(ws[i])
  {
    seq(|ws|, i requires 0 <= i < |ws| => UtxoWrite(ws[i]))
  }

  function AddrJournal(ws: seq<Write>): (j: seq<DiskWrite>)
    ensures |j| == |ws| && forall i :: 0 <= i < |ws| ==> j[i] == AddrWrite(ws[i])
  {
    seq(|ws|, i requires 0 <= i < |ws| => AddrWrite(ws[i]))
  }

  /** The order of the writes of one flush: UTXO table, address table, height. */
  function FlushJournal(us: seq<Write>, vs: seq<Write>, height: int): seq<DiskWrite>
  {
    UtxoJournal(us) + AddrJournal(vs) + [HeightWrite(height)]
  }

  lemma {:induction false} ReplayUtxoPrefix(d: Disk, us: seq<Write>, n: nat)
    requires n <= |us|
    ensures ReplayDisk(d, UtxoJournal(us)[..n]) == d.(utxo := Replay(d.utxo, us[..n]))
    decreases n
  {
    if n > 0 {
      ReplayUtxoPrefix(d, us, n - 1);
      assert UtxoJournal(us)[..n][..n - 1] == UtxoJournal(us)[..n - 1];
      assert us[..n][..n - 1] == us[..n - 1];
    }
  }

  lemma {:induction false} ReplayAddrPrefix(d: Disk, us: seq<Write>, vs: seq<Write>, n: nat)
    requires n <= |vs|
    ensures ReplayDisk(d, UtxoJournal(us) + AddrJournal(vs)[..n])
         == Disk(Replay(d.utxo, us), Replay(d.addr, vs[..n]), d.height)
    decreases n
  {
    var j := UtxoJournal(us) + AddrJournal(vs)[..n];
    if n == 0 {
      assert j == UtxoJournal(us)[..|us|] && us[..|us|] == us;
      ReplayUtxoPrefix(d, us, |us|);
    } else {
      ReplayAddrPrefix(d, us, vs, n - 1);
      hide Apply, UtxoJournal, AddrJournal;
      assert j[..|j| - 1] == UtxoJournal(us) + AddrJournal(vs)[..n - 1];
      assert j[|j| - 1] == AddrWrite(vs[n - 1]);
      assert vs[..n][..n - 1] == vs[..n - 1] && vs[..n][n - 1] == vs[n - 1];
    }
  }

  lemma JournalPrefix(us: seq<Write>, vs: seq<Write>, height: int, n: nat)
    requires n <= |us| + |vs| + 1
    ensures n <= |us| ==> FlushJournal(us, vs, height)[..n] == UtxoJournal(us)[..n]
    ensures |us| <= n <= |us| + |vs| ==>
        FlushJournal(us, vs, height)[..n] == UtxoJournal(us) + AddrJournal(vs)[..n - |us|]
    ensures n == |us| + |vs| + 1 ==> FlushJournal(us, vs, height)[..n] == FlushJournal(us, vs, height)
  {
  }

  lemma ReplayFlush(d: Disk, us: seq<Write>, vs: seq<Write>, height: int)
    ensures ReplayDisk(d, FlushJournal(us, vs, height)) == Disk(Replay(d.utxo, us), Replay(d.addr, vs), height)
  {
    hide Replay;
    var j := FlushJournal(us, vs, height);
    assert j[..|j| - 1] == UtxoJournal(us) + AddrJournal(vs)[..|vs|] && vs[..|vs|] == vs;
    ReplayAddrPrefix(d, us, vs, |vs|);
  }

  /** In every prefix of the writes of a flush, if the stored height has changed then both tables
      on disk are already complete. */
  lemma HeightIsLastCommit(d: Disk, us: seq<Write>, vs: seq<Write>, height: int, n: nat)
    requires n <= |us| + |vs| + 1
    ensures ReplayDisk(d, FlushJournal(us, vs, height)[..n]).height != d.height ==>
      ReplayDisk(d, FlushJournal(us, vs, height)[..n]) == Disk(Replay(d.utxo, us), Replay(d.addr, vs), height)
  {
    hide Replay, ReplayDisk, FlushJournal;
    JournalPrefix(us, vs, height, n);
    if n <= |us| {
      ReplayUtxoPrefix(d, us, n);
    } else if n <= |us| + |vs| {
      ReplayAddrPrefix(d, us, vs, n - |us|);
    } else {
      ReplayFlush(d, us, vs, height);
    }
  }

  /** A disk that stores exactly a set of unspent outputs, in both indices. */
  ghost predicate Stores(chain: string, d: Disk, live: Live)
  {
    && Images.IsImage(KeyFn(ByOutPoint, chain), live, d.utxo)
    && Images.IsImage(KeyFn(ByAddress, chain), live, d.addr)
  }

  // ---- Inputs waiting for the second pass of a BCH block ----

  ghost predicate DeferredRep(chain: string, m: map<string, OutPoint>, d: set<OutPoint>)
  {
    && (forall k :: k in m ==> m[k] in d && k == OpKey(chain, m[k]))
    && (forall op :: op in d ==> OpKey(chain, op) in m && m[OpKey(chain, op)] == op)
  }

  lemma DeferOne(chain: string, m: map<string, OutPoint>, d: set<OutPoint>, op: OutPoint)
    requires DeferredRep(chain, m, d)
    ensures DeferredRep(chain, m[OpKey(chain, op) := op], d + {op})
  {
    forall o | o in d && OpKey(chain, o) == OpKey(chain, op)
      ensures o == op
    {
      Keys.UtxoKeyInjective(chain, o.txid, o.vout, op.txid, op.vout);
    }
  }

  // ---- The state inside a block ----

  function SpendWeight(t: Tables, key: string, hit: int): int { if key in t.cache then hit else 68 }

  /** Both tables hold the same split of the same outputs; the live ones are those of the pass so
      far; no output was ever created outside `created`, and only outputs in `spent` wait for
      their deletion or for the second pass; the weight says how much a flush would write. */
  ghost predicate Mid(chain: string, s: Split, ut: Tables, at: Tables, weight: int, p: Pass, created: set<OutPoint>,
      spent: set<OutPoint>)
  {
    && Lockstep(chain, s, ut, at)
    && weight == Weight(s)
    && LiveOf(s) == p.live
    && s.durable.Keys + s.cached.Keys <= created
    && p.deferred <= spent
    && PendingSet(s) <= spent - p.deferred
  }

  lemma NothingCached(live: Live, s: Split)
    requires s == Split(live, map[], [])
    ensures PendingSet(s) == {} && Weight(s) == 0 && LiveOf(s) == live
    ensures s.durable.Keys + s.cached.Keys == live.Keys
  {
    StartLive(live);
  }

  /** With nothing cached or pending. */
  lemma MidFresh(chain: string, s: Split, ut: Tables, at: Tables, p: Pass, created: set<OutPoint>, spent: set<OutPoint>)
    requires s == Split(p.live, map[], []) && Lockstep(chain, s, ut, at)
    requires p.live.Keys <= created && p.deferred <= spent
    ensures Mid(chain, s, ut, at, 0, p, created, spent)
  {
    hide Lockstep, LiveOf, PendingSet, Weight;
    NothingCached(p.live, s);
  }

  lemma MidStart(chain: string, d: Disk, h: History)
    requires Stores(chain, d, h.live) && h.live.Keys <= h.created
    ensures Mid(chain, Split(h.live, map[], []), Tables(d.utxo, map[], []), Tables(d.addr, map[], []), 0,
                Pass(h.live, {}, false), h.created, h.spent)
  {
    hide Lockstep, Mid;
    LockstepStart(chain, d, h.live);
    MidFresh(chain, Split(h.live, map[], []), Tables(d.utxo, map[], []), Tables(d.addr, map[], []),
      Pass(h.live, {}, false), h.created, h.spent);
  }

  /** get_utxo answers as the ledger does for every output it is asked about. */
  lemma MidLookup(chain: string, s: Split, ut: Tables, at: Tables, weight: int, p: Pass, created: set<OutPoint>,
      spent: set<OutPoint>, op: OutPoint)
    requires Mid(chain, s, ut, at, weight, p, created, spent)
    requires op !in spent || op in p.deferred
    ensures Lookup(ut, OpKey(chain, op)) == LookupLive(p.live, op)
    ensures p.deferred <= spent
  {
    hide Lockstep;
    LockstepLookup(chain, s, ut, at, op);
  }

  /** spent_utxo on both tables removes one output from the ledger. */
  lemma MidSpend(chain: string, s: Split, ut: Tables, at: Tables, weight: int, p: Pass, created: set<OutPoint>,
      spent: set<OutPoint>, op: OutPoint, u: Utxo)
    requires Mid(chain, s, ut, at, weight, p, created, spent)
    requires op in p.live && p.live[op] == u && op !in p.deferred
    ensures var k, ak := KeyFn(ByOutPoint, chain)(op, u), KeyFn(ByAddress, chain)(op, u);
      Mid(chain, SpendOp(s, op), SpendKey(ut, k), SpendKey(at, ak),
          weight + SpendWeight(ut, k, -180) + SpendWeight(at, ak, -50),
          p.(live := p.live - {op}), created, spent + {op})
  {
    hide Lockstep, LiveOf, SpendOp, SpendKey, PendingSet, Weight, KeyFn;
    LockstepSplit(chain, s, ut, at);
    LockstepSpend(chain, s, ut, at, op, u);
    WeightSpend(s, op);
    SpendLive(s, op);
    SpendKeys(s, op);
    PendingAfter(s, op);
  }

  lemma PendingAfter(s: Split, op: OutPoint)
    ensures PendingSet(SpendOp(s, op)) <= PendingSet(s) + {op}
  {
  }

  lemma MidDefer(chain: string, s: Split, ut: Tables, at: Tables, weight: int, p: Pass, created: set<OutPoint>,
      spent: set<OutPoint>, op: OutPoint)
    requires Mid(chain, s, ut, at, weight, p, created, spent) && op !in spent
    ensures Mid(chain, s, ut, at, weight, p.(deferred := p.deferred + {op}), created, spent + {op})
  {
    hide Lockstep, LiveOf;
    assert PendingSet(s) <= (spent + {op}) - (p.deferred + {op});
  }

  /** Larger sets of created and spent outputs only claim less. */
  lemma MidWiden(chain: string, s: Split, ut: Tables, at: Tables, weight: int, p: Pass, created: set<OutPoint>,
      spent: set<OutPoint>,
                 p': Pass, created': set<OutPoint>, spent': set<OutPoint>)
    requires Mid(chain, s, ut, at, weight, p, created, spent) && spent <= spent' && created <= created'
    requires p'.live == p.live && p'.deferred <= p.deferred
    ensures Mid(chain, s, ut, at, weight, p', created', spent')
  {
    hide Lockstep, LiveOf;
    assert PendingSet(s) <= spent' - p'.deferred;
  }

  /** add_utxo on both tables adds one output to the ledger. */
  lemma MidAdd(chain: string, s: Split, ut: Tables, at: Tables, weight: int, p: Pass, created: set<OutPoint>,
      spent: set<OutPoint>, op: OutPoint, u: Utxo)
    requires Mid(chain, s, ut, at, weight, p, created, spent) && op !in created
    ensures Mid(chain, AddOp(s, op, u), AddKey(ut, KeyFn(ByOutPoint, chain)(op, u), u),
        AddKey(at, KeyFn(ByAddress, chain)(op, u), u),
                weight + 230, p.(live := p.live[op := u]), created + {op}, spent)
  {
    hide Lockstep, LiveOf;
    LockstepSplit(chain, s, ut, at);
    LockstepAdd(chain, s, ut, at, op, u);
    WeightAdd(s, op, u);
    AddLive(s, op, u);
    assert PendingSet(AddOp(s, op, u)) == PendingSet(s);
  }

  /** A flush changes nothing but where the outputs are kept. */
  lemma MidFlush(chain: string, s: Split, ut: Tables, at: Tables, weight: int, p: Pass, created: set<OutPoint>,
      spent: set<OutPoint>, height: int)
    requires Mid(chain, s, ut, at, weight, p, created, spent)
    ensures Mid(chain, Split(p.live, map[], []), Tables(Flushed(ut), map[], []), Tables(Flushed(at), map[], []), 0,
        p, created, spent)
    ensures Stores(chain, Disk(Flushed(ut), Flushed(at), height), p.live)
  {
    hide Lockstep, LiveOf, Stores;
    LockstepSplit(chain, s, ut, at);
    LockstepFlush(chain, s, ut, at, height);
    LiveKeys(s);
    hide Mid;
    MidFresh(chain, Split(p.live, map[], []), Tables(Flushed(ut), map[], []), Tables(Flushed(at), map[], []), p,
        created, spent);
  }

  lemma CachedIsLive(s: Split, op: OutPoint)
    ensures op in s.cached ==> op in LiveOf(s) && LiveOf(s)[op] == s.cached[op]
  {
  }

  // ---- Entries left over on disk ----

  /** `extra` stands on disk beside the durable outputs: every one of them is cached as well, or was spent, or
      is about to be created again. */
  ghost predicate Leftover(s: Split, extra: Live, again: set<OutPoint>, deferred: set<OutPoint>, spent: set<OutPoint>)
  {
    && extra.Keys !! s.durable.Keys && extra.Keys !! deferred
    && forall op :: op in extra ==> op in s.cached || op in spent || op in again
  }

  /** The state inside a block over a disk with such entries; ut and at are the tables as they would be
      without them. */
  ghost predicate Whole(chain: string, s: Split, ut: Tables, at: Tables, weight: int, p: Pass, created: set<OutPoint>,
      spent: set<OutPoint>, disk: Disk, extra: Live, again: set<OutPoint>)
  {
    && Mid(chain, s, ut, at, weight, p, created, spent)
    && Leftover(s, extra, again, p.deferred, spent)
    && Stores(chain, disk, s.durable + extra)
  }

  lemma DiskLookup(chain: string, s: Split, ut: Tables, disk: Disk, extra: Live, op: OutPoint)
    requires Rep(KeyFn(ByOutPoint, chain), s, ut)
        && Images.IsImage(KeyFn(ByOutPoint, chain), s.durable + extra, disk.utxo)
    requires extra.Keys !! s.durable.Keys && (op in extra ==> op in s.cached)
    ensures Lookup(Tables(disk.utxo, ut.cache, ut.spent), OpKey(chain, op)) == Lookup(ut, OpKey(chain, op))
  {
    var kf := KeyFn(ByOutPoint, chain);
    KeyFnInjective(ByOutPoint, chain);
    var u := if op in s.cached then s.cached[op] else if op in s.durable then s.durable[op] else Utxo(0, "", "");
    assert kf(op, u) == OpKey(chain, op);
    Images.ImageMember(kf, s.cached, ut.cache, op, u);
    if op !in s.cached {
      Images.ImageMember(kf, s.durable, ut.db, op, u);
      Images.ImageMember(kf, s.durable + extra, disk.utxo, op, u);
    }
  }

  /** get_utxo on the real table: an entry left over is only seen when it is in neither set. */
  lemma WholeLookup(chain: string, s: Split, ut: Tables, at: Tables, weight: int, p: Pass, created: set<OutPoint>,
      spent: set<OutPoint>, disk: Disk, extra: Live, again: set<OutPoint>, op: OutPoint)
    requires Whole(chain, s, ut, at, weight, p, created, spent, disk, extra, again)
    requires (op !in spent && op !in again) || op in p.deferred
    ensures Lookup(Tables(disk.utxo, ut.cache, ut.spent), OpKey(chain, op)) == LookupLive(p.live, op)
    ensures p.deferred <= spent
    ensures op in extra ==> op in p.live
  {
    MidLookup(chain, s, ut, at, weight, p, created, spent, op);
    DiskLookup(chain, s, ut, disk, extra, op);
    CachedIsLive(s, op);
  }
  lemma WholeSpend(chain: string, s: Split, ut: Tables, at: Tables, weight: int, p: Pass, created: set<OutPoint>,
      spent: set<OutPoint>, disk: Disk, extra: Live, again: set<OutPoint>, op: OutPoint, u: Utxo)
    requires Whole(chain, s, ut, at, weight, p, created, spent, disk, extra, again)
    requires op in p.live && p.live[op] == u && op !in p.deferred
    ensures var k, ak := KeyFn(ByOutPoint, chain)(op, u), KeyFn(ByAddress, chain)(op, u);
      Whole(chain, SpendOp(s, op), SpendKey(ut, k), SpendKey(at, ak),
        weight + SpendWeight(ut, k, -180) + SpendWeight(at, ak, -50),
        p.(live := p.live - {op}), created, spent + {op}, disk, extra, again)
  {
    hide Stores, KeyFn, SpendKey, SpendWeight;
    MidSpend(chain, s, ut, at, weight, p, created, spent, op, u);
    hide Mid;
    LeftoverSpend(s, extra, again, p.deferred, spent, op);
  }

  lemma LeftoverSpend(s: Split, extra: Live, again: set<OutPoint>, deferred: set<OutPoint>, spent: set<OutPoint>,
      op: OutPoint)
    requires Leftover(s, extra, again, deferred, spent)
    ensures Leftover(SpendOp(s, op), extra, again, deferred, spent + {op}) && SpendOp(s, op).durable == s.durable
  {
  }

  lemma WholeDefer(chain: string, s: Split, ut: Tables, at: Tables, weight: int, p: Pass, created: set<OutPoint>,
      spent: set<OutPoint>, disk: Disk, extra: Live, again: set<OutPoint>, op: OutPoint)
    requires Whole(chain, s, ut, at, weight, p, created, spent, disk, extra, again)
    requires op !in spent && op !in extra
    ensures Whole(chain, s, ut, at, weight, p.(deferred := p.deferred + {op}), created, spent + {op}, disk, extra,
        again)
  {
    hide Stores, Mid;
    MidDefer(chain, s, ut, at, weight, p, created, spent, op);
    LeftoverDefer(s, extra, again, p.deferred, spent, op);
    hide Leftover;
  }

  lemma LeftoverDefer(s: Split, extra: Live, again: set<OutPoint>, deferred: set<OutPoint>, spent: set<OutPoint>,
      op: OutPoint)
    requires Leftover(s, extra, again, deferred, spent) && op !in extra
    ensures Leftover(s, extra, again, deferred + {op}, spent + {op})
  {
  }

  lemma LeftoverWiden(s: Split, extra: Live, again: set<OutPoint>, deferred: set<OutPoint>, spent: set<OutPoint>,
      deferred': set<OutPoint>, spent': set<OutPoint>)
    requires Leftover(s, extra, again, deferred, spent) && deferred' <= deferred && spent <= spent'
    ensures Leftover(s, extra, again, deferred', spent')
  {
  }

  lemma WholeWiden(chain: string, s: Split, ut: Tables, at: Tables, weight: int, p: Pass, created: set<OutPoint>,
      spent: set<OutPoint>, disk: Disk, extra: Live, again: set<OutPoint>,
      p': Pass, created': set<OutPoint>, spent': set<OutPoint>)
    requires Whole(chain, s, ut, at, weight, p, created, spent, disk, extra, again)
    requires spent <= spent' && created <= created' && p'.live == p.live && p'.deferred <= p.deferred
    ensures Whole(chain, s, ut, at, weight, p', created', spent', disk, extra, again)
  {
    hide Stores, Mid;
    MidWiden(chain, s, ut, at, weight, p, created, spent, p', created', spent');
    LeftoverWiden(s, extra, again, p.deferred, spent, p'.deferred, spent');
    hide Leftover;
  }

  lemma WholeAdd(chain: string, s: Split, ut: Tables, at: Tables, weight: int, p: Pass, created: set<OutPoint>,
      spent: set<OutPoint>, disk: Disk, extra: Live, again: set<OutPoint>, op: OutPoint, u: Utxo)
    requires Whole(chain, s, ut, at, weight, p, created, spent, disk, extra, again) && op !in created
    ensures Whole(chain, AddOp(s, op, u), AddKey(ut, KeyFn(ByOutPoint, chain)(op, u), u),
        AddKey(at, KeyFn(ByAddress, chain)(op, u), u), weight + 230, p.(live := p.live[op := u]), created + {op}, spent,
        disk, extra, again)
  {
    hide Stores, KeyFn, AddKey;
    MidAdd(chain, s, ut, at, weight, p, created, spent, op, u);
    hide Mid;
    LeftoverAdd(s, extra, again, p.deferred, spent, op, u);
  }

  lemma LeftoverAdd(s: Split, extra: Live, again: set<OutPoint>, deferred: set<OutPoint>, spent: set<OutPoint>,
      op: OutPoint, u: Utxo)
    requires Leftover(s, extra, again, deferred, spent)
    ensures Leftover(AddOp(s, op, u), extra, again, deferred, spent) && AddOp(s, op, u).durable == s.durable
  {
  }

  /** The entries left over agree with the ledger where they are live. */
  ghost predicate Agrees(extra: Live, live: Live) { forall op :: op in extra && op in live ==> extra[op] == live[op] }

  lemma AgreesLess(extra: Live, live: Live)
    requires Agrees(extra, live)
    ensures Agrees(extra - live.Keys, live)
  {
  }

  /** A flush writes over every entry left over that is still live; the others stay on disk. */
  lemma WholeFlush(chain: string, s: Split, ut: Tables, at: Tables, weight: int, p: Pass, created: set<OutPoint>,
      spent: set<OutPoint>, disk: Disk, extra: Live, again: set<OutPoint>, disk': Disk)
    requires Whole(chain, s, ut, at, weight, p, created, spent, disk, extra, again) && Agrees(extra, p.live)
    requires disk'.utxo == Flushed(Tables(disk.utxo, ut.cache, ut.spent))
    requires disk'.addr == Flushed(Tables(disk.addr, at.cache, at.spent))
    ensures Whole(chain, Split(p.live, map[], []), Tables(Flushed(ut), map[], []), Tables(Flushed(at), map[], []), 0,
        p, created, spent, disk', extra - p.live.Keys, again)
    ensures Stores(chain, disk', p.live + (extra - p.live.Keys))
  {
    hide Flushed;
    MidFlush(chain, s, ut, at, weight, p, created, spent, disk'.height);
    KeyFnInjective(ByOutPoint, chain);
    KeyFnInjective(ByAddress, chain);
    assert Leftover(s, extra, again, p.deferred, spent);
    FlushOver(KeyFn(ByOutPoint, chain), s, ut, disk.utxo, extra, p.live);
    FlushOver(KeyFn(ByAddress, chain), s, at, disk.addr, extra, p.live);
    LeftoverFlush(s, extra, again, p.deferred, spent, p.live);
    hide Mid, Leftover, Rep;
  }

  lemma LeftoverFlush(s: Split, extra: Live, again: set<OutPoint>, deferred: set<OutPoint>, spent: set<OutPoint>,
      live: Live)
    requires Leftover(s, extra, again, deferred, spent) && live == LiveOf(s)
    ensures Leftover(Split(live, map[], []), extra - live.Keys, again, deferred, spent)
  {
  }

  /** One table: the flush of the real table against the ledger. */
  lemma FlushOver(kf: (OutPoint, Utxo) -> string, s: Split, t: Tables, db: Table, extra: Live, live: Live)
    requires Images.Injective(kf) && Rep(kf, s, t) && Images.IsImage(kf, s.durable + extra, db)
    requires extra.Keys !! s.durable.Keys && live == LiveOf(s) && Agrees(extra, live)
    ensures Images.IsImage(kf, live + (extra - live.Keys), Flushed(Tables(db, t.cache, t.spent)))
  {
    WideAgrees(s, extra, live);
    PendingInAll(kf, s, t, extra);
    OverLive(s, extra, live);
    hide LiveOf, Agrees;
    Images.ImageOverlay(kf, s.durable + extra, db, s.cached, t.cache);
    Images.ImageDropAll(kf, s.durable + extra + s.cached, db + t.cache, s.pending, t.spent);
  }

  lemma WideAgrees(s: Split, extra: Live, live: Live)
    requires SplitInv(s) && extra.Keys !! s.durable.Keys && live == LiveOf(s) && Agrees(extra, live)
    ensures var wide := s.durable + extra; forall op :: op in wide && op in s.cached ==> wide[op] == s.cached[op]
  {
    forall op | op in extra && op in s.cached ensures extra[op] == s.cached[op] { CachedIsLive(s, op); }
  }

  lemma PendingInAll(kf: (OutPoint, Utxo) -> string, s: Split, t: Tables, extra: Live)
    requires Rep(kf, s, t) && extra.Keys !! s.durable.Keys
    ensures var all := s.durable + extra + s.cached;
      forall i :: 0 <= i < |s.pending| ==> s.pending[i] in all && t.spent[i] == kf(s.pending[i], all[s.pending[i]])
  {
    var all := s.durable + extra + s.cached;
    forall i | 0 <= i < |s.pending|
      ensures s.pending[i] in all && t.spent[i] == kf(s.pending[i], all[s.pending[i]])
    {
      assert s.pending[i] in PendingSet(s);
    }
  }

  lemma OverLive(s: Split, extra: Live, live: Live)
    requires SplitInv(s) && extra.Keys !! s.durable.Keys && live == LiveOf(s) && Agrees(extra, live)
    ensures (s.durable + extra + s.cached) - PendingSet(s) == live + (extra - live.Keys)
  {
  }

  /** A start over a disk with entries left over. */
  lemma WholeStart(chain: string, d: Disk, h: History, core: Disk, extra: Live, again: set<OutPoint>)
    requires Stores(chain, d, h.live + extra) && Stores(chain, core, h.live) && h.live.Keys <= h.created
    requires extra.Keys !! h.live.Keys && extra.Keys <= h.spent + again
    ensures Whole(chain, Split(h.live, map[], []), Tables(core.utxo, map[], []), Tables(core.addr, map[], []), 0,
        Pass(h.live, {}, false), h.created, h.spent, d, extra, again)
  {
    hide Stores;
    MidStart(chain, core, h);
    hide Mid;
  }

  lemma LiveKeys(s: Split)
    requires SplitInv(s)
    ensures LiveOf(s).Keys <= s.durable.Keys + s.cached.Keys
  {
  }

  // ---- One step along a transaction ----

  lemma NextVin(tx: Tx, i: nat)
    requires i < |tx.vins| && DistinctInputs(tx)
    ensures tx.vins[..i + 1][..i] == tx.vins[..i] && tx.vins[..i + 1][i] == tx.vins[i]
    ensures VinSet(tx.vins[..i + 1]) == VinSet(tx.vins[..i]) + VinSet([tx.vins[i]])
    ensures !Skipped(tx.vins[i]) ==> tx.vins[i].prev !in VinSet(tx.vins[..i]) && tx.vins[i].prev in VinOps(tx)
  {
    assert tx.vins[..i + 1] == tx.vins[..i] + [tx.vins[i]];
    if !Skipped(tx.vins[i]) {
      assert tx.vins[i] in tx.vins;
      assert forall v :: v in tx.vins[..i] && !Skipped(v) ==> v != tx.vins[i];
    }
  }

  lemma NoVinYet(bch: bool, p: Pass, tx: Tx, spent: set<OutPoint>)
    ensures PassVins(bch, p, tx.vins[..0]) == p && spent + VinSet(tx.vins[..0]) == spent
    ensures tx.vins[..|tx.vins|] == tx.vins && VinSet(tx.vins) == VinOps(tx)
  {
  }

  /** What the next input of a transaction needs and adds. */
  lemma OneMoreVin(bch: bool, p: Pass, tx: Tx, i: nat, spent: set<OutPoint>)
    requires i < |tx.vins| && DistinctInputs(tx) && VinOps(tx) !! spent
    ensures PassVins(bch, p, tx.vins[..i + 1]) == PassVin(bch, PassVins(bch, p, tx.vins[..i]), tx.vins[i])
    ensures spent + VinSet(tx.vins[..i]) + VinSet([tx.vins[i]]) == spent + VinSet(tx.vins[..i + 1])
    ensures spent + VinSet(tx.vins[..i + 1]) <= spent + VinOps(tx)
    ensures !Skipped(tx.vins[i]) ==> tx.vins[i].prev !in spent + VinSet(tx.vins[..i])
  {
    NextVin(tx, i);
  }

  function VoutSet(txid: Txid, vouts: seq<Vout>): set<OutPoint>
  {
    set o | o in vouts :: OutPoint(txid, o.n)
  }

  lemma NextVout(tx: Tx, i: nat)
    requires i < |tx.vouts| && DistinctIndices(tx)
    ensures tx.vouts[..i + 1][..i] == tx.vouts[..i] && tx.vouts[..i + 1][i] == tx.vouts[i]
    ensures VoutSet(tx.txid, tx.vouts[..i + 1]) == VoutSet(tx.txid, tx.vouts[..i]) + {OutPoint(tx.txid, tx.vouts[i].n)}
    ensures OutPoint(tx.txid, tx.vouts[i].n) !in VoutSet(tx.txid, tx.vouts[..i])
        && OutPoint(tx.txid, tx.vouts[i].n) in VoutOps(tx)
  {
    assert tx.vouts[..i + 1] == tx.vouts[..i] + [tx.vouts[i]];
    assert tx.vouts[i] in tx.vouts;
  }

  lemma NoVoutYet(q: Pass, tx: Tx, created: set<OutPoint>)
    ensures PassVouts(q, tx.txid, tx.vouts[..0]) == q && created + VoutSet(tx.txid, tx.vouts[..0]) == created
    ensures tx.vouts[..|tx.vouts|] == tx.vouts && VoutSet(tx.txid, tx.vouts) == VoutOps(tx)
  {
  }

  /** What the next output of a transaction needs and adds. */
  lemma OneMoreVout(q: Pass, tx: Tx, i: nat, created: set<OutPoint>)
    requires i < |tx.vouts| && DistinctIndices(tx) && VoutOps(tx) !! created && !q.aborted
    ensures !PassVouts(q, tx.txid, tx.vouts[..i]).aborted
    ensures PassVouts(q, tx.txid, tx.vouts[..i + 1])
        == PassVout(PassVouts(q, tx.txid, tx.vouts[..i]), tx.txid, tx.vouts[i])
    ensures var op := OutPoint(tx.txid, tx.vouts[i].n);
      && op !in created + VoutSet(tx.txid, tx.vouts[..i])
      && created + VoutSet(tx.txid, tx.vouts[..i]) + {op} == created + VoutSet(tx.txid, tx.vouts[..i + 1])
  {
    NextVout(tx, i);
    VoutsOverlay(q, tx.txid, tx.vouts[..i]);
  }

  lemma {:induction false} VinsStayAborted(bch: bool, p: Pass, vins: seq<Vin>, n: nat)
    requires n <= |vins| && PassVins(bch, p, vins[..n]).aborted
    ensures PassVins(bch, p, vins) == PassVins(bch, p, vins[..n])
    decreases |vins|
  {
    if n == |vins| {
      assert vins[..n] == vins;
    } else {
      var front := vins[..|vins| - 1];
      assert front[..n] == vins[..n];
      VinsStayAborted(bch, p, front, n);
    }
  }

  lemma {:induction false} VoutsStayAborted(p: Pass, txid: Txid, vouts: seq<Vout>)
    requires p.aborted
    ensures PassVouts(p, txid, vouts) == p
    decreases |vouts|
  {
    if vouts != [] { VoutsStayAborted(p, txid, vouts[..|vouts| - 1]); }
  }

  lemma {:induction false} TxsStayAborted(bch: bool, p: Pass, txs: seq<Tx>, n: nat)
    requires n <= |txs| && PassTxs(bch, p, txs[..n]).aborted
    ensures PassTxs(bch, p, txs) == PassTxs(bch, p, txs[..n])
    decreases |txs|
  {
    if n == |txs| {
      assert txs[..n] == txs;
    } else {
      var front, last := txs[..|txs| - 1], txs[|txs| - 1];
      assert front[..n] == txs[..n];
      TxsStayAborted(bch, p, front, n);
      var q := PassTxs(bch, p, front);
      assert last.vins[..0] == [];
      VinsStayAborted(bch, q, last.vins, 0);
      VoutsStayAborted(q, last.txid, last.vouts);
    }
  }

  lemma NextTx(h: History, txs: seq<Tx>, i: nat)
    requires i < |txs| && ValidBlock(h, txs)
    ensures txs[..i + 1][..i] == txs[..i] && txs[..i + 1][i] == txs[i]
    ensures CreatedOps(txs[..i + 1]) == CreatedOps(txs[..i]) + VoutOps(txs[i])
    ensures Consumed(txs[..i + 1]) == Consumed(txs[..i]) + VinOps(txs[i])
    ensures CreatedOps(txs[..i + 1]) <= CreatedOps(txs) && Consumed(txs[..i + 1]) <= Consumed(txs)
    ensures VinOps(txs[i]) !! h.spent + Consumed(txs[..i]) && VoutOps(txs[i]) !! h.created + CreatedOps(txs[..i])
    ensures DistinctInputs(txs[i]) && DistinctIndices(txs[i])
  {
    NextTxOps(txs, i);
    NextTxApart(txs, i);
    assert txs[i] in txs;
    hide VinOps, VoutOps, Consumed, CreatedOps;
  }

  lemma NextTxOps(txs: seq<Tx>, i: nat)
    requires i < |txs|
    ensures txs[..i + 1][..i] == txs[..i] && txs[..i + 1][i] == txs[i]
    ensures CreatedOps(txs[..i + 1]) == CreatedOps(txs[..i]) + VoutOps(txs[i])
    ensures Consumed(txs[..i + 1]) == Consumed(txs[..i]) + VinOps(txs[i])
    ensures CreatedOps(txs[..i + 1]) <= CreatedOps(txs) && Consumed(txs[..i + 1]) <= Consumed(txs)
    ensures VinOps(txs[i]) <= Consumed(txs) && VoutOps(txs[i]) <= CreatedOps(txs)
  {
    var upto := txs[..i + 1];
    assert upto[..i] == txs[..i];
    PrefixOps(upto);
    assert forall tx :: tx in upto ==> tx in txs;
  }

  lemma NextTxApart(txs: seq<Tx>, i: nat)
    requires i < |txs| && WellFormedTxs(txs)
    ensures VinOps(txs[i]) !! Consumed(txs[..i]) && VoutOps(txs[i]) !! CreatedOps(txs[..i])
  {
    forall tx | tx in txs[..i]
      ensures tx in txs && tx.txid != txs[i].txid && VinOps(tx) !! VinOps(txs[i])
    {
      var j :| 0 <= j < i && txs[j] == tx;
      UniqueAt(txs, j, i);
    }
  }

  lemma NoTxYet(bch: bool, p: Pass, h: History, txs: seq<Tx>)
    ensures PassTxs(bch, p, txs[..0]) == p && txs[..|txs|] == txs
    ensures h.created + CreatedOps(txs[..0]) == h.created && h.spent + Consumed(txs[..0]) == h.spent
  {
  }

  /** What the next transaction of a block needs and adds. */
  lemma OneMoreTx(bch: bool, p: Pass, h: History, txs: seq<Tx>, i: nat, again: set<OutPoint>)
    requires i < |txs| && ValidBlock(h, txs) && Consumed(txs) !! again
    ensures PassTxs(bch, p, txs[..i + 1]) == PassTx(bch, PassTxs(bch, p, txs[..i]), txs[i])
    ensures var created, spent := h.created + CreatedOps(txs[..i]), h.spent + Consumed(txs[..i]);
      && VinOps(txs[i]) !! spent + again && VoutOps(txs[i]) !! created
      && created + VoutOps(txs[i]) == h.created + CreatedOps(txs[..i + 1]) <= h.created + CreatedOps(txs)
      && spent + VinOps(txs[i]) == h.spent + Consumed(txs[..i + 1]) <= h.spent + Consumed(txs)
    ensures DistinctInputs(txs[i]) && DistinctIndices(txs[i])
  {
    hide PassTx, CreatedOps, Consumed, VinOps, VoutOps, DistinctInputs, DistinctIndices;
    NextTx(h, txs, i);
    NextTxOps(txs, i);
  }

  lemma NoDeferred(chain: string)
    ensures DeferredRep(chain, map[], {})
  {
  }

  function Waiting(m: map<string, OutPoint>, left: set<string>): set<OutPoint>
    requires left <= m.Keys
  {
    set k | k in left :: m[k]
  }

  lemma AllDeferred(chain: string, m: map<string, OutPoint>, d: set<OutPoint>)
    requires DeferredRep(chain, m, d)
    ensures Waiting(m, m.Keys) == d
  {
  }

  lemma WaitingOne(chain: string, m: map<string, OutPoint>, d: set<OutPoint>, left: set<string>, k: string)
    requires DeferredRep(chain, m, d) && left <= m.Keys && k in left
    ensures Waiting(m, left - {k}) == Waiting(m, left) - {m[k]} && m[k] in Waiting(m, left)
    ensures k == OpKey(chain, m[k])
  {
    assert forall j :: j in left && m[j] == m[k] ==> j == k;
  }

  /** A deferred output that is not in the ledger is in neither cache. */
  lemma MidAbsent(chain: string, s: Split, ut: Tables, at: Tables, weight: int, p: Pass, created: set<OutPoint>,
      spent: set<OutPoint>, op: OutPoint, u: Utxo)
    requires Mid(chain, s, ut, at, weight, p, created, spent)
    requires op in p.deferred && op !in p.live
    ensures var key := OpKey(chain, op); key !in ut.db && key !in ut.cache && key !in ut.spent
    ensures var key := Keys.CalAddrUtxoPrefix(chain, u.address, op.txid, op.vout);
      key !in at.db && key !in at.cache && key !in at.spent
  {
    KeyFnInjective(ByOutPoint, chain);
    KeyFnInjective(ByAddress, chain);
    hide Rep;
    assert op !in PendingSet(s);
    AbsentEverywhere(KeyFn(ByOutPoint, chain), s, ut, op, u);
    AbsentEverywhere(KeyFn(ByAddress, chain), s, at, op, u);
  }

  lemma AddThenSpend(t: Tables, key: string, u: Utxo)
    requires key !in t.cache
    ensures key in AddKey(t, key, u).cache && SpendKey(AddKey(t, key, u), key) == t
  {
    assert t.cache[key := u] - {key} == t.cache;
  }

  lemma FlushPrefixes(d: Disk, us: seq<Write>, vs: seq<Write>, height: int)
    ensures var j, d' := FlushJournal(us, vs, height), Disk(Replay(d.utxo, us), Replay(d.addr, vs), height);
      && ReplayDisk(d, j) == d'
      && forall n :: 0 <= n <= |j| && ReplayDisk(d, j[..n]).height != d.height ==> ReplayDisk(d, j[..n]) == d'
  {
    var j, d' := FlushJournal(us, vs, height), Disk(Replay(d.utxo, us), Replay(d.addr, vs), height);
    ReplayFlush(d, us, vs, height);
    forall n | 0 <= n <= |j| && ReplayDisk(d, j[..n]).height != d.height
      ensures ReplayDisk(d, j[..n]) == d'
    {
      HeightIsLastCommit(d, us, vs, height, n);
    }
  }

  lemma NoBlockYet(bch: bool, h: History, blocks: seq<Block>, l: int)
    ensures Fold(bch, h, blocks[..0]) == h && Completes(bch, h, blocks[..0]) && MaxHeight(l, blocks[..0]) == l
    ensures blocks[..|blocks|] == blocks
  {
  }

  /** What the next block needs and adds. */
  lemma NextBlock(bch: bool, h: History, blocks: seq<Block>, n: nat, l: int)
    requires n < |blocks| && ValidChain(bch, h, blocks)
    ensures var before, block := Fold(bch, h, blocks[..n]), blocks[n];
      && ValidBlock(before, block.txs)
      && Fold(bch, h, blocks[..n + 1]) == After(bch, before, block.txs)
      && (Completes(bch, h, blocks[..n + 1]) <==>
            Completes(bch, h, blocks[..n]) && !RunBlock(bch, before.live, block.txs).aborted)
      && (Completes(bch, h, blocks) ==> Completes(bch, h, blocks[..n + 1]))
      && MaxHeight(l, blocks[..n + 1])
          == var m := MaxHeight(l, blocks[..n]); if m < block.height then block.height else m
  {
    hide ValidBlock, After, RunBlock;
    assert blocks[..n + 1][..n] == blocks[..n];
    ChainPrefix(bch, h, blocks, n + 1);
  }

  /** What is about to be created again is created by this block, with the value on disk, and not spent by it. */
  ghost predicate CreatesAgain(again: set<OutPoint>, extra: Live, txs: seq<Tx>)
  {
    && again <= CreatedOps(txs) - Consumed(txs)
    && forall op :: op in again && op in extra ==> Creates(txs, op, extra[op])
  }

  lemma AgreesAfter(bch: bool, h: History, txs: seq<Tx>, extra: Live, again: set<OutPoint>)
    requires ValidBlock(h, txs) && CreatesAgain(again, extra, txs)
    requires Agrees(extra, h.live) && extra.Keys <= h.created + again
    ensures Agrees(extra, After(bch, h, txs).live) && Consumed(txs) !! again
    ensures extra.Keys <= After(bch, h, txs).created + {}
  {
    var p := PassTxs(bch, Pass(h.live, {}, false), txs);
    AnyValues(bch, h.live, txs);
    hide PassTxs;
    forall op | op in extra && op in p.live ensures extra[op] == p.live[op] {
      if Creates(txs, op, p.live[op]) {
        CreatesMember(txs, op, p.live[op]);
        CreatesOne(txs, op, p.live[op], extra[op]);
      }
    }
  }

  lemma WholeLive(chain: string, s: Split, ut: Tables, at: Tables, weight: int, p: Pass, created: set<OutPoint>,
      spent: set<OutPoint>, disk: Disk, extra: Live, again: set<OutPoint>)
    requires Whole(chain, s, ut, at, weight, p, created, spent, disk, extra, again)
    ensures LiveOf(s) == p.live && p.live.Keys <= created
  {
    hide Lockstep, Leftover, Stores, LiveOf;
    LockstepSplit(chain, s, ut, at);
    LiveKeys(s);
  }

  /** After the block what it created again is cached. */
  lemma CreatedAgain(chain: string, s: Split, ut: Tables, at: Tables, weight: int, p: Pass, created: set<OutPoint>,
      spent: set<OutPoint>, disk: Disk, extra: Live, again: set<OutPoint>)
    requires Whole(chain, s, ut, at, weight, p, created, spent, disk, extra, again) && again <= p.live.Keys
    ensures Whole(chain, s, ut, at, weight, p, created, spent, disk, extra, {})
  {
    WholeLive(chain, s, ut, at, weight, p, created, spent, disk, extra, again);
    hide Mid, Stores;
    LeftoverDone(s, extra, again, p.deferred, spent);
    hide Leftover;
  }

  lemma LeftoverDone(s: Split, extra: Live, again: set<OutPoint>, deferred: set<OutPoint>, spent: set<OutPoint>)
    requires Leftover(s, extra, again, deferred, spent) && again <= LiveOf(s).Keys
    ensures Leftover(s, extra, {}, deferred, spent)
  {
  }

  lemma AgainIsLive(bch: bool, h: History, txs: seq<Tx>, extra: Live, again: set<OutPoint>)
    requires ValidBlock(h, txs) && h.live.Keys <= h.created && !RunBlock(bch, h.live, txs).aborted
    requires CreatesAgain(again, extra, txs)
    ensures again <= After(bch, h, txs).live.Keys
  {
    BlockResult(bch, h, txs);
    hide RunBlock;
  }

  /** The weight kept along the way is how far the ledger has moved from what the table on disk holds. */
  lemma WholeWeight(chain: string, s: Split, ut: Tables, at: Tables, weight: int, p: Pass, created: set<OutPoint>,
      spent: set<OutPoint>, disk: Disk, extra: Live, again: set<OutPoint>, durable: Live)
    requires Whole(chain, s, ut, at, weight, p, created, spent, disk, extra, again)
    requires Images.IsImage(KeyFn(ByOutPoint, chain), durable, ut.db)
    ensures s.durable == durable && weight == Moved(durable, p.live)
  {
    hide Leftover, Stores, LiveOf, Weight, Moved;
    WholeOnDisk(chain, s, ut, at, weight, p, created, spent, disk, extra, again);
    KeyFnInjective(ByOutPoint, chain);
    Images.SourceUnique(KeyFn(ByOutPoint, chain), s.durable, durable, ut.db);
    LockstepSplit(chain, s, ut, at);
    WeightIsMoved(s);
  }

  lemma WholeOnDisk(chain: string, s: Split, ut: Tables, at: Tables, weight: int, p: Pass, created: set<OutPoint>,
      spent: set<OutPoint>, disk: Disk, extra: Live, again: set<OutPoint>)
    requires Whole(chain, s, ut, at, weight, p, created, spent, disk, extra, again)
    ensures Images.IsImage(KeyFn(ByOutPoint, chain), s.durable, ut.db)
  {
    hide Leftover, Stores, Images.IsImage, KeyFn;
  }

  /** Both tables of a ledger. */
  lemma CoreDisk(chain: string, live: Live) returns (d: Disk)
    ensures Stores(chain, d, live)
  {
    KeyFnInjective(ByOutPoint, chain);
    KeyFnInjective(ByAddress, chain);
    var ut := Images.ImageFor(KeyFn(ByOutPoint, chain), live);
    var at := Images.ImageFor(KeyFn(ByAddress, chain), live);
    d := Disk(ut, at, 0);
  }

  // ---- The collector ----

  class Collector {
    const chain: string

    var utxoCache: Table
    var addrUtxoCache: Table
    var utxoSpentCache: seq<string>
    var addrUtxoSpentCache: seq<string>
    var changeWeight: int
    var lastHeight: int

    var unspentUtxoDb: Table
    var addrUnspentUtxoDb: Table
    var storedHeight: int

    ghost var split: Split
    ghost var history: History

    // entries on disk beside the durable outputs, those about to be created again, and the disk without them
    ghost var extra: Live
    ghost var again: set<OutPoint>
    ghost var core: Disk

    /** The tables as they would be without the entries left over. */
    ghost function UtxoTables(): Tables
      reads this
    {
      Tables(core.utxo, utxoCache, utxoSpentCache)
    }

    ghost function AddrTables(): Tables
      reads this
    {
      Tables(core.addr, addrUtxoCache, addrUtxoSpentCache)
    }

    ghost function OnDisk(): Disk
      reads this
    {
      Disk(unspentUtxoDb, addrUnspentUtxoDb, storedHeight)
    }

    ghost predicate MidBlock(p: Pass, created: set<OutPoint>, spent: set<OutPoint>)
      reads this
    {
      Whole(chain, split, UtxoTables(), AddrTables(), changeWeight, p, created, spent, OnDisk(), extra, again)
    }

    /** Between blocks the collector is exactly the ledger of its history. */
    ghost predicate Valid()
      reads this
    {
      && MidBlock(Pass(history.live, {}, false), history.created, history.spent)
      && Agrees(extra, history.live) && extra.Keys <= history.created + again
    }

    /** Start (or restart) over a disk, which may hold entries left over. */
    constructor (chain: string, disk: Disk, ghost h: History, ghost extra: Live, ghost again: set<OutPoint>)
      requires Stores(chain, disk, h.live + extra) && h.live.Keys <= h.created
      requires extra.Keys !! h.live.Keys && extra.Keys <= h.spent + again && extra.Keys <= h.created + again
      ensures Valid() && this.chain == chain && history == h && lastHeight == disk.height
      ensures this.extra == extra && this.again == again && OnDisk() == disk
    {
      this.chain := chain;
      utxoCache, addrUtxoCache, utxoSpentCache, addrUtxoSpentCache := map[], map[], [], [];
      changeWeight, lastHeight := 0, disk.height;
      unspentUtxoDb, addrUnspentUtxoDb, storedHeight := disk.utxo, disk.addr, disk.height;
      split, history := Split(h.live, map[], []), h;
      this.extra, this.again := extra, again;
      ghost var tables := CoreDisk(chain, h.live);
      core := tables;
      new;
      hide Whole, Stores;
      WholeStart(chain, disk, h, tables, extra, again);
    }

    /** Larger sets of created and spent outputs only claim less. */
    lemma Widen(p: Pass, created: set<OutPoint>, spent: set<OutPoint>, p': Pass, created': set<OutPoint>,
        spent': set<OutPoint>)
      requires MidBlock(p, created, spent) && spent <= spent' && created <= created'
      requires p'.live == p.live && p'.deferred <= p.deferred
      ensures MidBlock(p', created', spent')
    {
      WholeWiden(chain, split, UtxoTables(), AddrTables(), changeWeight, p, created, spent, OnDisk(), extra, again,
        p', created', spent');
    }

    method GetUtxo(utxoPrefix: string) returns (r: Option<Utxo>)
      ensures r == Lookup(Tables(unspentUtxoDb, utxoCache, utxoSpentCache), utxoPrefix)
    {
      if utxoPrefix in utxoCache {
        return Some(utxoCache[utxoPrefix]);
      }
      if utxoPrefix in unspentUtxoDb {
        return Some(unspentUtxoDb[utxoPrefix]);
      }
      return None;
    }

    method SpentUtxo(utxoPrefix: string, addrUtxoPrefix: string)
      modifies `utxoCache, `addrUtxoCache, `utxoSpentCache, `addrUtxoSpentCache, `changeWeight
      ensures UtxoTables() == SpendKey(old(UtxoTables()), utxoPrefix)
      ensures AddrTables() == SpendKey(old(AddrTables()), addrUtxoPrefix)
      ensures changeWeight
        == old(changeWeight + SpendWeight(UtxoTables(), utxoPrefix, -180)
               + SpendWeight(AddrTables(), addrUtxoPrefix, -50))
    {
      if utxoPrefix in utxoCache {
        utxoCache := utxoCache - {utxoPrefix};
        changeWeight := changeWeight - 180;
      } else {
        utxoSpentCache := utxoSpentCache + [utxoPrefix];
        changeWeight := changeWeight + 68;
      }
      if addrUtxoPrefix in addrUtxoCache {
        addrUtxoCache := addrUtxoCache - {addrUtxoPrefix};
        changeWeight := changeWeight - 50;
      } else {
        addrUtxoSpentCache := addrUtxoSpentCache + [addrUtxoPrefix];
        changeWeight := changeWeight + 68;
      }
    }

    method AddUtxo(utxoPrefix: string, u: Utxo, addrUtxoPrefix: string)
      modifies `utxoCache, `addrUtxoCache, `changeWeight
      ensures UtxoTables() == AddKey(old(UtxoTables()), utxoPrefix, u)
      ensures AddrTables() == AddKey(old(AddrTables()), addrUtxoPrefix, u)
      ensures changeWeight == old(changeWeight) + 230
    {
      utxoCache := utxoCache[utxoPrefix := u];
      addrUtxoCache := addrUtxoCache[addrUtxoPrefix := u];
      changeWeight := changeWeight + 230;
    }

    /** One input: skip it, spend its output, defer it (BCH) or give up. */
    method HandleVin(vin: Vin, deferred: map<string, OutPoint>, ghost p: Pass, ghost created: set<OutPoint>,
        ghost spent: set<OutPoint>)
      returns (deferred': map<string, OutPoint>, ok: bool)
      requires MidBlock(p, created, spent) && !p.aborted && DeferredRep(chain, deferred, p.deferred)
      requires !Skipped(vin) ==> vin.prev !in spent + again
      modifies `utxoCache, `addrUtxoCache, `utxoSpentCache, `addrUtxoSpentCache, `changeWeight, `split
      ensures MidBlock(PassVin(IsChainBch(chain), p, vin), created, spent + VinSet([vin]))
      ensures DeferredRep(chain, deferred', PassVin(IsChainBch(chain), p, vin).deferred)
      ensures ok == !PassVin(IsChainBch(chain), p, vin).aborted
    {
      hide Whole, DeferredRep, KeyFn, SpendKey, Lookup;
      deferred', ok := deferred, true;
      if Skipped(vin) {
        assert spent + VinSet([vin]) == spent;
        return;
      }
      assert VinSet([vin]) == {vin.prev};
      var utxoPrefix := OpKey(chain, vin.prev);
      WholeLookup(chain, split, UtxoTables(), AddrTables(), changeWeight, p, created, spent,
          OnDisk(), extra, again, vin.prev);
      var data := GetUtxo(utxoPrefix);
      if data.None? {
        if IsChainBch(chain) {
          DeferOne(chain, deferred, p.deferred, vin.prev);
          WholeDefer(chain, split, UtxoTables(), AddrTables(), changeWeight, p, created, spent,
              OnDisk(), extra, again, vin.prev);
          deferred' := deferred[utxoPrefix := vin.prev];
        } else {
          Widen(p, created, spent, p.(aborted := true), created, spent + {vin.prev});
          ok := false;
        }
      } else {
        Spend(vin.prev, data.value, p, created, spent);
      }
    }

    /** spent_utxo for an output that was found. */
    method Spend(prev: OutPoint, u: Utxo, ghost p: Pass, ghost created: set<OutPoint>, ghost spent: set<OutPoint>)
      requires MidBlock(p, created, spent) && prev in p.live && p.live[prev] == u && prev !in p.deferred
      modifies `utxoCache, `addrUtxoCache, `utxoSpentCache, `addrUtxoSpentCache, `changeWeight, `split
      ensures MidBlock(p.(live := p.live - {prev}), created, spent + {prev})
    {
      hide Whole, SpendOp;
      WholeSpend(chain, split, UtxoTables(), AddrTables(), changeWeight, p, created, spent,
          OnDisk(), extra, again, prev, u);
      SpentUtxo(OpKey(chain, prev), Keys.CalAddrUtxoPrefix(chain, u.address, prev.txid, prev.vout));
      split := SpendOp(split, prev);
    }

    /** One output: into both caches. */
    method HandleVout(txid: Txid, vout: Vout, ghost p: Pass, ghost created: set<OutPoint>, ghost spent: set<OutPoint>)
      requires MidBlock(p, created, spent) && !p.aborted
      requires OutPoint(txid, vout.n) !in created
      modifies `utxoCache, `addrUtxoCache, `changeWeight, `split
      ensures MidBlock(PassVout(p, txid, vout), created + {OutPoint(txid, vout.n)}, spent)
    {
      hide Whole;
      ghost var op := OutPoint(txid, vout.n);
      var utxoPrefix := Keys.CalUtxoPrefix(chain, txid, vout.n);
      var addrUtxoPrefix := Keys.CalAddrUtxoPrefix(chain, vout.utxo.address, txid, vout.n);
      WholeAdd(chain, split, UtxoTables(), AddrTables(), changeWeight, p, created, spent,
          OnDisk(), extra, again, op, vout.utxo);
      AddUtxo(utxoPrefix, vout.utxo, addrUtxoPrefix);
      split := AddOp(split, op, vout.utxo);
    }

    /** The inputs, then the outputs of one transaction. */
    method HandleTx(tx: Tx, deferred: map<string, OutPoint>, ghost p: Pass, ghost created: set<OutPoint>,
        ghost spent: set<OutPoint>)
      returns (deferred': map<string, OutPoint>, ok: bool)
      requires MidBlock(p, created, spent) && !p.aborted && DeferredRep(chain, deferred, p.deferred)
      requires VinOps(tx) !! spent + again && VoutOps(tx) !! created && DistinctInputs(tx) && DistinctIndices(tx)
      modifies `utxoCache, `addrUtxoCache, `utxoSpentCache, `addrUtxoSpentCache, `changeWeight, `split
      ensures MidBlock(PassTx(IsChainBch(chain), p, tx), created + VoutOps(tx), spent + VinOps(tx))
      ensures DeferredRep(chain, deferred', PassTx(IsChainBch(chain), p, tx).deferred)
      ensures ok == !PassTx(IsChainBch(chain), p, tx).aborted
    {
      hide Whole, DeferredRep;
      ghost var q := PassVins(IsChainBch(chain), p, tx.vins);
      deferred', ok := HandleVins(tx, deferred, p, created, spent);
      if ok {
        HandleVouts(tx, q, created, spent + VinOps(tx));
        VoutsOverlay(q, tx.txid, tx.vouts);
      } else {
        VoutsStayAborted(q, tx.txid, tx.vouts);
        Widen(q, created, spent + VinOps(tx), q, created + VoutOps(tx), spent + VinOps(tx));
      }
    }

    method HandleVins(tx: Tx, deferred: map<string, OutPoint>, ghost p: Pass, ghost created: set<OutPoint>,
        ghost spent: set<OutPoint>)
      returns (deferred': map<string, OutPoint>, ok: bool)
      requires MidBlock(p, created, spent) && !p.aborted && DeferredRep(chain, deferred, p.deferred)
      requires VinOps(tx) !! spent + again && DistinctInputs(tx)
      modifies `utxoCache, `addrUtxoCache, `utxoSpentCache, `addrUtxoSpentCache, `changeWeight, `split
      ensures MidBlock(PassVins(IsChainBch(chain), p, tx.vins), created, spent + VinOps(tx))
      ensures DeferredRep(chain, deferred', PassVins(IsChainBch(chain), p, tx.vins).deferred)
      ensures ok == !PassVins(IsChainBch(chain), p, tx.vins).aborted
    {
      hide Whole, DeferredRep, PassVins, PassVin, VinSet, VinOps, DistinctInputs;
      ghost var bch := IsChainBch(chain);
      deferred', ok := deferred, true;
      NoVinYet(bch, p, tx, spent);
      for i := 0 to |tx.vins|
        invariant ok && !PassVins(bch, p, tx.vins[..i]).aborted
        invariant MidBlock(PassVins(bch, p, tx.vins[..i]), created, spent + VinSet(tx.vins[..i]))
        invariant DeferredRep(chain, deferred', PassVins(bch, p, tx.vins[..i]).deferred)
      {
        OneMoreVin(bch, p, tx, i, spent);
        OneMoreVin(bch, p, tx, i, again);
        deferred', ok := HandleVin(tx.vins[i], deferred', PassVins(bch, p, tx.vins[..i]), created,
            spent + VinSet(tx.vins[..i]));
        if !ok {
          VinsStayAborted(bch, p, tx.vins, i + 1);
          ghost var q := PassVins(bch, p, tx.vins);
          Widen(q, created, spent + VinSet(tx.vins[..i + 1]), q, created, spent + VinOps(tx));
          return;
        }
      }
    }

    method HandleVouts(tx: Tx, ghost q: Pass, ghost created: set<OutPoint>, ghost spent: set<OutPoint>)
      requires MidBlock(q, created, spent) && !q.aborted
      requires VoutOps(tx) !! created && DistinctIndices(tx)
      modifies `utxoCache, `addrUtxoCache, `changeWeight, `split
      ensures MidBlock(PassVouts(q, tx.txid, tx.vouts), created + VoutOps(tx), spent)
    {
      hide Whole, PassVouts, PassVout, VoutSet, VoutOps, DistinctIndices;
      NoVoutYet(q, tx, created);
      for i := 0 to |tx.vouts|
        invariant MidBlock(PassVouts(q, tx.txid, tx.vouts[..i]), created + VoutSet(tx.txid, tx.vouts[..i]), spent)
      {
        OneMoreVout(q, tx, i, created);
        HandleVout(tx.txid, tx.vouts[i], PassVouts(q, tx.txid, tx.vouts[..i]),
            created + VoutSet(tx.txid, tx.vouts[..i]), spent);
      }
    }

    /** First pass over a block. */
    method HandleTxs(txs: seq<Tx>) returns (deferred: map<string, OutPoint>, ok: bool)
      requires Valid() && ValidBlock(history, txs) && Consumed(txs) !! again
      modifies `utxoCache, `addrUtxoCache, `utxoSpentCache, `addrUtxoSpentCache, `changeWeight, `split
      ensures MidBlock(PassTxs(IsChainBch(chain), Pass(history.live, {}, false), txs),
          history.created + CreatedOps(txs), history.spent + Consumed(txs))
      ensures DeferredRep(chain, deferred, PassTxs(IsChainBch(chain), Pass(history.live, {}, false), txs).deferred)
      ensures ok == !PassTxs(IsChainBch(chain), Pass(history.live, {}, false), txs).aborted
    {
      hide Whole, DeferredRep, ValidBlock, Agrees, PassTxs, PassTx, CreatedOps, Consumed, VinOps, VoutOps,
        DistinctInputs, DistinctIndices;
      ghost var bch, p0, h := IsChainBch(chain), Pass(history.live, {}, false), history;
      deferred, ok := map[], true;
      NoDeferred(chain);
      NoTxYet(bch, p0, h, txs);
      for i := 0 to |txs|
        invariant ok && !PassTxs(bch, p0, txs[..i]).aborted
        invariant MidBlock(PassTxs(bch, p0, txs[..i]), h.created + CreatedOps(txs[..i]), h.spent + Consumed(txs[..i]))
        invariant DeferredRep(chain, deferred, PassTxs(bch, p0, txs[..i]).deferred)
      {
        OneMoreTx(bch, p0, h, txs, i, again);
        deferred, ok := HandleTx(txs[i], deferred, PassTxs(bch, p0, txs[..i]), h.created + CreatedOps(txs[..i]),
          h.spent + Consumed(txs[..i]));
        if !ok {
          TxsStayAborted(bch, p0, txs, i + 1);
          ghost var q := PassTxs(bch, p0, txs);
          Widen(q, h.created + CreatedOps(txs[..i + 1]), h.spent + Consumed(txs[..i + 1]),
            q, h.created + CreatedOps(txs), h.spent + Consumed(txs));
          return;
        }
      }
    }

    /** An output the second pass still does not find is fetched from the node, added and spent:
        nothing changes. */
    method Refetch(prev: OutPoint, u: Utxo, ghost p: Pass, ghost created: set<OutPoint>, ghost spent: set<OutPoint>)
      requires MidBlock(p, created, spent) && prev in p.deferred && prev !in p.live
      modifies `utxoCache, `addrUtxoCache, `utxoSpentCache, `addrUtxoSpentCache, `changeWeight
      ensures UtxoTables() == old(UtxoTables()) && AddrTables() == old(AddrTables())
          && changeWeight == old(changeWeight)
    {
      hide Mid, Leftover, Stores;
      var utxoPrefix := OpKey(chain, prev);
      var addrUtxoPrefix := Keys.CalAddrUtxoPrefix(chain, u.address, prev.txid, prev.vout);
      MidAbsent(chain, split, UtxoTables(), AddrTables(), changeWeight, p, created, spent, prev, u);
      AddThenSpend(UtxoTables(), utxoPrefix, u);
      AddThenSpend(AddrTables(), addrUtxoPrefix, u);
      AddUtxo(utxoPrefix, u, addrUtxoPrefix);
      var data := GetUtxo(utxoPrefix);
      SpentUtxo(utxoPrefix, addrUtxoPrefix);
    }

    /** One deferred input. */
    method HandleOneDeferred(utxoPrefix: string, prev: OutPoint, node: OutPoint -> Utxo, ghost q: Pass,
        ghost created: set<OutPoint>, ghost spent: set<OutPoint>)
      requires MidBlock(q, created, spent) && prev in q.deferred && utxoPrefix == OpKey(chain, prev)
      modifies `utxoCache, `addrUtxoCache, `utxoSpentCache, `addrUtxoSpentCache, `changeWeight, `split
      ensures MidBlock(Pass(q.live - {prev}, q.deferred - {prev}, q.aborted), created, spent)
    {
      hide Whole, Lookup, KeyFn;
      ghost var q' := q.(deferred := q.deferred - {prev});
      WholeLookup(chain, split, UtxoTables(), AddrTables(), changeWeight, q, created, spent,
          OnDisk(), extra, again, prev);
      Widen(q, created, spent, q', created, spent);
      var data := GetUtxo(utxoPrefix);
      if data.None? {
        Refetch(prev, node(prev), q, created, spent);
        assert q'.live - {prev} == q'.live;
      } else {
        Spend(prev, data.value, q', created, spent);
        assert spent + {prev} == spent;
      }
    }

    /** Second pass: the deferred inputs, in whatever order the map yields them. */
    method HandleDeferred(deferred: map<string, OutPoint>, node: OutPoint -> Utxo, ghost p: Pass,
        ghost created: set<OutPoint>, ghost spent: set<OutPoint>)
      requires MidBlock(p, created, spent) && DeferredRep(chain, deferred, p.deferred)
      modifies `utxoCache, `addrUtxoCache, `utxoSpentCache, `addrUtxoSpentCache, `changeWeight, `split
      ensures MidBlock(Pass(p.live - p.deferred, {}, p.aborted), created, spent)
    {
      hide Whole, DeferredRep;
      var left := deferred.Keys;
      ghost var q := p;
      AllDeferred(chain, deferred, p.deferred);
      while left != {}
        invariant left <= deferred.Keys && q.deferred == Waiting(deferred, left) <= p.deferred
        invariant q.live == p.live - (p.deferred - q.deferred) && q.aborted == p.aborted
        invariant MidBlock(q, created, spent)
        decreases left
      {
        var k :| k in left;
        WaitingOne(chain, deferred, p.deferred, left, k);
        HandleOneDeferred(k, deferred[k], node, q, created, spent);
        q := Pass(q.live - {deferred[k]}, q.deferred - {deferred[k]}, q.aborted);
        left := left - {k};
      }
      assert q.deferred == {};
      assert q.live == p.live - p.deferred;
      assert q == Pass(p.live - p.deferred, {}, p.aborted);
    }

    /** flush_db: both tables, batch by batch, then the height; the caches start over.  Entries left over that
        are still live are written over, the others stay. */
    method FlushDb() returns (journal: seq<DiskWrite>)
      requires Valid()
      modifies `utxoCache, `addrUtxoCache, `utxoSpentCache, `addrUtxoSpentCache, `changeWeight, `split,
          `unspentUtxoDb, `addrUnspentUtxoDb, `storedHeight, `extra, `core
      ensures Valid() && utxoCache == addrUtxoCache == map[] && utxoSpentCache == addrUtxoSpentCache == []
          && changeWeight == 0
      ensures storedHeight == lastHeight && Stores(chain, OnDisk(), history.live + extra)
      ensures extra == old(extra) - history.live.Keys && split.durable == history.live
      ensures ReplayDisk(old(OnDisk()), journal) == OnDisk()
      ensures forall n :: 0 <= n <= |journal| && ReplayDisk(old(OnDisk()), journal[..n]).height != old(storedHeight)
                ==> ReplayDisk(old(OnDisk()), journal[..n]) == OnDisk()
    {
      hide Whole, Stores, ReplayDisk, Replay, Flushed, FlushJournal, Agrees, Small;
      ghost var live, d, ut, at := history.live, OnDisk(), UtxoTables(), AddrTables();
      ghost var rest := extra - live.Keys;
      var utxo, us := FlushTable(Tables(unspentUtxoDb, utxoCache, utxoSpentCache));
      var addr, vs := FlushTable(Tables(addrUnspentUtxoDb, addrUtxoCache, addrUtxoSpentCache));
      journal := FlushJournal(us, vs, lastHeight);
      FlushPrefixes(d, us, vs, lastHeight);
      WholeFlush(chain, split, ut, at, changeWeight, Pass(live, {}, false), history.created, history.spent, d, extra,
        again, Disk(utxo, addr, lastHeight));
      AgreesLess(extra, live);
      StartOver(live, rest, ut, at, utxo, addr);
    }

    /** Both tables and the height are on disk: the caches start over. */
    method StartOver(ghost live: Live, ghost rest: Live, ghost ut: Tables, ghost at: Tables, utxo: Table, addr: Table)
      modifies `utxoCache, `addrUtxoCache, `utxoSpentCache, `addrUtxoSpentCache, `changeWeight, `split,
          `unspentUtxoDb, `addrUnspentUtxoDb, `storedHeight, `extra, `core
      ensures core.utxo == Flushed(ut) && core.addr == Flushed(at)
      ensures utxoCache == addrUtxoCache == map[] && utxoSpentCache == addrUtxoSpentCache == [] && changeWeight == 0
      ensures storedHeight == lastHeight && unspentUtxoDb == utxo && addrUnspentUtxoDb == addr
      ensures split == Split(live, map[], []) && extra == rest
    {
      hide *;
      unspentUtxoDb, addrUnspentUtxoDb, storedHeight := utxo, addr, lastHeight;
      utxoCache, addrUtxoCache, utxoSpentCache, addrUtxoSpentCache := map[], map[], [], [];
      changeWeight := 0;
      split, extra, core := Split(live, map[], []), rest, Disk(Flushed(ut), Flushed(at), lastHeight);
    }

    /** handle_block for one block: both passes, the height, and a flush when the interval asks
        for one.  `ok` is false when an input that does not exist stopped the collector. */
    method HandleBlock(block: Block, interval: int, node: OutPoint -> Utxo) returns (ok: bool, ghost flushed: bool)
      requires Valid() && ValidBlock(history, block.txs) && CreatesAgain(again, extra, block.txs)
      modifies this
      ensures Valid() && history == After(IsChainBch(chain), old(history), block.txs)
      ensures ok == !RunBlock(IsChainBch(chain), old(history).live, block.txs).aborted
      ensures lastHeight == if ok && old(lastHeight) < block.height then block.height else old(lastHeight)
      ensures again == if ok then {} else old(again)
      ensures flushed <==> ok && (interval == 1 || Moved(old(split.durable), history.live) > interval)
      ensures split.durable == if flushed then history.live else old(split.durable)
      ensures flushed ==> storedHeight == lastHeight && Stores(chain, OnDisk(), history.live + extra)
      ensures flushed ==> ok && extra == old(extra) - history.live.Keys
      ensures !flushed ==> OnDisk() == old(OnDisk()) && extra == old(extra)
    {
      hide Whole, ValidBlock, Stores, Agrees, CreatesAgain, After, RunBlock, Moved;
      flushed := false;
      ghost var durable := split.durable;
      WholeOnDisk(chain, split, UtxoTables(), AddrTables(), changeWeight, Pass(history.live, {}, false),
        history.created, history.spent, OnDisk(), extra, again);
      ok := HandleBothPasses(block.txs, node);
      WholeWeight(chain, split, UtxoTables(), AddrTables(), changeWeight, Pass(history.live, {}, false),
        history.created, history.spent, OnDisk(), extra, again, durable);
      if !ok {
        return;
      }
      if lastHeight < block.height {
        lastHeight := block.height;
      }
      if interval == 1 {
        var _ := FlushDb();
        flushed := true;
      } else if changeWeight > interval {
        var _ := FlushDb();
        changeWeight := 0;
        flushed := true;
      }
    }

    /** The transactions of a block, then what they deferred. */
    method HandleBothPasses(txs: seq<Tx>, node: OutPoint -> Utxo) returns (ok: bool)
      requires Valid() && ValidBlock(history, txs) && CreatesAgain(again, extra, txs)
      modifies `utxoCache, `addrUtxoCache, `utxoSpentCache, `addrUtxoSpentCache, `changeWeight, `split, `history, `again
      ensures Valid() && history == After(IsChainBch(chain), old(history), txs)
      ensures ok == !RunBlock(IsChainBch(chain), old(history).live, txs).aborted
      ensures again == if ok then {} else old(again)
    {
      hide Whole, ValidBlock, Stores, DeferredRep, Agrees, CreatesAgain, LiveOf;
      var deferred;
      ghost var bch, h := IsChainBch(chain), history;
      ghost var p, h' := PassTxs(bch, Pass(h.live, {}, false), txs), After(bch, h, txs);
      AgreesAfter(bch, h, txs, extra, again);
      WholeLive(chain, split, UtxoTables(), AddrTables(), changeWeight, Pass(h.live, {}, false), h.created, h.spent,
        OnDisk(), extra, again);
      deferred, ok := HandleTxs(txs);
      if !ok {
        AbortedDefersNothing(bch, h.live, txs);
        Widen(p, h'.created, h'.spent, Pass(h'.live, {}, false), h'.created, h'.spent);
        history := h';
        return;
      }
      HandleDeferred(deferred, node, p, h'.created, h'.spent);
      AgainIsLive(bch, h, txs, extra, again);
      CreatedAgain(chain, split, UtxoTables(), AddrTables(), changeWeight, Pass(h'.live, {}, false), h'.created,
          h'.spent,
        OnDisk(), extra, again);
      again := {};
      history := h';
    }

    /** handle_block over a stream of blocks, as long as it does not give up; `done` blocks are complete, and
        `first` of them were when the caches were flushed for the first time. */
    method HandleBlocks(blocks: seq<Block>, interval: int, node: OutPoint -> Utxo)
      returns (done: nat, ghost first: Option<nat>)
      requires Valid() && ValidChain(IsChainBch(chain), history, blocks)
      requires blocks != [] ==> CreatesAgain(again, extra, blocks[0].txs)
      modifies this
      ensures Valid() && Progress(chain, old(history), blocks, done)
      ensures done == |blocks| ==> history == Fold(IsChainBch(chain), old(history), blocks)
      ensures done < |blocks| ==>
        history == After(IsChainBch(chain), Fold(IsChainBch(chain), old(history), blocks[..done]), blocks[done].txs)
      ensures lastHeight == MaxHeight(old(lastHeight), blocks[..done])
      ensures if done > 0 then again == {} else again == old(again)
      ensures first.None? ==> extra == old(extra) && OnDisk() == old(OnDisk())
      ensures first.Some? ==>
        0 < first.value <= done && extra.Keys !! history.live.Keys
        && extra == old(extra) - Fold(IsChainBch(chain), old(history), blocks[..first.value]).live.Keys
      ensures interval == 1 ==> first == if done == 0 then None else Some(1)
      ensures interval == 1 && done > 0 ==>
        storedHeight == lastHeight
        && Stores(chain, OnDisk(), Fold(IsChainBch(chain), old(history), blocks[..done]).live + extra)
    {
      hide Whole, Agrees, ValidBlock, Stores, After, Fold, Completes, ValidChain, MaxHeight, RunBlock, CreatesAgain,
        Moved;
      ghost var bch, h, l, d, e := IsChainBch(chain), history, lastHeight, OnDisk(), extra;
      done, first := 0, None;
      NoBlockYet(bch, h, blocks, l);
      while done < |blocks|
        invariant done <= |blocks| && Valid() && Completes(bch, h, blocks[..done])
        invariant history == Fold(bch, h, blocks[..done]) && lastHeight == MaxHeight(l, blocks[..done])
        invariant if done > 0 then again == {} else again == old(again) && first.None?
        invariant first.None? ==> extra == e && OnDisk() == d
        invariant first.Some? ==>
          0 < first.value <= done && extra.Keys !! history.live.Keys
          && extra == e - Fold(bch, h, blocks[..first.value]).live.Keys
        invariant interval == 1 && done > 0 ==>
          first == Some(1) && storedHeight == lastHeight
          && Stores(chain, OnDisk(), history.live + extra)
      {
        NextBlock(bch, h, blocks, done, l);
        if done > 0 { NothingAgain(extra, blocks[done].txs); }
        NoReturn(bch, history, blocks[done].txs, extra.Keys);
        ghost var flushed;
        var ok;
        ok, flushed := HandleBlock(blocks[done], interval, node);
        if !ok {
          return;
        }
        done := done + 1;
        if flushed && first.None? {
          first := Some(done);
        }
      }
    }

    /** Fast phase: flushes when the weight asks for it; at its end main flushes, also after a give-up, and
        then the disk holds the first part of the failing block under the height of the block before it. */
    method FastPhase(blocks: seq<Block>, interval: int, node: OutPoint -> Utxo) returns (done: nat, ghost first: nat)
      requires Valid() && ValidChain(IsChainBch(chain), history, blocks)
      requires blocks != [] ==> CreatesAgain(again, extra, blocks[0].txs)
      modifies this
      ensures Valid() && Progress(chain, old(history), blocks, done)
      ensures done <= |blocks| && (done == |blocks| <==> Completes(IsChainBch(chain), old(history), blocks))
      ensures storedHeight == lastHeight == MaxHeight(old(lastHeight), blocks[..done])
      ensures done == |blocks| ==> storedHeight == MaxHeight(old(lastHeight), blocks)
      ensures Stores(chain, OnDisk(), history.live + extra) && extra.Keys !! history.live.Keys
      ensures done == |blocks| ==> history == Fold(IsChainBch(chain), old(history), blocks)
      ensures done < |blocks| ==>
        history == After(IsChainBch(chain), Fold(IsChainBch(chain), old(history), blocks[..done]), blocks[done].txs)
      ensures done == |blocks| ==>
        first <= done && (done > 0 ==> first > 0)
        && extra == old(extra) - Fold(IsChainBch(chain), old(history), blocks[..first]).live.Keys
      ensures if done > 0 then again == {} else again == old(again)
    {
      hide Whole, Agrees, ValidBlock, Stores, After, Progress, CreatesAgain, Fold, ValidChain, Completes, MaxHeight,
        Moved;
      ghost var some, e, h := None, extra, history;
      done, some := HandleBlocks(blocks, interval, node);
      ProgressEnds(chain, h, blocks, done);
      first := if some.Some? then some.value else done;
      FinalFlushes(done == |blocks|);
    }

    /** The flush of the exit marker, unless the collector gave up, and then that of main. */
    method FinalFlushes(completed: bool)
      requires Valid()
      modifies `utxoCache, `addrUtxoCache, `utxoSpentCache, `addrUtxoSpentCache, `changeWeight, `split,
          `unspentUtxoDb, `addrUnspentUtxoDb, `storedHeight, `extra, `core
      ensures Valid() && storedHeight == lastHeight && Stores(chain, OnDisk(), history.live + extra)
      ensures extra == old(extra) - history.live.Keys
    {
      hide Whole, Agrees, Stores;
      if completed {
        var _ := FlushDb();
      }
      var _ := FlushDb();
    }

    /** Slow phase: the height is set back to one below the observed one, every block is flushed, and the exit
        marker flushes once more; after a give-up nothing is flushed. */
    method SlowPhase(count: int, blocks: seq<Block>, node: OutPoint -> Utxo) returns (done: nat)
      requires Valid() && ValidChain(IsChainBch(chain), history, blocks)
      requires blocks != [] ==> CreatesAgain(again, extra, blocks[0].txs)
      requires Stores(chain, OnDisk(), history.live + extra) && extra.Keys !! history.live.Keys
      modifies this
      ensures Progress(chain, old(history), blocks, done)
      ensures done <= |blocks| && (done == |blocks| <==> Completes(IsChainBch(chain), old(history), blocks))
      ensures done == |blocks| ==> storedHeight == MaxHeight(count - 1, blocks)
      ensures done == |blocks| ==> Stores(chain, OnDisk(), Fold(IsChainBch(chain), old(history), blocks).live + extra)
      ensures Stores(chain, OnDisk(), Fold(IsChainBch(chain), old(history), blocks[..done]).live + extra)
      ensures storedHeight == if done == 0
          && blocks != [] then old(storedHeight) else MaxHeight(count - 1, blocks[..done])
      ensures extra == if done == 0 then old(extra)
        else old(extra) - Fold(IsChainBch(chain), old(history), blocks[..1]).live.Keys
      ensures done == |blocks| ==> extra.Keys !! Fold(IsChainBch(chain), old(history), blocks).live.Keys
    {
      hide Whole, Agrees, ValidBlock, Stores, After, Progress, CreatesAgain, Fold, ValidChain, Completes, MaxHeight,
        Moved;
      lastHeight := count - 1;
      ghost var some, h := None, history;
      NoBlockYet(IsChainBch(chain), h, blocks, lastHeight);
      done, some := HandleBlocks(blocks, 1, node);
      ProgressEnds(chain, h, blocks, done);
      if done == |blocks| {
        assert blocks[..done] == blocks;
        var _ := FlushDb();
      }
    }
  }

  lemma NothingAgain(extra: Live, txs: seq<Tx>)
    ensures CreatesAgain({}, extra, txs)
  {
  }

  /** What was created before and is not live does not come back. */
  lemma NoReturn(bch: bool, h: History, txs: seq<Tx>, ops: set<OutPoint>)
    requires ValidBlock(h, txs)
    ensures ops <= h.created && ops !! h.live.Keys ==> ops !! After(bch, h, txs).live.Keys
  {
    var p := PassTxs(bch, Pass(h.live, {}, false), txs);
    AnyValues(bch, h.live, txs);
    hide PassTxs;
    forall op | op in p.live && op !in h.live ensures op in CreatedOps(txs) {
      CreatesMember(txs, op, p.live[op]);
    }
  }

  /** The first `done` blocks are complete, and the next one, if there is one, makes the collector give up. */
  ghost predicate Progress(chain: string, h: History, blocks: seq<Block>, done: nat)
  {
    && done <= |blocks|
    && Completes(IsChainBch(chain), h, blocks[..done])
    && (done == |blocks| <==> Completes(IsChainBch(chain), h, blocks))
    && (done < |blocks| ==> !Completes(IsChainBch(chain), h, blocks[..done + 1]))
  }

  lemma ProgressEnds(chain: string, h: History, blocks: seq<Block>, done: nat)
    requires Progress(chain, h, blocks, done)
    ensures done <= |blocks| && (done == |blocks| <==> Completes(IsChainBch(chain), h, blocks))
    ensures done == |blocks| ==> blocks[..done] == blocks
  {
  }

  // ---- Sessions ----

  /** The blocks the node has at the given heights. */
  function BlocksAt(txsAt: int -> seq<Tx>, heights: seq<int>): (blocks: seq<Block>)
    ensures |blocks| == |heights|
    ensures forall i :: 0 <= i < |blocks| ==> blocks[i] == Block(heights[i], txsAt(heights[i]))
  {
    seq(|heights|, i requires 0 <= i < |heights| => Block(heights[i], txsAt(heights[i])))
  }

  lemma BlocksAtJoin(txsAt: int -> seq<Tx>, a: seq<int>, b: seq<int>)
    ensures BlocksAt(txsAt, a + b) == BlocksAt(txsAt, a) + BlocksAt(txsAt, b)
  {
  }

  lemma {:induction false} MaxHeightOfRange(txsAt: int -> seq<Tx>, h: int, lo: int, hi: int)
    ensures MaxHeight(h, BlocksAt(txsAt, Range(lo, hi))) == if lo < hi && h < hi - 1 then hi - 1 else h
    decreases hi - lo
  {
    if lo < hi {
      MaxHeightOfRange(txsAt, h, lo, hi - 1);
      assert BlocksAt(txsAt, Range(lo, hi))[..hi - lo - 1] == BlocksAt(txsAt, Range(lo, hi - 1));
    }
  }

  /** What is left over after a session: the entries that were not live when the caches were flushed for the
      first time, after `first` of its blocks; a session without a fast phase flushes after its first block. */
  ghost predicate FirstFlush(bch: bool, h: History, height: int, v: Visit, txsAt: int -> seq<Tx>, extra: Live,
      extra': Live, first: nat)
  {
    var all := BlocksAt(txsAt, Handed(height, v));
    && first <= |all| && (all != [] ==> first > 0)
    && (all != [] && FastEnd(height, v) == height + 1 ==> first == 1)
    && (FastEnd(height, v) != height + 1 ==> first <= FastEnd(height, v) - height - 1)
    && extra' == extra - Fold(bch, h, all[..first]).live.Keys
  }

  /** The first height of a session is the first of the phase that has one. */
  lemma FirstOfPhases(height: int, v: Visit)
    requires v.count >= height
    ensures var fast, slow := Range(height + 1, FastEnd(height, v)), Range(v.count, Highest(v.count, v.later));
      var all := Handed(height, v);
      && (fast != [] ==> all != [] && all[0] == fast[0])
      && (fast == [] && v.interrupt.None? ==> all == slow)
      && (fast == [] && v.interrupt.Some? ==> all == [])
      && (fast == [] <==> FastEnd(height, v) == height + 1)
  {
  }

  lemma MinusApart(m: Live, ops: set<OutPoint>)
    requires m.Keys !! ops
    ensures m - ops == m
  {
  }

  /** With a fast phase: what it left over stays left over. */
  lemma FlushedFast(bch: bool, h: History, height: int, v: Visit, txsAt: int -> seq<Tx>, extra: Live, mid: Live,
      extra': Live, n: nat)
    requires v.count >= height && FastEnd(height, v) != height + 1
    requires ValidChain(bch, h, BlocksAt(txsAt, Handed(height, v)))
    requires var fast := BlocksAt(txsAt, Range(height + 1, FastEnd(height, v)));
      var slow := BlocksAt(txsAt, Range(v.count, Highest(v.count, v.later)));
      var before := Fold(bch, h, fast);
      && 0 < n <= |fast| && mid.Keys <= before.created && mid.Keys !! before.live.Keys
      && mid == extra - Fold(bch, h, fast[..n]).live.Keys
      && extra' == (if v.interrupt.Some? || slow == [] then mid else mid - Fold(bch, before, slow[..1]).live.Keys)
    ensures FirstFlush(bch, h, height, v, txsAt, extra, extra', n)
  {
    hide Handed, Range, Fold, ValidChain, BlocksAt, Highest;
    var fast := BlocksAt(txsAt, Range(height + 1, FastEnd(height, v)));
    var slow := BlocksAt(txsAt, Range(v.count, Highest(v.count, v.later)));
    SplitPhases(bch, h, height, v, txsAt);
    FastFirst(txsAt, height, v, n);
    if v.interrupt.None? && slow != [] {
      NoReturnFirst(bch, Fold(bch, h, fast), slow, mid.Keys);
      MinusApart(mid, Fold(bch, Fold(bch, h, fast), slow[..1]).live.Keys);
    }
  }

  /** The fast phase comes first. */
  lemma FastFirst(txsAt: int -> seq<Tx>, height: int, v: Visit, n: nat)
    requires v.count >= height && n <= |BlocksAt(txsAt, Range(height + 1, FastEnd(height, v)))|
    ensures var fast, all := BlocksAt(txsAt, Range(height + 1, FastEnd(height, v))), BlocksAt(txsAt, Handed(height, v));
      |fast| == FastEnd(height, v) - height - 1 && |fast| <= |all| && all[..n] == fast[..n]
  {
  }

  /** Without one: the first block of the slow phase is flushed at once. */
  lemma FlushedSlow(bch: bool, h: History, height: int, v: Visit, txsAt: int -> seq<Tx>, extra: Live, extra': Live)
    returns (first: nat)
    requires v.count >= height && FastEnd(height, v) == height + 1 && extra.Keys !! h.live.Keys
    requires var slow := BlocksAt(txsAt, Range(v.count, Highest(v.count, v.later)));
      extra' == (if v.interrupt.Some? || slow == [] then extra else extra - Fold(bch, h, slow[..1]).live.Keys)
    ensures FirstFlush(bch, h, height, v, txsAt, extra, extra', first)
  {
    var slow := BlocksAt(txsAt, Range(v.count, Highest(v.count, v.later)));
    FirstOfPhases(height, v);
    first := if v.interrupt.Some? || slow == [] then 0 else 1;
    NoBlockYet(bch, h, BlocksAt(txsAt, Handed(height, v)), 0);
    MinusApart(extra, h.live.Keys);
    hide Fold;
  }

  lemma NoReturnFirst(bch: bool, h: History, blocks: seq<Block>, ops: set<OutPoint>)
    requires blocks != [] && ValidChain(bch, h, blocks) && ops <= h.created && ops !! h.live.Keys
    ensures ops !! Fold(bch, h, blocks[..1]).live.Keys
  {
    NextBlock(bch, h, blocks, 0, 0);
    NoBlockYet(bch, h, blocks, 0);
    NoReturn(bch, h, blocks[0].txs, ops);
  }

  /** One run of the program over a disk that may hold entries left over, fast phase and slow phase.  When it
      completes the disk stores the ledger of all blocks handed over, under the height the feed determines, and
      still those entries that were not live when the caches were flushed for the first time. */
  method Session(chain: string, disk: Disk, v: Visit, txsAt: int -> seq<Tx>, interval: int, node: OutPoint -> Utxo,
                 ghost h: History, ghost extra: Live, ghost again: set<OutPoint>)
    returns (disk': Disk, ok: bool, ghost extra': Live, ghost first: nat)
    requires Stores(chain, disk, h.live + extra) && h.live.Keys <= h.created && v.count >= disk.height
    requires extra.Keys !! h.live.Keys && extra.Keys <= h.spent + again && extra.Keys <= h.created + again
    requires ValidChain(IsChainBch(chain), h, BlocksAt(txsAt, Handed(disk.height, v)))
    requires Handed(disk.height, v) != [] ==> CreatesAgain(again, extra, txsAt(Handed(disk.height, v)[0]))
    ensures ok <==> Completes(IsChainBch(chain), h, BlocksAt(txsAt, Handed(disk.height, v)))
    ensures ok ==>
      var live := Fold(IsChainBch(chain), h, BlocksAt(txsAt, Handed(disk.height, v))).live;
      Stores(chain, disk', live + extra') && extra'.Keys !! live.Keys
    ensures ok ==> disk'.height == StoredAfter(disk.height, v)
    ensures ok ==> FirstFlush(IsChainBch(chain), h, disk.height, v, txsAt, extra, extra', first)
  {
    hide Stores, Fold, Completes, ValidChain, MaxHeight, Handed, StoredAfter, CreatesAgain, FirstFlush;
    ghost var bch := IsChainBch(chain);
    SplitPhases(bch, h, disk.height, v, txsAt);
    FirstOfPhases(disk.height, v);
    HeightsOfPhases(disk.height, v, txsAt);
    var heights := FeedFast(disk.height, v);
    var later := FeedSlow(v.count, v.later);
    ghost var mid;
    disk', ok, mid, extra', first := Phases(chain, disk, v, BlocksAt(txsAt, heights), BlocksAt(txsAt, later), interval,
      node, h, extra, again);
    if ok {
      if heights != [] {
        FlushedFast(bch, h, disk.height, v, txsAt, extra, mid, extra', first);
      } else {
        first := FlushedSlow(bch, h, disk.height, v, txsAt, extra, extra');
      }
    }
  }

  /** The blocks of the fast phase, then those of the slow phase unless a signal came before. */
  method Phases(chain: string, disk: Disk, v: Visit, fast: seq<Block>, slow: seq<Block>, interval: int,
                node: OutPoint -> Utxo, ghost h: History, ghost extra: Live, ghost again: set<OutPoint>)
    returns (disk': Disk, ok: bool, ghost mid: Live, ghost extra': Live, ghost first: nat)
    requires Stores(chain, disk, h.live + extra) && h.live.Keys <= h.created
    requires extra.Keys !! h.live.Keys && extra.Keys <= h.spent + again && extra.Keys <= h.created + again
    requires ValidChain(IsChainBch(chain), h, fast)
    requires v.interrupt.None? ==> ValidChain(IsChainBch(chain), Fold(IsChainBch(chain), h, fast), slow)
    requires fast != [] ==> CreatesAgain(again, extra, fast[0].txs)
    requires fast == [] && slow != [] && v.interrupt.None? ==> CreatesAgain(again, extra, slow[0].txs)
    ensures var before := Fold(IsChainBch(chain), h, fast);
      && (ok <==>
            Completes(IsChainBch(chain), h, fast) && (v.interrupt.None? ==> Completes(IsChainBch(chain), before, slow)))
      && (ok ==>
            && first <= |fast| && (fast != [] ==> 0 < first && mid.Keys <= before.created)
            && mid.Keys !! before.live.Keys && mid == extra - Fold(IsChainBch(chain), h, fast[..first]).live.Keys
            && (fast == [] ==> mid == extra && before == h)
            && extra' == (if v.interrupt.Some? || slow == [] then mid
                          else mid - Fold(IsChainBch(chain), before, slow[..1]).live.Keys))
    ensures ok ==>
      var before := Fold(IsChainBch(chain), h, fast);
      var after := if v.interrupt.Some? then before else Fold(IsChainBch(chain), before, slow);
      Stores(chain, disk', after.live + extra') && extra'.Keys !! after.live.Keys
    ensures ok ==>
      disk'.height == if v.interrupt.Some? then MaxHeight(disk.height, fast) else MaxHeight(v.count - 1, slow)
  {
    hide Stores, Whole, Agrees, Fold, Completes, ValidChain, Progress, MaxHeight, CreatesAgain;
    StartLeft(IsChainBch(chain), h, extra, fast);
    var c := new Collector(chain, disk, h, extra, again);
    var done;
    done, first := c.FastPhase(fast, interval, node);
    ok := done == |fast|;
    mid := c.extra;
    if ok && v.interrupt.None? {
      if fast != [] && slow != [] { NothingAgain(mid, slow[0].txs); }
      done := c.SlowPhase(v.count, slow, node);
      ok := done == |slow|;
    }
    disk', extra' := Disk(c.unspentUtxoDb, c.addrUnspentUtxoDb, c.storedHeight), c.extra;
  }

  lemma StartLeft(bch: bool, h: History, extra: Live, fast: seq<Block>)
    requires extra.Keys !! h.live.Keys
    ensures extra - Fold(bch, h, fast[..0]).live.Keys == extra
    ensures fast == [] ==> Fold(bch, h, fast) == h && fast[..0] == fast
  {
  }

  lemma HeightsOfPhases(height: int, v: Visit, txsAt: int -> seq<Tx>)
    requires v.count >= height
    ensures MaxHeight(height, BlocksAt(txsAt, Range(height + 1, FastEnd(height, v)))) == FastEnd(height, v) - 1
    ensures MaxHeight(v.count - 1, BlocksAt(txsAt, Range(v.count, Highest(v.count, v.later))))
        == Highest(v.count, v.later) - 1
    ensures StoredAfter(height, v)
        == if v.interrupt.Some? then FastEnd(height, v) - 1 else Highest(v.count, v.later) - 1
  {
    MaxHeightOfRange(txsAt, height, height + 1, FastEnd(height, v));
    MaxHeightOfRange(txsAt, v.count - 1, v.count, Highest(v.count, v.later));
  }

  /** What the two phases handle together is what the session hands over. */
  lemma SplitPhases(bch: bool, h: History, height: int, v: Visit, txsAt: int -> seq<Tx>)
    ensures var fast := BlocksAt(txsAt, Range(height + 1, FastEnd(height, v)));
      var slow := BlocksAt(txsAt, Range(v.count, Highest(v.count, v.later)));
      var all := BlocksAt(txsAt, Handed(height, v));
      if v.interrupt.Some? then all == fast
      else
        && (ValidChain(bch, h, all) <==> ValidChain(bch, h, fast) && ValidChain(bch, Fold(bch, h, fast), slow))
        && (Completes(bch, h, all) <==> Completes(bch, h, fast) && Completes(bch, Fold(bch, h, fast), slow))
        && Fold(bch, h, all) == Fold(bch, Fold(bch, h, fast), slow)
  {
    hide Fold, Completes, ValidChain;
    var fast := BlocksAt(txsAt, Range(height + 1, FastEnd(height, v)));
    var slow := BlocksAt(txsAt, Range(v.count, Highest(v.count, v.later)));
    if v.interrupt.None? {
      BlocksAtJoin(txsAt, Range(height + 1, FastEnd(height, v)), Range(v.count, Highest(v.count, v.later)));
      ChainAppend(bch, h, fast, slow);
      FoldAppend(bch, h, fast, slow);
    } else {
      assert Handed(height, v) == Range(height + 1, FastEnd(height, v));
    }
  }

  /** A session over a disk with nothing left over leaves nothing over. */
  method CleanSession(chain: string, disk: Disk, v: Visit, txsAt: int -> seq<Tx>, interval: int,
                      node: OutPoint -> Utxo, ghost h: History)
    returns (disk': Disk, ok: bool)
    requires Stores(chain, disk, h.live) && h.live.Keys <= h.created && v.count >= disk.height
    requires ValidChain(IsChainBch(chain), h, BlocksAt(txsAt, Handed(disk.height, v)))
    ensures ok <==> Completes(IsChainBch(chain), h, BlocksAt(txsAt, Handed(disk.height, v)))
    ensures ok ==> Stores(chain, disk', Fold(IsChainBch(chain), h, BlocksAt(txsAt, Handed(disk.height, v))).live)
    ensures ok ==> disk'.height == StoredAfter(disk.height, v)
  {
    hide Stores, Fold, Completes, ValidChain, Handed, StoredAfter, CreatesAgain;
    ghost var extra, first;
    assert h.live + map[] == h.live;
    if Handed(disk.height, v) != [] { NothingAgain(map[], txsAt(Handed(disk.height, v)[0])); }
    disk', ok, extra, first := Session(chain, disk, v, txsAt, interval, node, h, map[], {});
    if ok {
      assert extra == map[];
      ghost var live := Fold(IsChainBch(chain), h, BlocksAt(txsAt, Handed(disk.height, v))).live;
      assert live + map[] == live;
    }
  }

  // ---- A session that hands the last block over again ----

  /** A disk with entries left over is not the disk of the ledger. */
  lemma LeftIsWrong(chain: string, d: Disk, live: Live, extra: Live)
    requires Stores(chain, d, live + extra) && extra.Keys !! live.Keys
    ensures Stores(chain, d, live) <==> extra == map[]
  {
    hide Images.IsImage;
    if extra == map[] {
      assert live + extra == live;
    } else {
      KeyFnInjective(ByOutPoint, chain);
      ImageNotLess(KeyFn(ByOutPoint, chain), live, extra, d.utxo);
    }
  }

  lemma ImageNotLess(kf: (OutPoint, Utxo) -> string, live: Live, extra: Live, t: Table)
    requires Images.Injective(kf) && Images.IsImage(kf, live + extra, t) && extra.Keys !! live.Keys && extra != map[]
    ensures !Images.IsImage(kf, live, t)
  {
    var op :| op in extra;
    assert (live + extra)[op] == extra[op];
    assert kf(op, extra[op]) in t;
    assert forall k :: k in live ==> kf(k, live[k]) != kf(op, extra[op]);
  }

  /** The disk holds the ledger after block n, and block n is handed over first.  The session completes exactly
      when that block may be handled again and the rest completes.  Then the outputs of block n that the blocks
      before the first flush spend are back on disk, and nothing else is wrong. */
  method RehandingSession(chain: string, disk: Disk, v: Visit, txsAt: int -> seq<Tx>, interval: int,
                          node: OutPoint -> Utxo, ghost h: History)
    returns (disk': Disk, ok: bool, ghost lost: Live, ghost first: nat)
    requires v.count >= disk.height && Handed(disk.height, v) != []
    requires var txs, bch := txsAt(Handed(disk.height, v)[0]), IsChainBch(chain);
      && ValidBlock(h, txs) && h.live.Keys <= h.created && !RunBlock(bch, h.live, txs).aborted
      && Stores(chain, disk, After(bch, h, txs).live)
      && ValidChain(bch, After(bch, h, txs), BlocksAt(txsAt, Handed(disk.height, v)[1..]))
    ensures var txs, bch := txsAt(Handed(disk.height, v)[0]), IsChainBch(chain);
      var rest := BlocksAt(txsAt, Handed(disk.height, v)[1..]);
      ok <==> Repeatable(bch, h.live, txs) && Completes(bch, After(bch, h, txs), rest)
    ensures ok ==>
      var txs, bch := txsAt(Handed(disk.height, v)[0]), IsChainBch(chain);
      var rest := BlocksAt(txsAt, Handed(disk.height, v)[1..]);
      var live := Fold(bch, After(bch, h, txs), rest).live;
      && disk'.height == StoredAfter(disk.height, v)
      && Stores(chain, disk', live + lost) && (Stores(chain, disk', live) <==> lost == map[])
      && 0 < first <= |rest| + 1 && (FastEnd(disk.height, v) == disk.height + 1 ==> first == 1)
      && (FastEnd(disk.height, v) != disk.height + 1 ==> first <= FastEnd(disk.height, v) - disk.height - 1)
      && lost.Keys == (CreatedOps(txs) - Consumed(txs)) * ConsumedBy(rest[..first - 1])
  {
    hide Stores, Fold, Completes, ValidChain, Handed, StoredAfter, CreatesAgain, After, RunBlock, Repeatable,
        ValidBlock,
      Rewound, OwnOutputs, FirstFlush, ConsumedBy;
    ghost var bch, heights := IsChainBch(chain), Handed(disk.height, v);
    ghost var txs := txsAt(heights[0]);
    ghost var g, own := Rewound(h, txs), OwnOutputs(bch, h, txs);
    ghost var rest := BlocksAt(txsAt, heights[1..]);
    RehandedStart(bch, h, txsAt, heights);
    disk', ok, lost, first := Session(chain, disk, v, txsAt, interval, node, g, own, own.Keys);
    if ok {
      RehandedEnd(bch, h, txsAt, disk.height, v, lost, first);
      LeftIsWrong(chain, disk', Fold(bch, After(bch, h, txs), rest).live, lost);
    }
  }

  /** On the ledger without its outputs the block and the rest are a valid stretch. */
  lemma RehandedStart(bch: bool, h: History, txsAt: int -> seq<Tx>, heights: seq<int>)
    requires heights != []
    requires var txs := txsAt(heights[0]);
      && ValidBlock(h, txs) && h.live.Keys <= h.created && !RunBlock(bch, h.live, txs).aborted
      && ValidChain(bch, After(bch, h, txs), BlocksAt(txsAt, heights[1..]))
    ensures var txs, rest := txsAt(heights[0]), BlocksAt(txsAt, heights[1..]);
      var g, own, once := Rewound(h, txs), OwnOutputs(bch, h, txs), After(bch, h, txs);
      && g.live + own == once.live && g.live.Keys <= g.created && own.Keys !! g.live.Keys
      && CreatesAgain(own.Keys, own, txs) && own.Keys == CreatedOps(txs) - Consumed(txs)
      && ValidChain(bch, g, BlocksAt(txsAt, heights))
      && (Completes(bch, g, BlocksAt(txsAt, heights)) <==> Repeatable(bch, h.live, txs) && Completes(bch, once, rest))
      && (Repeatable(bch, h.live, txs) ==> Fold(bch, g, BlocksAt(txsAt, heights)) == Fold(bch, once, rest))
  {
    hide RunBlock, ValidBlock, Repeatable, Rewound, OwnOutputs, Creates;
    var txs, rest := txsAt(heights[0]), BlocksAt(txsAt, heights[1..]);
    var g, once := Rewound(h, txs), After(bch, h, txs);
    RewoundParts(bch, h, txs);
    RewoundRun(bch, h, txs);
    RewoundSets(h, txs);
    FirstAndRest(bch, g, txsAt, heights);
    SameValidity(bch, After(bch, g, txs), once, rest);
  }

  lemma RewoundSets(h: History, txs: seq<Tx>)
    ensures Rewound(h, txs).created == h.created && Rewound(h, txs).spent == h.spent
  {
  }

  /** A stretch is its first block and the rest. */
  lemma FirstAndRest(bch: bool, h: History, txsAt: int -> seq<Tx>, heights: seq<int>)
    requires heights != []
    ensures var txs, rest, all := txsAt(heights[0]), BlocksAt(txsAt, heights[1..]), BlocksAt(txsAt, heights);
      var once := After(bch, h, txs);
      && (ValidChain(bch, h, all) <==> ValidBlock(h, txs) && ValidChain(bch, once, rest))
      && (Completes(bch, h, all) <==> !RunBlock(bch, h.live, txs).aborted && Completes(bch, once, rest))
      && Fold(bch, h, all) == Fold(bch, once, rest)
  {
    hide RunBlock, ValidBlock, After;
    var b := BlocksAt(txsAt, heights[..1]);
    assert heights == heights[..1] + heights[1..];
    BlocksAtJoin(txsAt, heights[..1], heights[1..]);
    assert b[..0] == [] && |b| == 1 && b[0].txs == txsAt(heights[0]);
    assert Fold(bch, h, b) == After(bch, h, b[0].txs);
    ChainAppend(bch, h, b, BlocksAt(txsAt, heights[1..]));
    FoldAppend(bch, h, b, BlocksAt(txsAt, heights[1..]));
  }

  /** Whether a stretch is valid depends on what was created and spent before it. */
  lemma {:induction false} SameValidity(bch: bool, h1: History, h2: History, blocks: seq<Block>)
    requires h1.created == h2.created && h1.spent == h2.spent
    ensures ValidChain(bch, h1, blocks) == ValidChain(bch, h2, blocks)
    ensures Fold(bch, h1, blocks).created == Fold(bch, h2, blocks).created
    ensures Fold(bch, h1, blocks).spent == Fold(bch, h2, blocks).spent
    decreases |blocks|
  {
    hide RunBlock;
    if blocks != [] { SameValidity(bch, h1, h2, blocks[..|blocks| - 1]); }
  }

  /** What such a session leaves over. */
  lemma RehandedEnd(bch: bool, h: History, txsAt: int -> seq<Tx>, height: int, v: Visit, lost: Live, first: nat)
    requires Handed(height, v) != []
    requires var txs, rest := txsAt(Handed(height, v)[0]), BlocksAt(txsAt, Handed(height, v)[1..]);
      var once := After(bch, h, txs);
      && ValidBlock(h, txs) && h.live.Keys <= h.created && !RunBlock(bch, h.live, txs).aborted
      && Repeatable(bch, h.live, txs) && ValidChain(bch, once, rest) && Completes(bch, once, rest)
      && FirstFlush(bch, Rewound(h, txs), height, v, txsAt, OwnOutputs(bch, h, txs), lost, first)
    ensures 0 < first <= |Handed(height, v)|
    ensures FastEnd(height, v) == height + 1 ==> first == 1
    ensures FastEnd(height, v) != height + 1 ==> first <= FastEnd(height, v) - height - 1
    ensures var txs, rest := txsAt(Handed(height, v)[0]), BlocksAt(txsAt, Handed(height, v)[1..]);
      lost.Keys == (CreatedOps(txs) - Consumed(txs)) * ConsumedBy(rest[..first - 1])
  {
    hide RunBlock, ValidBlock, Repeatable, Rewound, OwnOutputs, Creates, Handed, Fold, Completes, ValidChain, After,
      ConsumedBy;
    var heights := Handed(height, v);
    var txs, rest := txsAt(heights[0]), BlocksAt(txsAt, heights[1..]);
    var own, once := OwnOutputs(bch, h, txs), After(bch, h, txs);
    var part := BlocksAt(txsAt, heights[..first]);
    assert BlocksAt(txsAt, heights)[..first] == part && heights[..first][0] == heights[0];
    assert BlocksAt(txsAt, heights[..first][1..]) == rest[..first - 1];
    FirstAndRest(bch, Rewound(h, txs), txsAt, heights[..first]);
    RewoundParts(bch, h, txs);
    RewoundRun(bch, h, txs);
    ChainPrefix(bch, once, rest, first - 1);
    BlockKeepsHistory(bch, h, txs);
    OwnSurvive(bch, once, rest[..first - 1], own);
  }

  lemma OwnSurvive(bch: bool, h: History, blocks: seq<Block>, own: Live)
    requires ValidChain(bch, h, blocks) && Completes(bch, h, blocks) && h.live.Keys <= h.created
    requires own.Keys <= h.live.Keys
    ensures (own - Fold(bch, h, blocks).live.Keys).Keys == own.Keys * ConsumedBy(blocks)
  {
    hide ValidChain, Completes, Fold, ConsumedBy;
    forall op | op in own ensures op in Fold(bch, h, blocks).live <==> op !in ConsumedBy(blocks) {
      Survives(bch, h, blocks, op);
    }
  }

  /** Any number of sessions one after the other, each with its own flush interval. */
  method Sessions(chain: string, disk: Disk, vs: seq<Visit>, intervals: seq<int>, txsAt: int -> seq<Tx>,
                  node: OutPoint -> Utxo, ghost h: History)
    returns (disk': Disk, ok: bool)
    requires Stores(chain, disk, h.live) && h.live.Keys <= h.created && Waited(disk.height, vs)
    requires |intervals| == |vs|
    requires ValidChain(IsChainBch(chain), h, BlocksAt(txsAt, HandedAll(disk.height, vs)))
    requires Completes(IsChainBch(chain), h, BlocksAt(txsAt, HandedAll(disk.height, vs)))
    ensures ok && disk'.height == StoredAll(disk.height, vs)
    ensures Stores(chain, disk', Fold(IsChainBch(chain), h, BlocksAt(txsAt, HandedAll(disk.height, vs))).live)
  {
    hide Stores, Fold, Completes, ValidChain;
    ghost var bch := IsChainBch(chain);
    disk', ok := disk, true;
    StartOfChain(bch, h, txsAt, disk.height, vs);
    for i := 0 to |vs|
      invariant ok && disk'.height == StoredAll(disk.height, vs[..i])
      invariant Stores(chain, disk', Fold(bch, h, BlocksAt(txsAt, HandedAll(disk.height, vs[..i]))).live)
    {
      OneMoreSession(bch, h, txsAt, disk.height, vs, i);
      disk', ok := CleanSession(chain, disk', vs[i], txsAt, intervals[i], node,
        Fold(bch, h, BlocksAt(txsAt, HandedAll(disk.height, vs[..i]))));
    }
    assert vs[..|vs|] == vs;
  }

  lemma StartOfChain(bch: bool, h: History, txsAt: int -> seq<Tx>, height: int, vs: seq<Visit>)
    ensures Fold(bch, h, BlocksAt(txsAt, HandedAll(height, vs[..0]))) == h && StoredAll(height, vs[..0]) == height
  {
  }

  lemma {:induction false} WaitedPrefix(height: int, vs: seq<Visit>, n: nat)
    requires Waited(height, vs) && n <= |vs|
    ensures Waited(height, vs[..n])
    ensures HandedAll(height, vs[..n]) <= HandedAll(height, vs)
    decreases |vs|
  {
    hide Handed, StoredAfter;
    if n < |vs| {
      var front := vs[..|vs| - 1];
      WaitedPrefix(height, front, n);
      assert front[..n] == vs[..n];
    } else {
      assert vs[..n] == vs;
    }
  }

  /** What session i needs and what it adds. */
  lemma OneMoreSession(bch: bool, h: History, txsAt: int -> seq<Tx>, height: int, vs: seq<Visit>, i: nat)
    requires Waited(height, vs) && i < |vs| && h.live.Keys <= h.created
    requires ValidChain(bch, h, BlocksAt(txsAt, HandedAll(height, vs)))
    requires Completes(bch, h, BlocksAt(txsAt, HandedAll(height, vs)))
    ensures var before := Fold(bch, h, BlocksAt(txsAt, HandedAll(height, vs[..i])));
      var blocks := BlocksAt(txsAt, Handed(StoredAll(height, vs[..i]), vs[i]));
      && before.live.Keys <= before.created && vs[i].count >= StoredAll(height, vs[..i])
      && ValidChain(bch, before, blocks) && Completes(bch, before, blocks)
      && Fold(bch, before, blocks) == Fold(bch, h, BlocksAt(txsAt, HandedAll(height, vs[..i + 1])))
      && StoredAll(height, vs[..i + 1]) == StoredAfter(StoredAll(height, vs[..i]), vs[i])
  {
    hide Fold, Completes, ValidChain, Handed, StoredAfter;
    var front := vs[..i + 1];
    assert front[..i] == vs[..i] && front[i] == vs[i];
    WaitedPrefix(height, vs, i + 1);
    var past, now := HandedAll(height, vs[..i]), Handed(StoredAll(height, vs[..i]), vs[i]);
    assert HandedAll(height, front) == past + now;
    var more := HandedAll(height, vs)[|past + now|..];
    assert HandedAll(height, vs) == past + now + more;
    BlocksAtJoin(txsAt, past + now, more);
    BlocksAtJoin(txsAt, past, now);
    ChainAppend(bch, h, BlocksAt(txsAt, past + now), BlocksAt(txsAt, more));
    ChainAppend(bch, h, BlocksAt(txsAt, past), BlocksAt(txsAt, now));
    FoldAppend(bch, h, BlocksAt(txsAt, past), BlocksAt(txsAt, now));
    FoldKeepsCreated(bch, h, BlocksAt(txsAt, past));
  }

  // ---- Sessions over a node that never falls back ----

  /** The history after block n, every block since `height` handled once. */
  ghost function UpTo(bch: bool, h: History, txsAt: int -> seq<Tx>, height: int, n: int): History
  {
    Fold(bch, h, BlocksAt(txsAt, Range(height + 1, n + 1)))
  }

  ghost predicate GoodUpTo(bch: bool, h: History, txsAt: int -> seq<Tx>, height: int, n: int)
  {
    ValidChain(bch, h, BlocksAt(txsAt, Range(height + 1, n + 1)))
    && Completes(bch, h, BlocksAt(txsAt, Range(height + 1, n + 1)))
  }

  lemma UpToJoin(bch: bool, h: History, txsAt: int -> seq<Tx>, height: int, n: int, m: int)
    requires height <= n <= m && h.live.Keys <= h.created && GoodUpTo(bch, h, txsAt, height, m)
    ensures var before, rest := UpTo(bch, h, txsAt, height, n), BlocksAt(txsAt, Range(n + 1, m + 1));
      && GoodUpTo(bch, h, txsAt, height, n) && before.live.Keys <= before.created
      && ValidChain(bch, before, rest) && Completes(bch, before, rest)
      && UpTo(bch, h, txsAt, height, m) == Fold(bch, before, rest)
  {
    hide ValidChain, Completes, Fold;
    RangeJoin(height + 1, n + 1, m + 1);
    BlocksAtJoin(txsAt, Range(height + 1, n + 1), Range(n + 1, m + 1));
    ChainAppend(bch, h, BlocksAt(txsAt, Range(height + 1, n + 1)), BlocksAt(txsAt, Range(n + 1, m + 1)));
    FoldAppend(bch, h, BlocksAt(txsAt, Range(height + 1, n + 1)), BlocksAt(txsAt, Range(n + 1, m + 1)));
    FoldKeepsCreated(bch, h, BlocksAt(txsAt, Range(height + 1, n + 1)));
  }

  /** A session that hands the highest block over again does no harm: the block may be handled again, and none
      of its outputs is spent in the fast phase that hands it over. */
  ghost predicate Harmless(bch: bool, h: History, txsAt: int -> seq<Tx>, height: int, stored: int, reached: int,
      v: Visit)
  {
    var fed, txs := Handed(stored, v), txsAt(reached);
    fed != [] && fed[0] == reached ==>
      && reached > height
      && Repeatable(bch, UpTo(bch, h, txsAt, height, reached - 1).live, txs)
      && (CreatedOps(txs) - Consumed(txs)) !! ConsumedBy(BlocksAt(txsAt, Range(reached + 1, FastEnd(stored, v))))
  }

  ghost predicate AllHarmless(bch: bool, h: History, txsAt: int -> seq<Tx>, height: int, vs: seq<Visit>)
  {
    vs == [] ||
    (AllHarmless(bch, h, txsAt, height, vs[..|vs| - 1])
     && Harmless(bch, h, txsAt, height, StoredAll(height, vs[..|vs| - 1]), Reached(height, vs[..|vs| - 1]),
         vs[|vs| - 1]))
  }

  /** One of them: the disk holds every block up to `reached`, and afterwards every block up to the next. */
  method HarmlessSession(chain: string, disk: Disk, v: Visit, txsAt: int -> seq<Tx>, interval: int,
                         node: OutPoint -> Utxo, ghost h: History, ghost height: int, reached: int)
    returns (disk': Disk, ok: bool)
    requires reached - 1 <= disk.height <= reached <= v.count && height <= reached && h.live.Keys <= h.created
    requires Stores(chain, disk, UpTo(IsChainBch(chain), h, txsAt, height, reached).live)
    requires GoodUpTo(IsChainBch(chain), h, txsAt, height, Largest(reached, Handed(disk.height, v)))
    requires Harmless(IsChainBch(chain), h, txsAt, height, disk.height, reached, v)
    ensures ok && disk'.height == StoredAfter(disk.height, v)
    ensures Stores(chain, disk',
      UpTo(IsChainBch(chain), h, txsAt, height, Largest(reached, Handed(disk.height, v))).live)
  {
    hide Stores, Fold, Completes, ValidChain, Handed, StoredAfter, UpTo, GoodUpTo, Harmless, Largest, After, RunBlock,
      ValidBlock, Repeatable, ConsumedBy, Range;
    ghost var bch, fed := IsChainBch(chain), Handed(disk.height, v);
    ghost var next := Largest(reached, fed);
    NextReached(disk.height, reached, v);
    UpToJoin(bch, h, txsAt, height, reached, next);
    if |Handed(disk.height, v)| == 0 || Handed(disk.height, v)[0] != reached {
      FreshHeights(bch, txsAt, UpTo(bch, h, txsAt, height, reached), reached, next, fed);
      disk', ok := CleanSession(chain, disk, v, txsAt, interval, node, UpTo(bch, h, txsAt, height, reached));
    } else {
      ghost var lost, first;
      HarmlessAgain(bch, h, txsAt, height, disk.height, reached, v);
      OneBefore(bch, h, txsAt, height, reached, next, disk.height, v);
      disk', ok, lost, first := RehandingSession(chain, disk, v, txsAt, interval, node,
        UpTo(bch, h, txsAt, height, reached - 1));
      NothingLost(bch, h, txsAt, height, disk.height, reached, v, next, first);
    }
  }

  /** Heights that go on after the highest block. */
  lemma FreshHeights(bch: bool, txsAt: int -> seq<Tx>, h: History, reached: int, next: int, fed: seq<int>)
    requires if fed == [] then next == reached else fed == Range(reached + 1, next + 1)
    requires ValidChain(bch, h, BlocksAt(txsAt, Range(reached + 1, next + 1)))
    requires Completes(bch, h, BlocksAt(txsAt, Range(reached + 1, next + 1)))
    ensures ValidChain(bch, h, BlocksAt(txsAt, fed)) && Completes(bch, h, BlocksAt(txsAt, fed))
    ensures Fold(bch, h, BlocksAt(txsAt, fed)) == Fold(bch, h, BlocksAt(txsAt, Range(reached + 1, next + 1)))
  {
    hide ValidChain, Completes, Fold;
    assert fed == Range(reached + 1, next + 1);
  }

  /** The history before the highest block. */
  lemma OneBefore(bch: bool, h: History, txsAt: int -> seq<Tx>, height: int, reached: int, next: int, stored: int,
      v: Visit)
    requires height < reached <= next && h.live.Keys <= h.created && GoodUpTo(bch, h, txsAt, height, next)
    requires Handed(stored, v) == Range(reached, next + 1)
    ensures var before, txs := UpTo(bch, h, txsAt, height, reached - 1), txsAt(reached);
      && ValidBlock(before, txs) && before.live.Keys <= before.created && !RunBlock(bch, before.live, txs).aborted
      && After(bch, before, txs) == UpTo(bch, h, txsAt, height, reached)
      && Handed(stored, v) != [] && Handed(stored, v)[0] == reached
      && Handed(stored, v)[1..] == Range(reached + 1, next + 1)
      && ValidChain(bch, After(bch, before, txs), BlocksAt(txsAt, Handed(stored, v)[1..]))
      && Completes(bch, After(bch, before, txs), BlocksAt(txsAt, Handed(stored, v)[1..]))
      && UpTo(bch, h, txsAt, height, next)
          == Fold(bch, After(bch, before, txs), BlocksAt(txsAt, Handed(stored, v)[1..]))
  {
    hide ValidChain, Completes, Fold, UpTo, After, RunBlock, ValidBlock, GoodUpTo, Handed;
    UpToJoin(bch, h, txsAt, height, reached, next);
    UpToJoin(bch, h, txsAt, height, reached - 1, reached);
    var before := UpTo(bch, h, txsAt, height, reached - 1);
    assert Range(reached, reached + 1) == [reached] && Range(reached, reached + 1)[1..] == [];
    assert Range(reached, next + 1)[1..] == Range(reached + 1, next + 1);
    FirstAndRest(bch, before, txsAt, Range(reached, reached + 1));
    NoBlockYet(bch, After(bch, before, txsAt(reached)), BlocksAt(txsAt, []), 0);
    assert BlocksAt(txsAt, [])[..0] == BlocksAt(txsAt, []);
  }

  lemma HarmlessAgain(bch: bool, h: History, txsAt: int -> seq<Tx>, height: int, stored: int, reached: int, v: Visit)
    requires Harmless(bch, h, txsAt, height, stored, reached, v) && Handed(stored, v) != []
        && Handed(stored, v)[0] == reached
    ensures reached > height && Repeatable(bch, UpTo(bch, h, txsAt, height, reached - 1).live, txsAt(reached))
  {
    hide Repeatable, UpTo, Handed;
  }

  /** None of its outputs is spent before the first flush. */
  lemma NothingLost(bch: bool, h: History, txsAt: int -> seq<Tx>, height: int, stored: int, reached: int, v: Visit,
      next: int, first: nat)
    requires Harmless(bch, h, txsAt, height, stored, reached, v) && reached - 1 <= stored <= reached
    requires Handed(stored, v) == Range(reached, next + 1) && reached <= next
    requires 0 < first <= next - reached + 1 && (FastEnd(stored, v) == stored + 1 ==> first == 1)
    requires FastEnd(stored, v) != stored + 1 ==> first <= FastEnd(stored, v) - stored - 1
    requires v.count >= reached
    ensures var txs := txsAt(reached);
      (CreatedOps(txs) - Consumed(txs)) * ConsumedBy(BlocksAt(txsAt, Handed(stored, v)[1..])[..first - 1]) == {}
  {
    hide Handed, Repeatable, UpTo, CreatedOps, Consumed;
    var rest, fast := BlocksAt(txsAt, Range(reached, next + 1)[1..]),
        BlocksAt(txsAt, Range(reached + 1, FastEnd(stored, v)));
    if first > 1 {
      assert first - 1 <= |fast|;
      assert rest[..first - 1] == fast[..first - 1];
      ConsumedPart(fast, first - 1);
    }
  }

  /** Any number of such sessions, each with its own flush interval: the disk holds every block once. */
  method HarmlessSessions(chain: string, disk: Disk, vs: seq<Visit>, intervals: seq<int>, txsAt: int -> seq<Tx>,
                          node: OutPoint -> Utxo, ghost h: History)
    returns (disk': Disk)
    requires Stores(chain, disk, h.live) && h.live.Keys <= h.created && |intervals| == |vs|
    requires NotFalling(disk.height, vs) && AllHarmless(IsChainBch(chain), h, txsAt, disk.height, vs)
    requires GoodUpTo(IsChainBch(chain), h, txsAt, disk.height, Reached(disk.height, vs))
    ensures disk'.height == StoredAll(disk.height, vs)
    ensures Stores(chain, disk', UpTo(IsChainBch(chain), h, txsAt, disk.height, Reached(disk.height, vs)).live)
  {
    hide Stores, GoodUpTo, Harmless, UpTo, Handed, StoredAfter, Largest;
    ghost var bch := IsChainBch(chain);
    disk' := disk;
    StartUpTo(bch, h, txsAt, disk.height);
    for i := 0 to |vs|
      invariant disk'.height == StoredAll(disk.height, vs[..i])
      invariant Stores(chain, disk', UpTo(bch, h, txsAt, disk.height, Reached(disk.height, vs[..i])).live)
    {
      HarmlessPrefix(bch, h, txsAt, disk.height, vs, i);
      var ok;
      disk', ok := HarmlessSession(chain, disk', vs[i], txsAt, intervals[i], node, h, disk.height,
        Reached(disk.height, vs[..i]));
    }
    assert vs[..|vs|] == vs;
  }

  lemma StartUpTo(bch: bool, h: History, txsAt: int -> seq<Tx>, height: int)
    ensures UpTo(bch, h, txsAt, height, height) == h
  {
  }

  /** What session i starts from. */
  lemma {:induction false} HarmlessPrefix(bch: bool, h: History, txsAt: int -> seq<Tx>, height: int, vs: seq<Visit>,
      i: nat)
    requires NotFalling(height, vs) && AllHarmless(bch, h, txsAt, height, vs) && i < |vs| && h.live.Keys <= h.created
    requires GoodUpTo(bch, h, txsAt, height, Reached(height, vs))
    ensures var stored, reached := StoredAll(height, vs[..i]), Reached(height, vs[..i]);
      && reached - 1 <= stored <= reached <= vs[i].count && height <= reached
      && StoredAll(height, vs[..i + 1]) == StoredAfter(stored, vs[i])
      && Reached(height, vs[..i + 1]) == Largest(reached, Handed(stored, vs[i]))
      && Harmless(bch, h, txsAt, height, stored, reached, vs[i])
      && GoodUpTo(bch, h, txsAt, height, Largest(reached, Handed(stored, vs[i])))
    decreases |vs|
  {
    hide GoodUpTo, Harmless, Handed, StoredAfter, Largest;
    var front := vs[..|vs| - 1];
    StoredNearReached(height, front);
    if i < |front| {
      StoredNearReached(height, vs);
      UpToJoin(bch, h, txsAt, height, Reached(height, front), Reached(height, vs));
      HarmlessPrefix(bch, h, txsAt, height, front, i);
      assert front[..i] == vs[..i] && front[..i + 1] == vs[..i + 1];
    } else {
      assert vs[..i + 1] == vs && vs[..i] == front;
    }
  }

  /** However a stretch of the chain is divided into sessions over a node that never falls back, and whatever
      their flush intervals: as long as no session that hands a block over again does harm, the same last block
      and height mean the same disk. */
  method CleanRestart(chain: string, disk: Disk, vs: seq<Visit>, iv: seq<int>, ws: seq<Visit>, iw: seq<int>,
                      txsAt: int -> seq<Tx>, node: OutPoint -> Utxo, ghost h: History)
    returns (disk1: Disk, disk2: Disk)
    requires Stores(chain, disk, h.live) && h.live.Keys <= h.created && |iv| == |vs| && |iw| == |ws|
    requires NotFalling(disk.height, vs) && AllHarmless(IsChainBch(chain), h, txsAt, disk.height, vs)
    requires NotFalling(disk.height, ws) && AllHarmless(IsChainBch(chain), h, txsAt, disk.height, ws)
    requires Reached(disk.height, vs) == Reached(disk.height, ws)
    requires GoodUpTo(IsChainBch(chain), h, txsAt, disk.height, Reached(disk.height, vs))
    ensures disk1.utxo == disk2.utxo && disk1.addr == disk2.addr
    ensures disk1.height == StoredAll(disk.height, vs) && disk2.height == StoredAll(disk.height, ws)
    ensures StoredAll(disk.height, vs) == StoredAll(disk.height, ws) ==> disk1 == disk2
  {
    hide Stores, UpTo, GoodUpTo, StoredAll, Reached, NotFalling, AllHarmless;
    disk1 := HarmlessSessions(chain, disk, vs, iv, txsAt, node, h);
    disk2 := HarmlessSessions(chain, disk, ws, iw, txsAt, node, h);
    StoresUnique(chain, disk1, disk2, UpTo(IsChainBch(chain), h, txsAt, disk.height, Reached(disk.height, vs)).live);
  }

  /** Sessions none of which first saw the chain at the stored height hand no block over again. */
  lemma {:induction false} NoneEqualHarmless(bch: bool, h: History, txsAt: int -> seq<Tx>, height: int, vs: seq<Visit>)
    requires Waited(height, vs) && NoneEqual(height, vs)
    ensures NotFalling(height, vs) && AllHarmless(bch, h, txsAt, height, vs)
    decreases |vs|
  {
    NoneEqualNotFalling(height, vs);
    if vs != [] {
      hide Handed, StoredAfter;
      var front, last := vs[..|vs| - 1], vs[|vs| - 1];
      NoneEqualHarmless(bch, h, txsAt, height, front);
      NoneEqualNotFalling(height, front);
      var stored := StoredAll(height, front);
      if Handed(stored, last) != [] { FirstHanded(stored, last); }
    }
  }

  lemma StoresUnique(chain: string, d1: Disk, d2: Disk, live: Live)
    requires Stores(chain, d1, live) && Stores(chain, d2, live)
    ensures d1.utxo == d2.utxo && d1.addr == d2.addr
  {
    Images.ImageUnique(KeyFn(ByOutPoint, chain), live, d1.utxo, d2.utxo);
    Images.ImageUnique(KeyFn(ByAddress, chain), live, d1.addr, d2.addr);
  }

  lemma {:induction false} FoldKeepsCreated(bch: bool, h: History, blocks: seq<Block>)
    requires h.live.Keys <= h.created && ValidChain(bch, h, blocks) && Completes(bch, h, blocks)
    ensures Fold(bch, h, blocks).live.Keys <= Fold(bch, h, blocks).created
    decreases |blocks|
  {
    if blocks != [] {
      FoldKeepsCreated(bch, h, blocks[..|blocks| - 1]);
      BlockKeepsHistory(bch, Fold(bch, h, blocks[..|blocks| - 1]), blocks[|blocks| - 1].txs);
    }
  }
}
