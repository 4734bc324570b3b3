// One write-back table: a LevelDB table, a cache of puts and a list of pending deletes
// (btc_collect/main.go).  The collector runs two of them in lockstep, one per index.

module WriteBack {
  import opened Options
  import opened Chain
  import Keys
  import Images

  type Table = map<string, Utxo>

  datatype Index = ByOutPoint | ByAddress

  function KeyFn(ix: Index, chain: string): (OutPoint, Utxo) -> string
  {
    match ix
    case ByOutPoint => (op: OutPoint, u: Utxo) => Keys.CalUtxoPrefix(chain, op.txid, op.vout)
    case ByAddress => (op: OutPoint, u: Utxo) => Keys.CalAddrUtxoPrefix(chain, u.address, op.txid, op.vout)
  }

  lemma KeyFnInjective(ix: Index, chain: string)
    ensures Images.Injective(KeyFn(ix, chain))
  {
    var kf := KeyFn(ix, chain);
    forall op1, u1, op2, u2 | kf(op1, u1) == kf(op2, u2)
      ensures op1 == op2
    {
      if ix.ByOutPoint? {
        Keys.UtxoKeyInjective(chain, op1.txid, op1.vout, op2.txid, op2.vout);
      } else {
        Keys.AddrKeyInjective(chain, u1.address, op1.txid, op1.vout, u2.address, op2.txid, op2.vout);
      }
    }
  }

  /** The concrete state of one table. */
  datatype Tables = Tables(db: Table, cache: Table, spent: seq<string>)

  /** What both tables store, in terms of outputs: those on disk, those only in the cache, and
      those on disk whose deletion is pending. */
  datatype Split = Split(durable: Live, cached: Live, pending: seq<OutPoint>)

  function PendingSet(s: Split): set<OutPoint> { Images.SetOf(s.pending) }

  ghost predicate SplitInv(s: Split)
  {
    && s.cached.Keys !! s.durable.Keys
    && PendingSet(s) <= s.durable.Keys
    && forall i, j :: 0 <= i < j < |s.pending| ==> s.pending[i] != s.pending[j]
  }

  function LiveOf(s: Split): Live { (s.durable - PendingSet(s)) + s.cached }

  ghost predicate Rep(kf: (OutPoint, Utxo) -> string, s: Split, t: Tables)
  {
    && SplitInv(s)
    && Images.IsImage(kf, s.durable, t.db)
    && Images.IsImage(kf, s.cached, t.cache)
    && |t.spent| == |s.pending|
    && forall i {:trigger s.pending[i]} {:trigger t.spent[i]} :: 0 <= i < |s.pending| ==>
         s.pending[i] in s.durable && t.spent[i] == kf(s.pending[i], s.durable[s.pending[i]])
  }

  // ---- One output in, one output out ----

  function AddOp(s: Split, op: OutPoint, u: Utxo): Split
  {
    s.(cached := s.cached[op := u])
  }

  /** A cached output simply disappears; one on disk becomes a pending delete. */
  function SpendOp(s: Split, op: OutPoint): Split
  {
    if op in s.cached then s.(cached := s.cached - {op})
    else s.(pending := s.pending + [op])
  }

  lemma AddKeepsRep(kf: (OutPoint, Utxo) -> string, s: Split, t: Tables, op: OutPoint, u: Utxo)
    requires Images.Injective(kf) && Rep(kf, s, t) && op !in s.cached && op !in s.durable
    ensures Rep(kf, AddOp(s, op, u), AddKey(t, kf(op, u), u))
    ensures kf(op, u) !in t.cache
  {
    Images.ImageAdd(kf, s.cached, t.cache, op, u);
  }

  lemma AddLive(s: Split, op: OutPoint, u: Utxo)
    requires SplitInv(s) && op !in s.cached && op !in s.durable
    ensures SplitInv(AddOp(s, op, u)) && LiveOf(AddOp(s, op, u)) == LiveOf(s)[op := u]
  {
    assert PendingSet(AddOp(s, op, u)) == PendingSet(s);
  }

  lemma SpendLive(s: Split, op: OutPoint)
    requires SplitInv(s) && op in LiveOf(s)
    ensures SplitInv(SpendOp(s, op)) && LiveOf(SpendOp(s, op)) == LiveOf(s) - {op}
    ensures PendingSet(SpendOp(s, op)) <= PendingSet(s) + {op}
  {
    if op !in s.cached {
      assert op in s.durable && op !in PendingSet(s);
      assert PendingSet(SpendOp(s, op)) == PendingSet(s) + {op};
    } else {
      assert PendingSet(SpendOp(s, op)) == PendingSet(s);
    }
  }

  /** spent_utxo on one table. */
  function SpendKey(t: Tables, key: string): Tables
  {
    if key in t.cache then t.(cache := t.cache - {key}) else t.(spent := t.spent + [key])
  }

  /** add_utxo on one table. */
  function AddKey(t: Tables, key: string, u: Utxo): Tables
  {
    t.(cache := t.cache[key := u])
  }

  /** A hit in one cache is a hit in the other: both are decided by the output itself. */
  lemma SpendKeepsRep(kf: (OutPoint, Utxo) -> string, s: Split, t: Tables, op: OutPoint, u: Utxo)
    requires Images.Injective(kf) && Rep(kf, s, t) && op in LiveOf(s) && u == LiveOf(s)[op]
    ensures kf(op, u) in t.cache <==> op in s.cached
    ensures Rep(kf, SpendOp(s, op), SpendKey(t, kf(op, u)))
  {
    Images.ImageMember(kf, s.cached, t.cache, op, u);
    SpendLive(s, op);
    if op in s.cached {
      Images.ImageRemove(kf, s.cached, t.cache, op);
    } else {
      assert op in s.durable && s.durable[op] == u;
    }
  }

  /** get_utxo: the cache first, then the table; pending deletes are not consulted. */
  function Lookup(t: Tables, key: string): Option<Utxo>
  {
    if key in t.cache then Some(t.cache[key])
    else if key in t.db then Some(t.db[key])
    else None
  }

  function LookupLive(live: Live, op: OutPoint): Option<Utxo>
  {
    if op in live then Some(live[op]) else None
  }

  /** get_utxo answers as the ledger does exactly for the outputs with no pending delete: a spent
      output still looks unspent until the next flush. */
  lemma LookupAnswersLedger(chain: string, s: Split, t: Tables, op: OutPoint)
    requires Rep(KeyFn(ByOutPoint, chain), s, t)
    ensures Lookup(t, Keys.CalUtxoPrefix(chain, op.txid, op.vout)) == LookupLive(LiveOf(s), op)
       <==> op !in s.pending
  {
    var kf := KeyFn(ByOutPoint, chain);
    KeyFnInjective(ByOutPoint, chain);
    var u := if op in s.cached then s.cached[op] else if op in s.durable then s.durable[op] else Utxo(0, "", "");
    assert kf(op, u) == Keys.CalUtxoPrefix(chain, op.txid, op.vout);
    Images.ImageMember(kf, s.cached, t.cache, op, u);
    if op !in s.cached {
      Images.ImageMember(kf, s.durable, t.db, op, u);
    }
  }

  /** The keys of an output that is nowhere in the split are nowhere in the table. */
  lemma AbsentEverywhere(kf: (OutPoint, Utxo) -> string, s: Split, t: Tables, op: OutPoint, u: Utxo)
    requires Images.Injective(kf) && Rep(kf, s, t) && op !in s.durable && op !in s.cached
    ensures kf(op, u) !in t.db && kf(op, u) !in t.cache && kf(op, u) !in t.spent
  {
    Images.ImageMember(kf, s.durable, t.db, op, u);
    Images.ImageMember(kf, s.cached, t.cache, op, u);
    forall i | 0 <= i < |t.spent| ensures t.spent[i] != kf(op, u) {
      assert s.pending[i] in s.durable;
    }
  }

  // ---- Flushing ----

  /** One atomic LevelDB batch. */
  datatype Write = Puts(entries: Table) | Deletes(keys: seq<string>)

  function Size(w: Write): nat
  {
    match w case Puts(m) => |m| case Deletes(ks) => |ks|
  }

  function KeySet(ks: seq<string>): set<string> { Images.SetOf(ks) }

  function Apply(db: Table, w: Write): Table
  {
    match w
    case Puts(m) => db + m
    case Deletes(ks) => db - KeySet(ks)
  }

  function Replay(db: Table, ws: seq<Write>): Table
  {
    if ws == [] then db else Apply(Replay(db, ws[..|ws| - 1]), ws[|ws| - 1])
  }

  lemma {:induction false} ReplayAppend(db: Table, a: seq<Write>, b: seq<Write>)
    ensures Replay(db, a + b) == Replay(Replay(db, a), b)
    decreases |b|
  {
    if b == [] {
      assert a + b == a;
    } else {
      ReplayAppend(db, a, b[..|b| - 1]);
      assert (a + b)[..|a + b| - 1] == a + b[..|b| - 1];
    }
  }

  function Flushed(t: Tables): Table { (t.db + t.cache) - KeySet(t.spent) }

  const BATCH_INTERVAL := 300

  /** Puts in batches of 300 plus the remainder, then deletes in batches of 300 plus the
      remainder; the cache is iterated in no particular order. */
  method FlushTable(t: Tables) returns (db: Table, writes: seq<Write>)
    ensures db == Flushed(t) == Replay(t.db, writes)
    ensures |writes| == |t.cache| / 300 + |t.spent| / 300 + 2
    ensures Small(writes)
  {
    db, writes := PutAll(t.db, t.cache);
    ghost var puts := writes;
    var deletes: seq<Write>;
    db, deletes := DeleteAll(db, t.spent);
    ReplayAppend(t.db, writes, deletes);
    writes := writes + deletes;
  }

  predicate Small(writes: seq<Write>)
  {
    forall i :: 0 <= i < |writes| ==> Size(writes[i]) <= 300
  }

  lemma OverlayUpdate(a: Table, b: Table, k: string, v: Utxo)
    ensures a + b[k := v] == (a + b)[k := v]
  {
  }

  lemma RestrictUpdate(cache: Table, left: set<string>, k: string)
    requires k in left && k in cache
    ensures cache - (left - {k}) == (cache - left)[k := cache[k]]
  {
  }

  lemma SizeUpdate(batch: Table, left: set<string>, k: string, v: Utxo)
    requires k in left && batch.Keys !! left
    ensures |left - {k}| == |left| - 1 && |batch[k := v]| == |batch| + 1 && batch[k := v].Keys !! left - {k}
  {
    assert batch[k := v].Keys == batch.Keys + {k};
  }

  lemma PutOne(db0: Table, db: Table, cache: Table, left: set<string>, batch: Table, k: string)
    requires k in left && k in cache
    requires db + batch == db0 + (cache - left)
    ensures db + batch[k := cache[k]] == db0 + (cache - (left - {k}))
  {
    RestrictUpdate(cache, left, k);
    OverlayUpdate(db, batch, k, cache[k]);
    OverlayUpdate(db0, cache - left, k, cache[k]);
  }

  /** The counter test `index % 300 == 0` fires exactly when the batch holds 300 entries. */
  lemma Tick(index: nat, w: nat, b: nat)
    requires index == BATCH_INTERVAL * w + b && b < BATCH_INTERVAL
    ensures (index + 1) % BATCH_INTERVAL == 0 <==> b + 1 == BATCH_INTERVAL
    ensures index / BATCH_INTERVAL == w
  {
  }

  lemma OverlayEmpty(db: Table)
    ensures db + map[] == db
  {
  }

  /** `if index % batch_interval == 0`: write the batch and start the next one. */
  method PutBatchIfFull(ghost db0: Table, db: Table, writes: seq<Write>, index: nat, batch: Table)
    returns (db': Table, writes': seq<Write>, batch': Table)
    requires db == Replay(db0, writes) && Small(writes)
    requires index == BATCH_INTERVAL * |writes| + |batch| && 0 < |batch| <= BATCH_INTERVAL
    ensures db' == Replay(db0, writes') && Small(writes')
    ensures index == BATCH_INTERVAL * |writes'| + |batch'| && |batch'| < BATCH_INTERVAL
    ensures db' + batch' == db + batch && batch'.Keys <= batch.Keys
  {
    db', writes', batch' := db, writes, batch;
    assert index % BATCH_INTERVAL == 0 <==> |batch| == BATCH_INTERVAL by { Tick(index - 1, |writes|, |batch| - 1); }
    if index % BATCH_INTERVAL == 0 {
      db', writes' := WriteBatch(db0, db, writes, Puts(batch));
      batch' := map[];
      OverlayEmpty(db');
    }
  }

  method PutAll(db0: Table, cache: Table) returns (db: Table, writes: seq<Write>)
    ensures db == db0 + cache == Replay(db0, writes)
    ensures |writes| == |cache| / 300 + 1
    ensures Small(writes)
  {
    db, writes := db0, [];
    var index, batch: Table, left := 0, map[], cache.Keys;
    assert cache - left == map[];
    while left != {}
      invariant left <= cache.Keys && index + |left| == |cache| && batch.Keys !! left
      invariant index == BATCH_INTERVAL * |writes| + |batch| && |batch| < BATCH_INTERVAL
      invariant db == Replay(db0, writes) && Small(writes)
      invariant db + batch == db0 + (cache - left)
      decreases |left|
    {
      var k :| k in left;
      PutOne(db0, db, cache, left, batch, k);
      SizeUpdate(batch, left, k, cache[k]);
      index, left, batch := index + 1, left - {k}, batch[k := cache[k]];
      db, writes, batch := PutBatchIfFull(db0, db, writes, index, batch);
    }
    assert |writes| == |cache| / BATCH_INTERVAL by { Tick(|cache|, |writes|, |batch|); }
    assert cache - left == cache;
    db, writes := WriteBatch(db0, db, writes, Puts(batch));
  }

  lemma DeleteOne(db0: Table, db: Table, spent: seq<string>, index: nat, batch: seq<string>)
    requires index < |spent| && db - KeySet(batch) == db0 - KeySet(spent[..index])
    ensures db - KeySet(batch + [spent[index]]) == db0 - KeySet(spent[..index + 1])
  {
    var k := spent[index];
    assert spent[..index + 1][..index] == spent[..index];
    Images.SetOfSnoc(spent[..index + 1]);
    assert (batch + [k])[..|batch|] == batch;
    Images.SetOfSnoc(batch + [k]);
    assert db - KeySet(batch + [k]) == (db - KeySet(batch)) - {k};
    assert db0 - KeySet(spent[..index + 1]) == (db0 - KeySet(spent[..index])) - {k};
  }

  method DeleteAll(db0: Table, spent: seq<string>) returns (db: Table, writes: seq<Write>)
    ensures db == db0 - KeySet(spent) == Replay(db0, writes)
    ensures |writes| == |spent| / 300 + 1
    ensures Small(writes)
  {
    db, writes := db0, [];
    var batch: seq<string> := [];
    for index := 0 to |spent|
      invariant index == BATCH_INTERVAL * |writes| + |batch| && |batch| < BATCH_INTERVAL
      invariant db == Replay(db0, writes) && Small(writes)
      invariant db - KeySet(batch) == db0 - KeySet(spent[..index])
    {
      DeleteOne(db0, db, spent, index, batch);
      assert (index + 1) % BATCH_INTERVAL == 0 <==> |batch| + 1 == BATCH_INTERVAL by { Tick(index, |writes|, |batch|); }
      batch := batch + [spent[index]];
      if (index + 1) % BATCH_INTERVAL == 0 {
        db, writes := WriteBatch(db0, db, writes, Deletes(batch));
        batch := [];
        assert KeySet(batch) == {};
        assert db - KeySet(batch) == db;
      }
    }
    assert |writes| == |spent| / BATCH_INTERVAL by { Tick(|spent|, |writes|, |batch|); }
    assert spent[..|spent|] == spent;
    db, writes := WriteBatch(db0, db, writes, Deletes(batch));
  }

  method WriteBatch(ghost db0: Table, db: Table, writes: seq<Write>, w: Write) returns (db': Table, writes': seq<Write>)
    requires db == Replay(db0, writes) && Small(writes) && Size(w) <= BATCH_INTERVAL
    ensures db' == Apply(db, w) == Replay(db0, writes') && Small(writes')
    ensures writes' == writes + [w]
  {
    db', writes' := Apply(db, w), writes + [w];
    assert writes'[..|writes|] == writes;
  }

  lemma StartKeepsRep(kf: (OutPoint, Utxo) -> string, live: Live, db: Table)
    requires Images.IsImage(kf, live, db)
    ensures Rep(kf, Split(live, map[], []), Tables(db, map[], []))
  {
    assert PendingSet(Split(live, map[], [])) == {};
  }

  lemma StartLive(live: Live)
    ensures LiveOf(Split(live, map[], [])) == live && PendingSet(Split(live, map[], [])) == {}
  {
    assert PendingSet(Split(live, map[], [])) == {};
    assert live - {} + map[] == live;
  }

  lemma MinusPending(s: Split)
    requires SplitInv(s)
    ensures (s.durable + s.cached) - PendingSet(s) == LiveOf(s)
  {
  }

  /** After the flush the table alone is the ledger, and nothing is cached or pending. */
  lemma FlushKeepsRep(kf: (OutPoint, Utxo) -> string, s: Split, t: Tables)
    requires Images.Injective(kf) && Rep(kf, s, t)
    ensures Images.IsImage(kf, LiveOf(s), Flushed(t))
    ensures Rep(kf, Split(LiveOf(s), map[], []), Tables(Flushed(t), map[], []))
  {
    Images.ImageMerge(kf, s.durable, t.db, s.cached, t.cache);
    Images.ImageDropAll(kf, s.durable + s.cached, t.db + t.cache, s.pending, t.spent);
    MinusPending(s);
    StartKeepsRep(kf, LiveOf(s), Flushed(t));
  }

  // ---- Why outputs must be unique and spent once ----

  /** An output created again while its deletion is pending is lost by the flush; one created
      again while it is on disk comes back after it is spent. */
  lemma DuplicateOutputsBreak(t: Tables, key: string, u: Utxo)
    ensures key in t.spent ==> key !in Flushed(AddKey(t, key, u))
    ensures key in t.db && key !in t.spent && key !in t.cache ==>
      Lookup(SpendKey(AddKey(t, key, u), key), key) == Some(t.db[key])
      && key in Flushed(SpendKey(AddKey(t, key, u), key))
  {
    var t' := SpendKey(AddKey(t, key, u), key);
    assert key !in t'.cache && t'.spent == t.spent;
  }
}
