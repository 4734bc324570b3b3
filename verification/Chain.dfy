// The chain as the UTXO collector sees it, and what processing a block means for the set of
// unspent outputs, without caches or tables (btc_collect/main.go, handle_block).

module Chain {
  import Keys

  type Txid = Keys.Txid

  datatype OutPoint = OutPoint(txid: Txid, vout: nat)

  /** Amounts are integers in units of 10^-8. */
  datatype Utxo = Utxo(value: int, address: string, scriptPubKey: string)

  datatype Vin = Coinbase | Spend(prev: OutPoint)

  /** The index of an output is the one the node reports, not its position. */
  datatype Vout = Vout(n: nat, utxo: Utxo)

  datatype Tx = Tx(txid: Txid, vins: seq<Vin>, vouts: seq<Vout>)

  datatype Block = Block(height: int, txs: seq<Tx>)

  type Live = map<OutPoint, Utxo>

  predicate Skipped(vin: Vin)
  {
    vin.Coinbase? || vin.prev.txid == Keys.ZERO_TXID
  }

  // ---- Processing a block, in the order its transactions are listed ----

  /** `deferred` holds the inputs a BCH block could not resolve yet; on the other chains an
      unknown input aborts the collector in the middle of the block. */
  datatype Pass = Pass(live: Live, deferred: set<OutPoint>, aborted: bool)

  function PassVin(bch: bool, p: Pass, vin: Vin): Pass
  {
    if p.aborted || Skipped(vin) then p
    else if vin.prev in p.live then p.(live := p.live - {vin.prev})
    else if bch then p.(deferred := p.deferred + {vin.prev})
    else p.(aborted := true)
  }

  function PassVins(bch: bool, p: Pass, vins: seq<Vin>): Pass
  {
    if vins == [] then p
    else PassVin(bch, PassVins(bch, p, vins[..|vins| - 1]), vins[|vins| - 1])
  }

  function PassVout(p: Pass, txid: Txid, vout: Vout): Pass
  {
    if p.aborted then p
    else p.(live := p.live[OutPoint(txid, vout.n) := vout.utxo])
  }

  function PassVouts(p: Pass, txid: Txid, vouts: seq<Vout>): Pass
  {
    if vouts == [] then p
    else PassVout(PassVouts(p, txid, vouts[..|vouts| - 1]), txid, vouts[|vouts| - 1])
  }

  function PassTx(bch: bool, p: Pass, tx: Tx): Pass
  {
    PassVouts(PassVins(bch, p, tx.vins), tx.txid, tx.vouts)
  }

  function PassTxs(bch: bool, p: Pass, txs: seq<Tx>): Pass
  {
    if txs == [] then p
    else PassTx(bch, PassTxs(bch, p, txs[..|txs| - 1]), txs[|txs| - 1])
  }

  /** First pass over the transactions, second pass over what was deferred. */
  function RunBlock(bch: bool, live: Live, txs: seq<Tx>): Pass
  {
    var p := PassTxs(bch, Pass(live, {}, false), txs);
    Pass(p.live - p.deferred, {}, p.aborted)
  }

  // ---- What a block creates and consumes, in no order ----

  function VinOps(tx: Tx): set<OutPoint>
  {
    set v | v in tx.vins && !Skipped(v) :: v.prev
  }

  function Consumed(txs: seq<Tx>): set<OutPoint>
  {
    set tx, op | tx in txs && op in VinOps(tx) :: op
  }

  function VoutOps(tx: Tx): set<OutPoint>
  {
    set o | o in tx.vouts :: OutPoint(tx.txid, o.n)
  }

  function CreatedOps(txs: seq<Tx>): set<OutPoint>
  {
    set tx, op | tx in txs && op in VoutOps(tx) :: op
  }

  ghost predicate Creates(txs: seq<Tx>, op: OutPoint, u: Utxo)
  {
    exists tx, o :: tx in txs && o in tx.vouts && op == OutPoint(tx.txid, o.n) && u == o.utxo
  }

  /** What the ledger has to look like after a block: everything that was there or was created,
      minus everything that was consumed. */
  ghost predicate IsBlockResult(live: Live, txs: seq<Tx>, after: Live)
  {
    && after.Keys == (live.Keys + CreatedOps(txs)) - Consumed(txs)
    && forall op :: op in after ==> (op in live && after[op] == live[op]) || Creates(txs, op, after[op])
  }

  // ---- Validity (what consensus gives the node's blocks) ----

  predicate DistinctIndices(tx: Tx)
  {
    forall i, j :: 0 <= i < j < |tx.vouts| ==> tx.vouts[i].n != tx.vouts[j].n
  }

  predicate DistinctInputs(tx: Tx)
  {
    forall i, j :: 0 <= i < j < |tx.vins| && !Skipped(tx.vins[i]) ==> tx.vins[i] != tx.vins[j]
  }

  ghost predicate UniqueTxids(txs: seq<Tx>)
  {
    && (forall tx :: tx in txs ==> multiset(txs)[tx] == 1)
    && (forall t1, t2 :: t1 in txs && t2 in txs && t1 != t2 ==> t1.txid != t2.txid)
  }

  /** No output is created twice and none is consumed twice inside the block. */
  ghost predicate WellFormedTxs(txs: seq<Tx>)
  {
    && UniqueTxids(txs)
    && (forall tx :: tx in txs ==> DistinctIndices(tx) && DistinctInputs(tx))
    && (forall t1, t2 :: t1 in txs && t2 in txs && t1 != t2 ==> VinOps(t1) !! VinOps(t2))
  }

  /** The unspent outputs, every output ever created and every output ever consumed. */
  datatype History = History(live: Live, created: set<OutPoint>, spent: set<OutPoint>)

  /** Outpoints are unique over the chain (BIP 30, BIP 34) and spent at most once. */
  ghost predicate ValidBlock(h: History, txs: seq<Tx>)
  {
    && WellFormedTxs(txs)
    && CreatedOps(txs) !! h.created
    && Consumed(txs) !! h.spent
  }

  /** Every consumed output exists: before the block, or by the end of it. */
  predicate Funded(live: Live, txs: seq<Tx>)
  {
    Consumed(txs) <= live.Keys + CreatedOps(txs)
  }

  function After(bch: bool, h: History, txs: seq<Tx>): History
  {
    History(RunBlock(bch, h.live, txs).live, h.created + CreatedOps(txs), h.spent + Consumed(txs))
  }

  function Fold(bch: bool, h: History, blocks: seq<Block>): History
  {
    if blocks == [] then h
    else After(bch, Fold(bch, h, blocks[..|blocks| - 1]), blocks[|blocks| - 1].txs)
  }

  /** Every block is valid where it stands. */
  ghost predicate ValidChain(bch: bool, h: History, blocks: seq<Block>)
  {
    blocks == [] ||
    (var front := blocks[..|blocks| - 1];
     ValidChain(bch, h, front) && ValidBlock(Fold(bch, h, front), blocks[|blocks| - 1].txs))
  }

  /** No block makes the collector give up: off BCH, creators are listed before spenders and
      every consumed output exists. */
  predicate Completes(bch: bool, h: History, blocks: seq<Block>)
  {
    blocks == [] ||
    (var front := blocks[..|blocks| - 1];
     Completes(bch, h, front) && !RunBlock(bch, Fold(bch, h, front).live, blocks[|blocks| - 1].txs).aborted)
  }

  function MaxHeight(h: int, blocks: seq<Block>): int
  {
    if blocks == [] then h
    else
      var m := MaxHeight(h, blocks[..|blocks| - 1]);
      if m < blocks[|blocks| - 1].height then blocks[|blocks| - 1].height else m
  }

  // ---- Lemmas ----

  lemma CountedTwice(txs: seq<Tx>, i: nat, j: nat)
    requires i < j < |txs| && txs[i] == txs[j]
    ensures multiset(txs)[txs[i]] >= 2
  {
    var a, b := txs[..j], txs[j..];
    assert txs == a + b;
    assert a[i] in multiset(a) && b[0] in multiset(b);
  }

  lemma UniqueAt(txs: seq<Tx>, i: nat, j: nat)
    requires UniqueTxids(txs) && i < j < |txs|
    ensures txs[i].txid != txs[j].txid
  {
    if txs[i] == txs[j] {
      CountedTwice(txs, i, j);
    }
  }

  lemma PrefixUnique(txs: seq<Tx>)
    requires txs != [] && UniqueTxids(txs)
    ensures forall tx :: tx in txs[..|txs| - 1] ==> tx in txs && tx.txid != txs[|txs| - 1].txid
    ensures UniqueTxids(txs[..|txs| - 1])
  {
    var front, last := txs[..|txs| - 1], txs[|txs| - 1];
    assert txs == front + [last];
    assert multiset(txs) == multiset(front) + multiset([last]);
    forall tx | tx in front
      ensures tx in txs && tx.txid != last.txid && multiset(front)[tx] == 1
    {
      var i :| 0 <= i < |front| && front[i] == tx;
      UniqueAt(txs, i, |txs| - 1);
      assert multiset(txs)[tx] == 1 && multiset([last])[tx] == 0;
    }
  }

  lemma PrefixOps(txs: seq<Tx>)
    requires txs != []
    ensures CreatedOps(txs) == CreatedOps(txs[..|txs| - 1]) + VoutOps(txs[|txs| - 1])
    ensures Consumed(txs) == Consumed(txs[..|txs| - 1]) + VinOps(txs[|txs| - 1])
  {
    assert txs == txs[..|txs| - 1] + [txs[|txs| - 1]];
  }

  lemma PrefixTxs(txs: seq<Tx>)
    requires txs != [] && WellFormedTxs(txs)
    ensures WellFormedTxs(txs[..|txs| - 1])
    ensures txs[|txs| - 1] in txs
    ensures forall tx :: tx in txs[..|txs| - 1] ==> tx in txs && tx.txid != txs[|txs| - 1].txid
    ensures CreatedOps(txs) == CreatedOps(txs[..|txs| - 1]) + VoutOps(txs[|txs| - 1])
    ensures Consumed(txs) == Consumed(txs[..|txs| - 1]) + VinOps(txs[|txs| - 1])
  {
    PrefixUnique(txs);
    PrefixOps(txs);
  }

  /** What the first pass keeps: live and deferred outputs against those of the prefix read. */
  ghost predicate PassInv(live: Live, created: set<OutPoint>, consumed: set<OutPoint>, p: Pass)
  {
    && p.live.Keys <= live.Keys + created
    && p.deferred <= consumed
    && (forall op :: op in live.Keys + created && op !in p.live ==> op in consumed)
    && (forall op :: op in consumed ==> op !in p.live || op in p.deferred)
    && (forall op :: op in consumed ==> op in live.Keys + created || op in p.deferred)
  }

  ghost predicate ValuesFrom(live: Live, txs: seq<Tx>, p: Pass)
  {
    forall op :: op in p.live ==> (op in live && p.live[op] == live[op]) || Creates(txs, op, p.live[op])
  }

  function VinSet(vins: seq<Vin>): set<OutPoint>
  {
    set v | v in vins && !Skipped(v) :: v.prev
  }

  lemma {:induction false} VinsKeepInv(bch: bool, live: Live, created: set<OutPoint>, consumed: set<OutPoint>,
      p: Pass, vins: seq<Vin>)
    requires PassInv(live, created, consumed, p)
    requires !PassVins(bch, p, vins).aborted
    ensures PassInv(live, created, consumed + VinSet(vins), PassVins(bch, p, vins))
    ensures PassVins(bch, p, vins).live == p.live - (p.live.Keys - PassVins(bch, p, vins).live.Keys)
    decreases |vins|
  {
    if vins == [] {
      assert VinSet(vins) == {};
      assert consumed + VinSet(vins) == consumed;
    } else {
      var front, last := vins[..|vins| - 1], vins[|vins| - 1];
      assert !PassVins(bch, p, front).aborted;
      assert vins == front + [last];
      assert VinSet(vins) == VinSet(front) + (if Skipped(last) then {} else {last.prev});
      assert consumed + VinSet(vins) == consumed + VinSet(front) + (if Skipped(last) then {} else {last.prev});
      hide PassVin, PassInv, VinSet;
      VinsKeepInv(bch, live, created, consumed, p, front);
      VinKeepsInv(bch, live, created, consumed + VinSet(front), p.live, PassVins(bch, p, front), last);
    }
  }

  lemma VinKeepsInv(bch: bool, live: Live, created: set<OutPoint>, consumed: set<OutPoint>, first: Live, p: Pass,
      vin: Vin)
    requires PassInv(live, created, consumed, p) && !PassVin(bch, p, vin).aborted
    requires p.live == first - (first.Keys - p.live.Keys)
    ensures PassInv(live, created, consumed + (if Skipped(vin) then {} else {vin.prev}), PassVin(bch, p, vin))
    ensures var q := PassVin(bch, p, vin); q.live == first - (first.Keys - q.live.Keys)
  {
  }

  predicate FromVouts(txid: Txid, vouts: seq<Vout>, op: OutPoint, u: Utxo)
  {
    exists o :: o in vouts && op == OutPoint(txid, o.n) && u == o.utxo
  }

  /** The outputs of one transaction are simply laid over what was live. */
  lemma {:induction false} VoutsOverlay(p: Pass, txid: Txid, vouts: seq<Vout>)
    requires !p.aborted
    ensures var q := PassVouts(p, txid, vouts);
      && q.deferred == p.deferred && !q.aborted
      && q.live.Keys == p.live.Keys + (set o | o in vouts :: OutPoint(txid, o.n))
      && (forall op :: op in q.live ==>
          (op in p.live && q.live[op] == p.live[op]) || FromVouts(txid, vouts, op, q.live[op]))
    decreases |vouts|
  {
    if vouts != [] {
      var front, last := vouts[..|vouts| - 1], vouts[|vouts| - 1];
      VoutsOverlay(p, txid, front);
      assert vouts == front + [last];
      var op := OutPoint(txid, last.n);
      assert (set o | o in vouts :: OutPoint(txid, o.n)) == (set o | o in front :: OutPoint(txid, o.n)) + {op};
      forall k, u | FromVouts(txid, front, k, u) ensures FromVouts(txid, vouts, k, u) {}
      assert FromVouts(txid, vouts, op, last.utxo);
    }
  }

  lemma VoutsKeepInv(live: Live, created: set<OutPoint>, consumed: set<OutPoint>, p: Pass, tx: Tx)
    requires PassInv(live, created, consumed, p) && !p.aborted
    requires VoutOps(tx) !! created && VoutOps(tx) * consumed !! live.Keys
    ensures PassInv(live, created + VoutOps(tx), consumed, PassVouts(p, tx.txid, tx.vouts))
  {
    VoutsOverlay(p, tx.txid, tx.vouts);
    assert VoutOps(tx) == set o | o in tx.vouts :: OutPoint(tx.txid, o.n);
  }

  /** What a block creates and consumes itself is not live before. */
  ghost predicate OwnNotLive(live: Live, txs: seq<Tx>) { CreatedOps(txs) * Consumed(txs) !! live.Keys }

  lemma {:induction false} TxsKeepInv(bch: bool, live: Live, txs: seq<Tx>)
    requires WellFormedTxs(txs) && OwnNotLive(live, txs)
    requires !PassTxs(bch, Pass(live, {}, false), txs).aborted
    ensures PassInv(live, CreatedOps(txs), Consumed(txs), PassTxs(bch, Pass(live, {}, false), txs))
    ensures ValuesFrom(live, txs, PassTxs(bch, Pass(live, {}, false), txs))
    decreases |txs|
  {
    var p0 := Pass(live, {}, false);
    if txs != [] {
      var front, last := txs[..|txs| - 1], txs[|txs| - 1];
      PrefixTxs(txs);
      var p1 := PassTxs(bch, p0, front);
      var p2 := PassVins(bch, p1, last.vins);
      VoutsKeepAborted(p2, last.txid, last.vouts);
      if p1.aborted {
        VinsKeepAborted(bch, p1, last.vins);
      }
      TxsKeepInv(bch, live, front);
      VinsKeepInv(bch, live, CreatedOps(front), Consumed(front), p1, last.vins);
      assert VinSet(last.vins) == VinOps(last);
      FreshOutputs(front, last);
      VoutsKeepInv(live, CreatedOps(front), Consumed(txs), p2, last);
      TxValues(live, txs, p1, p2);
    }
  }

  lemma FreshOutputs(front: seq<Tx>, last: Tx)
    requires forall tx :: tx in front ==> tx.txid != last.txid
    ensures VoutOps(last) !! CreatedOps(front)
  {
  }

  lemma TxValues(live: Live, txs: seq<Tx>, p1: Pass, p2: Pass)
    requires txs != [] && ValuesFrom(live, txs[..|txs| - 1], p1) && !p2.aborted
    requires p2.live == p1.live - (p1.live.Keys - p2.live.Keys)
    ensures ValuesFrom(live, txs, PassVouts(p2, txs[|txs| - 1].txid, txs[|txs| - 1].vouts))
  {
    var front, last := txs[..|txs| - 1], txs[|txs| - 1];
    VoutsOverlay(p2, last.txid, last.vouts);
    var q := PassVouts(p2, last.txid, last.vouts);
    assert last in txs;
    assert forall tx :: tx in front ==> tx in txs;
    forall op | op in q.live
      ensures (op in live && q.live[op] == live[op]) || Creates(txs, op, q.live[op])
    {
      if !FromVouts(last.txid, last.vouts, op, q.live[op]) {
        assert op in p1.live && q.live[op] == p1.live[op];
        if Creates(front, op, q.live[op]) {
          var tx, o :| tx in front && o in tx.vouts && op == OutPoint(tx.txid, o.n) && q.live[op] == o.utxo;
          assert tx in txs;
        }
      }
    }
  }

  lemma {:induction false} VinsSubmap(bch: bool, p: Pass, vins: seq<Vin>)
    ensures PassVins(bch, p, vins).live == p.live - (p.live.Keys - PassVins(bch, p, vins).live.Keys)
    decreases |vins|
  {
    if vins != [] { VinsSubmap(bch, p, vins[..|vins| - 1]); }
  }

  /** Whatever a pass leaves live, also when it stopped, was live before or is what the block creates. */
  lemma {:induction false} AnyValues(bch: bool, live: Live, txs: seq<Tx>)
    ensures ValuesFrom(live, txs, PassTxs(bch, Pass(live, {}, false), txs))
    decreases |txs|
  {
    if txs != [] {
      var front, last := txs[..|txs| - 1], txs[|txs| - 1];
      var p1 := PassTxs(bch, Pass(live, {}, false), front);
      var p2 := PassVins(bch, p1, last.vins);
      AnyValues(bch, live, front);
      VinsSubmap(bch, p1, last.vins);
      if p2.aborted {
        AbortedKeepsLive(p2, last.txid, last.vouts);
        CreatesFront(txs);
      } else {
        TxValues(live, txs, p1, p2);
      }
    }
  }

  lemma CreatesFront(txs: seq<Tx>)
    requires txs != []
    ensures forall op, u :: Creates(txs[..|txs| - 1], op, u) ==> Creates(txs, op, u)
  {
    assert forall tx :: tx in txs[..|txs| - 1] ==> tx in txs;
  }

  lemma {:induction false} VoutsKeepAborted(p: Pass, txid: Txid, vouts: seq<Vout>)
    ensures PassVouts(p, txid, vouts).aborted == p.aborted
    decreases |vouts|
  {
    if vouts != [] { VoutsKeepAborted(p, txid, vouts[..|vouts| - 1]); }
  }

  lemma {:induction false} VinsKeepAborted(bch: bool, p: Pass, vins: seq<Vin>)
    requires p.aborted
    ensures PassVins(bch, p, vins).aborted
    decreases |vins|
  {
    if vins != [] { VinsKeepAborted(bch, p, vins[..|vins| - 1]); }
  }

  // ---- Main results ----

  /** However a valid block was processed, in whatever order it lists its transactions, the
      result is the ledger plus what the block creates minus what it consumes. */
  lemma BlockResult(bch: bool, h: History, txs: seq<Tx>)
    requires ValidBlock(h, txs) && h.live.Keys <= h.created
    requires !RunBlock(bch, h.live, txs).aborted
    ensures IsBlockResult(h.live, txs, RunBlock(bch, h.live, txs).live)
  {
    RepeatResult(bch, h.live, txs);
  }

  /** The formula determines the ledger. */
  lemma BlockResultUnique(live: Live, txs: seq<Tx>, a: Live, b: Live)
    requires WellFormedTxs(txs) && CreatedOps(txs) !! live.Keys
    requires IsBlockResult(live, txs, a) && IsBlockResult(live, txs, b)
    ensures a == b
  {
    forall op | op in a
      ensures a[op] == b[op]
    {
      assert op in b;
      if op !in live {
        assert Creates(txs, op, a[op]) && Creates(txs, op, b[op]);
        CreatesOne(txs, op, a[op], b[op]);
      } else if Creates(txs, op, a[op]) {
        CreatesMember(txs, op, a[op]);
      } else if Creates(txs, op, b[op]) {
        CreatesMember(txs, op, b[op]);
      }
    }
  }

  lemma CreatesMember(txs: seq<Tx>, op: OutPoint, u: Utxo)
    requires Creates(txs, op, u)
    ensures op in CreatedOps(txs)
  {
    var tx, o :| tx in txs && o in tx.vouts && op == OutPoint(tx.txid, o.n) && u == o.utxo;
    assert op in VoutOps(tx);
  }

  lemma CreatesOne(txs: seq<Tx>, op: OutPoint, u1: Utxo, u2: Utxo)
    requires WellFormedTxs(txs) && Creates(txs, op, u1) && Creates(txs, op, u2)
    ensures u1 == u2
  {
    var t1, o1 :| t1 in txs && o1 in t1.vouts && op == OutPoint(t1.txid, o1.n) && u1 == o1.utxo;
    var t2, o2 :| t2 in txs && o2 in t2.vouts && op == OutPoint(t2.txid, o2.n) && u2 == o2.utxo;
    assert t1 == t2;
    assert DistinctIndices(t1);
    var i :| 0 <= i < |t1.vouts| && t1.vouts[i] == o1;
    var j :| 0 <= j < |t1.vouts| && t1.vouts[j] == o2;
    assert i == j;
  }

  lemma PermutationKeepsBlock(txs: seq<Tx>, perm: seq<Tx>)
    requires multiset(txs) == multiset(perm)
    ensures forall tx :: tx in txs <==> tx in perm
    ensures CreatedOps(txs) == CreatedOps(perm) && Consumed(txs) == Consumed(perm)
    ensures WellFormedTxs(txs) ==> WellFormedTxs(perm)
    ensures forall op, u :: Creates(txs, op, u) ==> Creates(perm, op, u)
  {
    forall tx
      ensures tx in txs <==> tx in perm
    {
      assert tx in txs <==> tx in multiset(txs);
      assert tx in perm <==> tx in multiset(perm);
    }
    forall op, u | Creates(txs, op, u)
      ensures Creates(perm, op, u)
    {
      var tx, o :| tx in txs && o in tx.vouts && op == OutPoint(tx.txid, o.n) && u == o.utxo;
      assert tx in perm;
    }
  }

  /** The BCH two-pass processing of any permutation of a block ends in the same ledger as the
      one-pass processing of the block in an order that the other chains accept. */
  lemma TwoPassIsOrderIndependent(h: History, txs: seq<Tx>, perm: seq<Tx>)
    requires ValidBlock(h, txs) && h.live.Keys <= h.created
    requires multiset(txs) == multiset(perm)
    requires !RunBlock(false, h.live, txs).aborted
    ensures !RunBlock(true, h.live, perm).aborted
    ensures RunBlock(true, h.live, perm).live == RunBlock(false, h.live, txs).live
  {
    PermutationKeepsBlock(txs, perm);
    PermutationKeepsBlock(perm, txs);
    BchNeverAborts(Pass(h.live, {}, false), perm);
    BlockResult(false, h, txs);
    BlockResult(true, h, perm);
    var a, b := RunBlock(false, h.live, txs).live, RunBlock(true, h.live, perm).live;
    assert IsBlockResult(h.live, txs, b);
    BlockResultUnique(h.live, txs, a, b);
  }

  /** Same for any two permutations, without assuming that a topological order exists. */
  lemma BchPermutations(h: History, txs: seq<Tx>, perm: seq<Tx>)
    requires ValidBlock(h, txs) && h.live.Keys <= h.created
    requires multiset(txs) == multiset(perm)
    ensures RunBlock(true, h.live, perm) == RunBlock(true, h.live, txs)
  {
    PermutationKeepsBlock(txs, perm);
    PermutationKeepsBlock(perm, txs);
    BchNeverAborts(Pass(h.live, {}, false), perm);
    BchNeverAborts(Pass(h.live, {}, false), txs);
    BlockResult(true, h, txs);
    BlockResult(true, h, perm);
    var a, b := RunBlock(true, h.live, txs).live, RunBlock(true, h.live, perm).live;
    assert IsBlockResult(h.live, txs, b);
    BlockResultUnique(h.live, txs, a, b);
  }

  lemma {:induction false} BchVinsNeverAbort(p: Pass, vins: seq<Vin>)
    requires !p.aborted
    ensures !PassVins(true, p, vins).aborted
    decreases |vins|
  {
    if vins != [] { BchVinsNeverAbort(p, vins[..|vins| - 1]); }
  }

  lemma {:induction false} BchNeverAborts(p: Pass, txs: seq<Tx>)
    requires !p.aborted
    ensures !PassTxs(true, p, txs).aborted
    decreases |txs|
  {
    if txs != [] {
      var front, last := txs[..|txs| - 1], txs[|txs| - 1];
      BchNeverAborts(p, front);
      BchVinsNeverAbort(PassTxs(true, p, front), last.vins);
      VoutsKeepAborted(PassVins(true, PassTxs(true, p, front), last.vins), last.txid, last.vouts);
    }
  }

  // ---- Deferred lookups ----

  /** An unresolved input whose output exists by now is still unspent. */
  ghost predicate DeferredAlive(live: Live, created: set<OutPoint>, p: Pass)
  {
    forall op :: op in p.deferred && op in live.Keys + created ==> op in p.live
  }

  lemma {:induction false} VinsKeepDeferred(bch: bool, live: Live, created: set<OutPoint>, consumed: set<OutPoint>,
      p: Pass, vins: seq<Vin>)
    requires PassInv(live, created, consumed, p) && DeferredAlive(live, created, p)
    requires VinSet(vins) !! consumed
    requires forall i, j :: 0 <= i < j < |vins| && !Skipped(vins[i]) ==> vins[i] != vins[j]
    requires !PassVins(bch, p, vins).aborted
    ensures DeferredAlive(live, created, PassVins(bch, p, vins))
    decreases |vins|
  {
    if vins != [] {
      var front, last := vins[..|vins| - 1], vins[|vins| - 1];
      assert vins == front + [last];
      assert forall v :: v in front ==> v in vins;
      assert VinSet(front) <= VinSet(vins);
      VinsKeepDeferred(bch, live, created, consumed, p, front);
      VinsKeepInv(bch, live, created, consumed, p, front);
      assert last in vins;
      assert !Skipped(last) ==> last.prev !in consumed + VinSet(front);
    }
  }

  lemma {:induction false} TxsKeepDeferred(live: Live, txs: seq<Tx>)
    requires WellFormedTxs(txs) && CreatedOps(txs) !! live.Keys
    ensures DeferredAlive(live, CreatedOps(txs), PassTxs(true, Pass(live, {}, false), txs))
    decreases |txs|
  {
    var p0 := Pass(live, {}, false);
    if txs != [] {
      var front, last := txs[..|txs| - 1], txs[|txs| - 1];
      PrefixTxs(txs);
      BchNeverAborts(p0, front);
      TxsKeepInv(true, live, front);
      TxsKeepDeferred(live, front);
      var p1 := PassTxs(true, p0, front);
      BchVinsNeverAbort(p1, last.vins);
      assert DistinctInputs(last);
      assert VinSet(last.vins) == VinOps(last);
      assert VinOps(last) !! Consumed(front);
      VinsKeepDeferred(true, live, CreatedOps(front), Consumed(front), p1, last.vins);
      VinsKeepInv(true, live, CreatedOps(front), Consumed(front), p1, last.vins);
      VoutsOverlay(PassVins(true, p1, last.vins), last.txid, last.vouts);
      assert VoutOps(last) == set o | o in last.vouts :: OutPoint(last.txid, o.n);
    }
  }

  /** Every lookup of the second pass finds its output if and only if the block is funded. */
  lemma DeferredLookupsHit(h: History, txs: seq<Tx>)
    requires ValidBlock(h, txs) && h.live.Keys <= h.created
    ensures PassTxs(true, Pass(h.live, {}, false), txs).deferred
         <= PassTxs(true, Pass(h.live, {}, false), txs).live.Keys
       <==> Funded(h.live, txs)
  {
    BchNeverAborts(Pass(h.live, {}, false), txs);
    TxsKeepInv(true, h.live, txs);
    TxsKeepDeferred(h.live, txs);
  }

  // ---- Runs of blocks ----

  lemma {:induction false} FoldAppend(bch: bool, h: History, a: seq<Block>, b: seq<Block>)
    ensures Fold(bch, Fold(bch, h, a), b) == Fold(bch, h, a + b)
    decreases |b|
  {
    hide After;
    if b == [] {
      assert a + b == a;
    } else {
      FoldAppend(bch, h, a, b[..|b| - 1]);
      assert (a + b)[..|a + b| - 1] == a + b[..|b| - 1];
    }
  }

  lemma {:induction false} ChainAppend(bch: bool, h: History, a: seq<Block>, b: seq<Block>)
    ensures ValidChain(bch, h, a + b) <==> ValidChain(bch, h, a) && ValidChain(bch, Fold(bch, h, a), b)
    ensures Completes(bch, h, a + b) <==> Completes(bch, h, a) && Completes(bch, Fold(bch, h, a), b)
    decreases |b|
  {
    if b == [] {
      assert a + b == a;
    } else {
      var front := b[..|b| - 1];
      ChainAppend(bch, h, a, front);
      FoldAppend(bch, h, a, front);
      assert (a + b)[..|a + b| - 1] == a + front;
      assert (a + b)[|a + b| - 1] == b[|b| - 1];
    }
  }

  lemma {:induction false} ChainPrefix(bch: bool, h: History, blocks: seq<Block>, n: nat)
    requires n <= |blocks|
    ensures ValidChain(bch, h, blocks) ==> ValidChain(bch, h, blocks[..n])
    ensures Completes(bch, h, blocks) ==> Completes(bch, h, blocks[..n])
  {
    assert blocks == blocks[..n] + blocks[n..];
    ChainAppend(bch, h, blocks[..n], blocks[n..]);
  }

  lemma BlockKeepsHistory(bch: bool, h: History, txs: seq<Tx>)
    requires ValidBlock(h, txs) && h.live.Keys <= h.created
    requires !RunBlock(bch, h.live, txs).aborted
    ensures After(bch, h, txs).live.Keys <= After(bch, h, txs).created
  {
    BlockResult(bch, h, txs);
  }

  // ---- Processing a block twice ----

  lemma {:induction false} VinsFound(p: Pass, vins: seq<Vin>)
    requires !PassVins(false, p, vins).aborted
    ensures VinSet(vins) <= p.live.Keys && PassVins(false, p, vins).live.Keys <= p.live.Keys
    decreases |vins|
  {
    if vins != [] {
      var front, last := vins[..|vins| - 1], vins[|vins| - 1];
      VinsFound(p, front);
      assert vins == front + [last];
    }
  }

  /** Off BCH, every consumed output was there or was created by the block. */
  lemma {:induction false} CompletedIsFunded(live: Live, txs: seq<Tx>)
    requires !PassTxs(false, Pass(live, {}, false), txs).aborted
    ensures Consumed(txs) <= live.Keys + CreatedOps(txs)
    ensures PassTxs(false, Pass(live, {}, false), txs).live.Keys <= live.Keys + CreatedOps(txs)
    decreases |txs|
  {
    if txs != [] {
      var front, last := txs[..|txs| - 1], txs[|txs| - 1];
      var p1 := PassTxs(false, Pass(live, {}, false), front);
      var p2 := PassVins(false, p1, last.vins);
      VoutsKeepAborted(p2, last.txid, last.vouts);
      if p1.aborted {
        VinsKeepAborted(false, p1, last.vins);
      }
      CompletedIsFunded(live, front);
      VinsFound(p1, last.vins);
      VoutsOverlay(p2, last.txid, last.vouts);
      PrefixOps(txs);
      assert VinSet(last.vins) == VinOps(last);
      assert VoutOps(last) == set o | o in last.vouts :: OutPoint(last.txid, o.n);
    }
  }

  /** What the first run had live and did not find in its initial ledger, the second run has too. */
  ghost predicate Follows(live: Live, p: Pass, q: Pass)
  {
    !q.aborted && forall op :: op in p.live && op !in live ==> op in q.live
  }

  lemma {:induction false} VinsFollow(live: Live, p: Pass, q: Pass, vins: seq<Vin>)
    requires Follows(live, p, q) && VinSet(vins) !! live.Keys && !PassVins(false, p, vins).aborted
    ensures Follows(live, PassVins(false, p, vins), PassVins(false, q, vins))
    decreases |vins|
  {
    if vins != [] {
      var front, last := vins[..|vins| - 1], vins[|vins| - 1];
      assert vins == front + [last];
      assert VinSet(vins) == VinSet(front) + (if Skipped(last) then {} else {last.prev});
      VinsFollow(live, p, q, front);
    }
  }

  lemma {:induction false} TxsFollow(live: Live, again: Live, txs: seq<Tx>)
    requires Consumed(txs) !! live.Keys && !PassTxs(false, Pass(live, {}, false), txs).aborted
    ensures Follows(live, PassTxs(false, Pass(live, {}, false), txs), PassTxs(false, Pass(again, {}, false), txs))
    decreases |txs|
  {
    if txs != [] {
      var front, last := txs[..|txs| - 1], txs[|txs| - 1];
      var p1, q1 := PassTxs(false, Pass(live, {}, false), front), PassTxs(false, Pass(again, {}, false), front);
      var p2, q2 := PassVins(false, p1, last.vins), PassVins(false, q1, last.vins);
      VoutsKeepAborted(p2, last.txid, last.vouts);
      if p1.aborted {
        VinsKeepAborted(false, p1, last.vins);
      }
      PrefixOps(txs);
      assert VinSet(last.vins) == VinOps(last);
      TxsFollow(live, again, front);
      VinsFollow(live, p1, q1, last.vins);
      VoutsOverlay(p2, last.txid, last.vouts);
      VoutsOverlay(q2, last.txid, last.vouts);
    }
  }

  lemma SecondPass(live: Live, txs: seq<Tx>, p: Pass)
    requires PassInv(live, CreatedOps(txs), Consumed(txs), p) && ValuesFrom(live, txs, p)
    ensures IsBlockResult(live, txs, p.live - p.deferred)
  {
    hide CreatedOps, Consumed, Creates;
    assert (p.live - p.deferred).Keys == (live.Keys + CreatedOps(txs)) - Consumed(txs);
  }

  /** Handled on any ledger without what it creates and consumes itself, a block adds and removes the same. */
  lemma RepeatResult(bch: bool, live: Live, txs: seq<Tx>)
    requires WellFormedTxs(txs) && OwnNotLive(live, txs)
    requires !RunBlock(bch, live, txs).aborted
    ensures IsBlockResult(live, txs, RunBlock(bch, live, txs).live)
  {
    hide PassTxs, CreatedOps, Consumed, Creates, WellFormedTxs, OwnNotLive;
    TxsKeepInv(bch, live, txs);
    SecondPass(live, txs, PassTxs(bch, Pass(live, {}, false), txs));
  }

  /** On every chain: a block handled a second time without a give-up changes nothing. */
  lemma HandledTwice(bch: bool, h: History, txs: seq<Tx>)
    requires ValidBlock(h, txs) && h.live.Keys <= h.created
    requires !RunBlock(bch, h.live, txs).aborted
    requires !RunBlock(bch, RunBlock(bch, h.live, txs).live, txs).aborted
    ensures RunBlock(bch, RunBlock(bch, h.live, txs).live, txs).live == RunBlock(bch, h.live, txs).live
  {
    var once := RunBlock(bch, h.live, txs).live;
    BlockResult(bch, h, txs);
    OwnGone(h.live, txs, once);
    RepeatResult(bch, once, txs);
    hide RunBlock;
    SameResult(h.live, txs, once, RunBlock(bch, once, txs).live);
  }

  lemma OwnGone(live: Live, txs: seq<Tx>, once: Live)
    requires IsBlockResult(live, txs, once)
    ensures OwnNotLive(once, txs)
  {
  }

  lemma SameResult(live: Live, txs: seq<Tx>, once: Live, twice: Live)
    requires WellFormedTxs(txs) && CreatedOps(txs) !! live.Keys
    requires IsBlockResult(live, txs, once) && IsBlockResult(once, txs, twice)
    ensures twice == once
  {
    hide WellFormedTxs;
    assert twice.Keys == once.Keys;
    forall op | op in twice ensures twice[op] == once[op] {
      assert op in once;
      if Creates(txs, op, twice[op]) {
        CreatesMember(txs, op, twice[op]);
        CreatesOne(txs, op, twice[op], once[op]);
      }
    }
  }

  /** Off BCH, handling a completed block a second time stops the collector exactly when the block spends an
      output older than itself. */
  lemma SecondAborts(h: History, txs: seq<Tx>)
    requires ValidBlock(h, txs) && h.live.Keys <= h.created
    requires !RunBlock(false, h.live, txs).aborted
    ensures RunBlock(false, RunBlock(false, h.live, txs).live, txs).aborted <==> Consumed(txs) * h.live.Keys != {}
  {
    var again := RunBlock(false, h.live, txs).live;
    BlockResult(false, h, txs);
    if Consumed(txs) * h.live.Keys == {} {
      assert forall op :: op in Consumed(txs) && op in h.live ==> op in Consumed(txs) * h.live.Keys;
      TxsFollow(h.live, again, txs);
    }
    if !RunBlock(false, again, txs).aborted {
      CompletedIsFunded(again, txs);
      assert forall op :: op in Consumed(txs) ==> op !in h.live;
    }
  }

  // ---- A block that made the collector give up ----

  lemma {:induction false} DefersNothing(p: Pass, vins: seq<Vin>)
    ensures PassVins(false, p, vins).deferred == p.deferred
    decreases |vins|
  {
    if vins != [] { DefersNothing(p, vins[..|vins| - 1]); }
  }

  lemma {:induction false} VoutsDeferNothing(p: Pass, txid: Txid, vouts: seq<Vout>)
    ensures PassVouts(p, txid, vouts).deferred == p.deferred
    decreases |vouts|
  {
    if vouts != [] { VoutsDeferNothing(p, txid, vouts[..|vouts| - 1]); }
  }

  lemma {:induction false} AbortedDefersNothing(bch: bool, live: Live, txs: seq<Tx>)
    requires PassTxs(bch, Pass(live, {}, false), txs).aborted
    ensures !bch && PassTxs(bch, Pass(live, {}, false), txs).deferred == {}
  {
    if bch {
      BchNeverAborts(Pass(live, {}, false), txs);
    }
    TxsDeferNothing(Pass(live, {}, false), txs);
  }

  lemma {:induction false} TxsDeferNothing(p: Pass, txs: seq<Tx>)
    ensures PassTxs(false, p, txs).deferred == p.deferred
    decreases |txs|
  {
    if txs != [] {
      var front, last := txs[..|txs| - 1], txs[|txs| - 1];
      TxsDeferNothing(p, front);
      DefersNothing(PassTxs(false, p, front), last.vins);
      VoutsDeferNothing(PassVins(false, PassTxs(false, p, front), last.vins), last.txid, last.vouts);
    }
  }

  /** The input a pass stops at, and what it has done until then. */
  lemma {:induction false} FindMissing(p: Pass, vins: seq<Vin>) returns (j: nat)
    requires !p.aborted && PassVins(false, p, vins).aborted
    ensures j < |vins| && !Skipped(vins[j])
    ensures var q := PassVins(false, p, vins[..j]);
      !q.aborted && vins[j].prev !in q.live && PassVins(false, p, vins).live == q.live
    decreases |vins|
  {
    var n := |vins| - 1;
    if PassVins(false, p, vins[..n]).aborted {
      j := FindMissing(p, vins[..n]);
      assert vins[..n][..j] == vins[..j];
    } else {
      j := n;
    }
  }

  lemma {:induction false} VinsStop(p: Pass, vins: seq<Vin>, j: nat)
    requires j < |vins| && !Skipped(vins[j]) && vins[j].prev !in p.live
    ensures PassVins(false, p, vins).aborted
    decreases |vins|
  {
    assert vins[j].prev in VinSet(vins);
    if !PassVins(false, p, vins).aborted { VinsFound(p, vins); }
  }

  lemma {:induction false} AbortedKeepsLive(p: Pass, txid: Txid, vouts: seq<Vout>)
    requires p.aborted
    ensures PassVouts(p, txid, vouts) == p
    decreases |vouts|
  {
    if vouts != [] { AbortedKeepsLive(p, txid, vouts[..|vouts| - 1]); }
  }

  lemma {:induction false} AbortedVinsKeepLive(p: Pass, vins: seq<Vin>)
    requires p.aborted
    ensures PassVins(false, p, vins) == p
    decreases |vins|
  {
    if vins != [] { AbortedVinsKeepLive(p, vins[..|vins| - 1]); }
  }

  /** The missing output was neither live before the block nor created by a transaction listed earlier. */
  lemma MissingFromStart(live: Live, txs: seq<Tx>, j: nat)
    requires WellFormedTxs(txs) && CreatedOps(txs) !! live.Keys && txs != []
    requires var p := PassTxs(false, Pass(live, {}, false), txs[..|txs| - 1]);
      var vins := txs[|txs| - 1].vins;
      && !p.aborted && j < |vins| && !Skipped(vins[j])
      && !PassVins(false, p, vins[..j]).aborted && vins[j].prev !in PassVins(false, p, vins[..j]).live
    ensures txs[|txs| - 1].vins[j].prev !in live.Keys + CreatedOps(txs[..|txs| - 1])
  {
    var front, last := txs[..|txs| - 1], txs[|txs| - 1];
    var p := PassTxs(false, Pass(live, {}, false), front);
    PrefixTxs(txs);
    TxsKeepInv(false, live, front);
    VinsKeepInv(false, live, CreatedOps(front), Consumed(front), p, last.vins[..j]);
    NotListedEarlier(txs, j);
  }

  /** No output is spent by two inputs of a block. */
  lemma NotListedEarlier(txs: seq<Tx>, j: nat)
    requires WellFormedTxs(txs) && txs != [] && j < |txs[|txs| - 1].vins| && !Skipped(txs[|txs| - 1].vins[j])
    ensures txs[|txs| - 1].vins[j].prev !in Consumed(txs[..|txs| - 1]) + VinSet(txs[|txs| - 1].vins[..j])
  {
    var last := txs[|txs| - 1];
    PrefixTxs(txs);
    assert last.vins[j].prev in VinOps(last);
    forall tx | tx in txs[..|txs| - 1] ensures last.vins[j].prev !in VinOps(tx) {
      assert tx in txs && tx != last;
    }
    assert DistinctInputs(last);
    forall i | 0 <= i < j && !Skipped(last.vins[i]) ensures last.vins[i].prev != last.vins[j].prev {
      assert last.vins[i] != last.vins[j];
    }
  }

  /** The ledger after handling a block again and again. */
  function Again(bch: bool, live: Live, txs: seq<Tx>, n: nat): Live
  {
    if n == 0 then live else RunBlock(bch, Again(bch, live, txs, n - 1), txs).live
  }

  /** Transaction k spends an output that is not live and that no transaction listed before it creates. */
  ghost predicate Stuck(live: Live, txs: seq<Tx>, k: nat, x: OutPoint)
  {
    k < |txs| && x in VinOps(txs[k]) && x !in live && x !in CreatedOps(txs[..k])
  }

  /** A pass leaves nothing live but what was live and what it created. */
  lemma {:induction false} LiveWithin(live: Live, txs: seq<Tx>)
    ensures PassTxs(false, Pass(live, {}, false), txs).live.Keys <= live.Keys + CreatedOps(txs)
    decreases |txs|
  {
    if txs != [] {
      var front, last := txs[..|txs| - 1], txs[|txs| - 1];
      var p := PassTxs(false, Pass(live, {}, false), front);
      var q := PassVins(false, p, last.vins);
      LiveWithin(live, front);
      PrefixOps(txs);
      VinsShrink(p, last.vins);
      if q.aborted {
        AbortedKeepsLive(q, last.txid, last.vouts);
      } else {
        VoutsOverlay(q, last.txid, last.vouts);
        assert VoutOps(last) == set o | o in last.vouts :: OutPoint(last.txid, o.n);
      }
    }
  }

  lemma {:induction false} VinsShrink(p: Pass, vins: seq<Vin>)
    ensures PassVins(false, p, vins).live.Keys <= p.live.Keys
    decreases |vins|
  {
    if vins != [] { VinsShrink(p, vins[..|vins| - 1]); }
  }

  /** Such a transaction stops the pass, and what is missing is missing afterwards. */
  lemma {:induction false} StuckStops(live: Live, txs: seq<Tx>, k: nat, x: OutPoint)
    requires Stuck(live, txs, k, x)
    ensures var p := PassTxs(false, Pass(live, {}, false), txs); p.aborted && x !in p.live
    decreases |txs|
  {
    var front, last := txs[..|txs| - 1], txs[|txs| - 1];
    var p := PassTxs(false, Pass(live, {}, false), front);
    if k < |front| {
      assert front[..k] == txs[..k];
      StuckStops(live, front, k, x);
      AbortedVinsKeepLive(p, last.vins);
    } else {
      LiveWithin(live, front);
      VinsShrink(p, last.vins);
      if p.aborted {
        AbortedVinsKeepLive(p, last.vins);
      } else {
        StopsAt(p, last, x);
      }
    }
    AbortedKeepsLive(PassVins(false, p, last.vins), last.txid, last.vouts);
  }

  lemma StopsAt(p: Pass, tx: Tx, x: OutPoint)
    requires x in VinOps(tx) && x !in p.live
    ensures PassVins(false, p, tx.vins).aborted
  {
    var j :| 0 <= j < |tx.vins| && !Skipped(tx.vins[j]) && tx.vins[j].prev == x;
    VinsStop(p, tx.vins, j);
  }

  lemma {:induction false} StuckForGood(live: Live, txs: seq<Tx>, k: nat, x: OutPoint, n: nat)
    requires Stuck(live, txs, k, x)
    ensures Stuck(Again(false, live, txs, n), txs, k, x)
    ensures RunBlock(false, Again(false, live, txs, n), txs).aborted
  {
    if n > 0 {
      StuckForGood(live, txs, k, x, n - 1);
      StuckStops(Again(false, live, txs, n - 1), txs, k, x);
    }
    StuckStops(Again(false, live, txs, n), txs, k, x);
  }

  /** A block that stops the pass has such a transaction. */
  lemma {:induction false} FindStuck(live: Live, txs: seq<Tx>) returns (k: nat, x: OutPoint)
    requires WellFormedTxs(txs) && CreatedOps(txs) !! live.Keys
    requires PassTxs(false, Pass(live, {}, false), txs).aborted
    ensures Stuck(live, txs, k, x)
    decreases |txs|
  {
    hide WellFormedTxs, CreatedOps, PassVins;
    var front, last := txs[..|txs| - 1], txs[|txs| - 1];
    var p := PassTxs(false, Pass(live, {}, false), front);
    PrefixTxs(txs);
    VoutsKeepAborted(PassVins(false, p, last.vins), last.txid, last.vouts);
    if p.aborted {
      k, x := FindStuck(live, front);
      assert front[..k] == txs[..k];
    } else {
      var j := FindMissing(p, last.vins);
      MissingFromStart(live, txs, j);
      k, x := |front|, last.vins[j].prev;
    }
  }

  /** Off BCH, a block that made the collector give up does so every time it is handled again, on the ledger
      that all the times before left behind: with its first part on disk no number of restarts gets past it. */
  lemma GivesUpForGood(h: History, txs: seq<Tx>, n: nat)
    requires ValidBlock(h, txs) && h.live.Keys <= h.created
    requires RunBlock(false, h.live, txs).aborted
    ensures RunBlock(false, Again(false, h.live, txs, n), txs).aborted
  {
    var k, x := FindStuck(h.live, txs);
    StuckForGood(h.live, txs, k, x, n);
  }

  lemma {:induction false} AgainFrom(bch: bool, live: Live, txs: seq<Tx>, n: nat)
    ensures Again(bch, live, txs, n + 1) == Again(bch, RunBlock(bch, live, txs).live, txs, n)
  {
    if n > 0 { AgainFrom(bch, live, txs, n - 1); }
  }

  /** A completed block has a transaction that stops every later handling when it spends an older output. */
  lemma FindOlder(h: History, txs: seq<Tx>) returns (k: nat, x: OutPoint)
    requires ValidBlock(h, txs) && h.live.Keys <= h.created
    requires !RunBlock(false, h.live, txs).aborted && Consumed(txs) * h.live.Keys != {}
    ensures Stuck(RunBlock(false, h.live, txs).live, txs, k, x)
  {
    x :| x in Consumed(txs) * h.live.Keys;
    var tx :| tx in txs && x in VinOps(tx);
    k :| 0 <= k < |txs| && txs[k] == tx;
    BlockResult(false, h, txs);
    assert CreatedOps(txs[..k]) <= CreatedOps(txs) by { assert forall t :: t in txs[..k] ==> t in txs; }
  }

  /** May a completed block be handled again? */
  predicate Repeatable(bch: bool, live: Live, txs: seq<Tx>) { bch || Consumed(txs) * live.Keys == {} }

  /** A completed block handled any number of times more: when it may be, nothing ever changes. */
  lemma {:induction false} RepeatedIsOnce(bch: bool, h: History, txs: seq<Tx>, n: nat)
    requires ValidBlock(h, txs) && h.live.Keys <= h.created
    requires !RunBlock(bch, h.live, txs).aborted && Repeatable(bch, h.live, txs)
    ensures Again(bch, h.live, txs, n + 1) == RunBlock(bch, h.live, txs).live
    ensures !RunBlock(bch, Again(bch, h.live, txs, n + 1), txs).aborted
  {
    var once := RunBlock(bch, h.live, txs).live;
    if bch {
      BchNeverAborts(Pass(once, {}, false), txs);
    } else {
      SecondAborts(h, txs);
    }
    hide RunBlock;
    if n == 0 {
      assert Again(bch, h.live, txs, 1) == RunBlock(bch, Again(bch, h.live, txs, 0), txs).live;
    } else {
      RepeatedIsOnce(bch, h, txs, n - 1);
      HandledTwice(bch, h, txs);
    }
  }

  /** Off BCH, handling a completed block once more stops the collector, the first time and every time after
      that, exactly when the block spends an output older than itself. */
  lemma ReplayAborts(h: History, txs: seq<Tx>, n: nat)
    requires ValidBlock(h, txs) && h.live.Keys <= h.created
    requires !RunBlock(false, h.live, txs).aborted
    ensures RunBlock(false, Again(false, h.live, txs, n + 1), txs).aborted <==> Consumed(txs) * h.live.Keys != {}
  {
    if Consumed(txs) * h.live.Keys == {} {
      RepeatedIsOnce(false, h, txs, n);
    } else {
      var k, x := FindOlder(h, txs);
      StuckForGood(RunBlock(false, h.live, txs).live, txs, k, x, n);
      AgainFrom(false, h.live, txs, n);
    }
  }

  // ---- A block handed over again ----

  /** The ledger as it would be after a block without what the block created. */
  function Rewound(h: History, txs: seq<Tx>): History
  {
    History(h.live - Consumed(txs), h.created, h.spent)
  }

  /** What a block left live of its own. */
  function OwnOutputs(bch: bool, h: History, txs: seq<Tx>): Live { After(bch, h, txs).live - h.live.Keys }

  lemma RewoundParts(bch: bool, h: History, txs: seq<Tx>)
    requires ValidBlock(h, txs) && h.live.Keys <= h.created && !RunBlock(bch, h.live, txs).aborted
    ensures ValidBlock(Rewound(h, txs), txs) && Rewound(h, txs).live.Keys <= h.created
    ensures OwnOutputs(bch, h, txs).Keys == CreatedOps(txs) - Consumed(txs)
    ensures OwnOutputs(bch, h, txs).Keys !! Rewound(h, txs).live.Keys
    ensures forall op :: op in OwnOutputs(bch, h, txs) ==> Creates(txs, op, OwnOutputs(bch, h, txs)[op])
    ensures Rewound(h, txs).live + OwnOutputs(bch, h, txs) == After(bch, h, txs).live
  {
    hide RunBlock, WellFormedTxs;
    BlockResult(bch, h, txs);
    OwnSplit(h.live, txs, After(bch, h, txs).live);
  }

  lemma OwnSplit(live: Live, txs: seq<Tx>, once: Live)
    requires IsBlockResult(live, txs, once) && CreatedOps(txs) !! live.Keys
    ensures var own := once - live.Keys;
      && own.Keys == CreatedOps(txs) - Consumed(txs)
      && (forall op :: op in own ==> Creates(txs, op, own[op]))
      && (live - Consumed(txs)) + own == once
  {
    forall op | op in once && op in live ensures once[op] == live[op] {
      if Creates(txs, op, once[op]) { CreatesMember(txs, op, once[op]); }
    }
    hide Creates, Consumed, CreatedOps;
    assert ((live - Consumed(txs)) + (once - live.Keys)).Keys == once.Keys;
  }

  /** Handling the block on that ledger ends where the first time did, and gives up exactly when it may not be
      handled again. */
  lemma RewoundRun(bch: bool, h: History, txs: seq<Tx>)
    requires ValidBlock(h, txs) && h.live.Keys <= h.created && !RunBlock(bch, h.live, txs).aborted
    ensures !RunBlock(bch, Rewound(h, txs).live, txs).aborted <==> Repeatable(bch, h.live, txs)
    ensures Repeatable(bch, h.live, txs) ==> After(bch, Rewound(h, txs), txs) == After(bch, h, txs)
  {
    var g := Rewound(h, txs);
    if bch {
      BchNeverAborts(Pass(g.live, {}, false), txs);
    } else if Consumed(txs) * h.live.Keys == {} {
      MinusNothing(h.live, Consumed(txs));
    } else {
      RewoundStuck(h, txs);
    }
    if Repeatable(bch, h.live, txs) { RewoundResult(bch, h, txs); }
    hide RunBlock;
  }

  lemma MinusNothing(live: Live, ops: set<OutPoint>)
    requires ops * live.Keys == {}
    ensures live - ops == live
  {
    assert forall op :: op in live && op in ops ==> op in ops * live.Keys;
  }

  lemma RewoundStuck(h: History, txs: seq<Tx>)
    requires ValidBlock(h, txs) && h.live.Keys <= h.created && Consumed(txs) * h.live.Keys != {}
    ensures RunBlock(false, Rewound(h, txs).live, txs).aborted
  {
    var x :| x in Consumed(txs) * h.live.Keys;
    var tx :| tx in txs && x in VinOps(tx);
    var k :| 0 <= k < |txs| && txs[k] == tx;
    assert CreatedOps(txs[..k]) <= CreatedOps(txs) by { assert forall t :: t in txs[..k] ==> t in txs; }
    StuckStops(Rewound(h, txs).live, txs, k, x);
  }

  lemma RewoundResult(bch: bool, h: History, txs: seq<Tx>)
    requires ValidBlock(h, txs) && h.live.Keys <= h.created && !RunBlock(bch, h.live, txs).aborted
    requires !RunBlock(bch, Rewound(h, txs).live, txs).aborted
    ensures RunBlock(bch, Rewound(h, txs).live, txs).live == RunBlock(bch, h.live, txs).live
  {
    hide RunBlock, WellFormedTxs, Creates;
    var g := Rewound(h, txs);
    BlockResult(bch, h, txs);
    BlockResult(bch, g, txs);
    SameFromLess(h.live, txs, RunBlock(bch, g.live, txs).live);
    BlockResultUnique(h.live, txs, RunBlock(bch, g.live, txs).live, RunBlock(bch, h.live, txs).live);
  }

  lemma SameFromLess(live: Live, txs: seq<Tx>, after: Live)
    requires IsBlockResult(live - Consumed(txs), txs, after)
    ensures IsBlockResult(live, txs, after)
  {
  }

  // ---- Which outputs survive a stretch of blocks ----

  function ConsumedBy(blocks: seq<Block>): set<OutPoint>
  {
    if blocks == [] then {} else ConsumedBy(blocks[..|blocks| - 1]) + Consumed(blocks[|blocks| - 1].txs)
  }

  /** A live output stays live exactly when no block consumes it. */
  lemma {:induction false} Survives(bch: bool, h: History, blocks: seq<Block>, op: OutPoint)
    requires ValidChain(bch, h, blocks) && Completes(bch, h, blocks) && h.live.Keys <= h.created && op in h.live
    ensures op in Fold(bch, h, blocks).live <==> op !in ConsumedBy(blocks)
    ensures h.created <= Fold(bch, h, blocks).created && Fold(bch, h, blocks).live.Keys <= Fold(bch, h, blocks).created
    decreases |blocks|
  {
    if blocks != [] {
      var front, txs := blocks[..|blocks| - 1], blocks[|blocks| - 1].txs;
      Survives(bch, h, front, op);
      BlockResult(bch, Fold(bch, h, front), txs);
      BlockKeepsHistory(bch, Fold(bch, h, front), txs);
      hide RunBlock, WellFormedTxs, Creates;
    }
  }

  lemma {:induction false} ConsumedPart(blocks: seq<Block>, n: nat)
    requires n <= |blocks|
    ensures ConsumedBy(blocks[..n]) <= ConsumedBy(blocks)
    decreases |blocks|
  {
    if n < |blocks| {
      ConsumedPart(blocks[..|blocks| - 1], n);
      assert blocks[..|blocks| - 1][..n] == blocks[..n];
    } else {
      assert blocks[..n] == blocks;
    }
  }

  // ---- The ledger read off the inputs and outputs themselves ----

  /** An input that is no coinbase and whose transaction id is not all zeros names the output it spends. */
  ghost predicate Names(tx: Tx, op: OutPoint)
  {
    Spend(op) in tx.vins && exists i :: 0 <= i < |op.txid| && op.txid[i] != '0'
  }

  ghost predicate Lists(tx: Tx, op: OutPoint, u: Utxo) { op.txid == tx.txid && Vout(op.vout, u) in tx.vouts }

  ghost predicate BlockNames(txs: seq<Tx>, op: OutPoint) { exists tx :: tx in txs && Names(tx, op) }

  ghost predicate BlockLists(txs: seq<Tx>, op: OutPoint, u: Utxo) { exists tx :: tx in txs && Lists(tx, op, u) }

  /** Some transaction names an output that is neither live nor listed by a transaction before it. */
  ghost predicate NamesMissing(live: Live, txs: seq<Tx>)
  {
    exists k, op :: 0 <= k < |txs| && Names(txs[k], op) && op !in live && forall u :: !BlockLists(txs[..k], op, u)
  }

  lemma NamesIsConsumed(tx: Tx, op: OutPoint)
    ensures Names(tx, op) <==> op in VinOps(tx)
  {
    if exists i :: 0 <= i < |op.txid| && op.txid[i] != '0' {
      assert !Skipped(Spend(op));
    } else {
      assert op.txid == Keys.ZERO_TXID;
    }
    if op in VinOps(tx) {
      var v :| v in tx.vins && !Skipped(v) && v.prev == op;
      assert v == Spend(op);
    }
  }

  lemma BlockNamesConsumed(txs: seq<Tx>, op: OutPoint)
    ensures BlockNames(txs, op) <==> op in Consumed(txs)
  {
    forall tx ensures Names(tx, op) <==> op in VinOps(tx) { NamesIsConsumed(tx, op); }
  }

  lemma BlockListsCreated(txs: seq<Tx>, op: OutPoint, u: Utxo)
    ensures BlockLists(txs, op, u) <==> Creates(txs, op, u)
    ensures op in CreatedOps(txs) <==> exists v :: BlockLists(txs, op, v)
  {
    forall v ensures BlockLists(txs, op, v) <==> Creates(txs, op, v) {
      if Creates(txs, op, v) {
        var tx, o :| tx in txs && o in tx.vouts && op == OutPoint(tx.txid, o.n) && v == o.utxo;
        assert Lists(tx, op, v);
      }
    }
    if op in CreatedOps(txs) {
      var tx, o :| tx in txs && o in tx.vouts && op == OutPoint(tx.txid, o.n);
      assert Creates(txs, op, o.utxo);
    } else if v :| BlockLists(txs, op, v) {
      CreatesMember(txs, op, v);
    }
  }

  /** A transaction is stuck exactly when it names such an output. */
  lemma StuckNames(live: Live, txs: seq<Tx>, k: nat, op: OutPoint)
    requires k < |txs|
    ensures Stuck(live, txs, k, op) <==>
      Names(txs[k], op) && op !in live && forall u :: !BlockLists(txs[..k], op, u)
  {
    NamesIsConsumed(txs[k], op);
    BlockListsCreated(txs[..k], op, Utxo(0, "", ""));
    hide Names, BlockLists, CreatedOps, VinOps;
  }

  /** A block gives up exactly when, off BCH, it names a missing output. */
  lemma AbortsWhenMissing(bch: bool, h: History, txs: seq<Tx>)
    requires ValidBlock(h, txs) && h.live.Keys <= h.created
    ensures RunBlock(bch, h.live, txs).aborted <==> !bch && NamesMissing(h.live, txs)
  {
    hide WellFormedTxs, PassTxs, Names, BlockLists, Consumed;
    if bch {
      BchNeverAborts(Pass(h.live, {}, false), txs);
    } else if RunBlock(bch, h.live, txs).aborted {
      var k, x := FindStuck(h.live, txs);
      StuckNames(h.live, txs, k, x);
    } else if NamesMissing(h.live, txs) {
      var k, op :| 0 <= k < |txs| && Names(txs[k], op) && op !in h.live && forall u :: !BlockLists(txs[..k], op, u);
      StuckNames(h.live, txs, k, op);
      StuckStops(h.live, txs, k, op);
    }
  }

  /** Otherwise an output is live afterwards exactly when it was before, or the block lists it, and no input of
      the block names it; it carries what it carried, or what it is listed with. */
  lemma LedgerAfterBlock(bch: bool, h: History, txs: seq<Tx>, op: OutPoint, u: Utxo)
    requires ValidBlock(h, txs) && h.live.Keys <= h.created && !RunBlock(bch, h.live, txs).aborted
    ensures var live := RunBlock(bch, h.live, txs).live;
      op in live && live[op] == u <==>
      ((op in h.live && h.live[op] == u) || BlockLists(txs, op, u)) && !BlockNames(txs, op)
  {
    BlockResult(bch, h, txs);
    BlockNamesConsumed(txs, op);
    BlockListsCreated(txs, op, u);
    var live := RunBlock(bch, h.live, txs).live;
    hide RunBlock;
    if op in live {
      if Creates(txs, op, live[op]) { CreatesMember(txs, op, live[op]); }
      if Creates(txs, op, live[op]) && Creates(txs, op, u) { CreatesOne(txs, op, live[op], u); }
    }
  }

  /** Named by none of the blocks from n on. */
  ghost predicate NeverNamed(blocks: seq<Block>, n: nat, op: OutPoint)
  {
    forall j :: n <= j < |blocks| ==> !BlockNames(blocks[j].txs, op)
  }

  /** Some block lists the output, and neither that block nor a later one names it. */
  ghost predicate ListedLast(blocks: seq<Block>, op: OutPoint, u: Utxo)
  {
    exists i :: 0 <= i < |blocks| && BlockLists(blocks[i].txs, op, u) && NeverNamed(blocks, i, op)
  }

  /** Over a whole chain: an output is unspent exactly when it was at the start and no block names it, or some
      block lists it and neither that block nor a later one names it. */
  lemma {:induction false} LedgerOfChain(bch: bool, h: History, blocks: seq<Block>, op: OutPoint, u: Utxo)
    requires ValidChain(bch, h, blocks) && Completes(bch, h, blocks) && h.live.Keys <= h.created
    ensures Fold(bch, h, blocks).live.Keys <= Fold(bch, h, blocks).created
    ensures var live := Fold(bch, h, blocks).live;
      op in live && live[op] == u <==>
      (op in h.live && h.live[op] == u && NeverNamed(blocks, 0, op)) || ListedLast(blocks, op, u)
    decreases |blocks|
  {
    if blocks != [] {
      var n := |blocks| - 1;
      hide RunBlock, ValidBlock, BlockLists, BlockNames, NeverNamed, ListedLast;
      LedgerOfChain(bch, h, blocks[..n], op, u);
      LedgerAfterBlock(bch, Fold(bch, h, blocks[..n]), blocks[n].txs, op, u);
      BlockKeepsHistory(bch, Fold(bch, h, blocks[..n]), blocks[n].txs);
      NamedLater(blocks, 0, op);
      ListedStep(blocks, op, u);
    }
  }

  lemma NamedLater(blocks: seq<Block>, i: nat, op: OutPoint)
    requires i < |blocks|
    ensures var n := |blocks| - 1;
      NeverNamed(blocks, i, op) <==> NeverNamed(blocks[..n], i, op) && !BlockNames(blocks[n].txs, op)
  {
    hide BlockNames;
    assert forall j :: 0 <= j < |blocks| - 1 ==> blocks[..|blocks| - 1][j] == blocks[j];
  }

  lemma ListedStep(blocks: seq<Block>, op: OutPoint, u: Utxo)
    requires blocks != []
    ensures var front, txs := blocks[..|blocks| - 1], blocks[|blocks| - 1].txs;
      ListedLast(blocks, op, u) <==> !BlockNames(txs, op) && (BlockLists(txs, op, u) || ListedLast(front, op, u))
  {
    var n := |blocks| - 1;
    hide BlockNames, BlockLists, NeverNamed;
    forall i: nat | i <= n
      ensures NeverNamed(blocks, i, op) <==> NeverNamed(blocks[..n], i, op) && !BlockNames(blocks[n].txs, op)
    {
      NamedLater(blocks, i, op);
    }
    if ListedLast(blocks[..n], op, u) && !BlockNames(blocks[n].txs, op) {
      var i :| 0 <= i < n && BlockLists(blocks[..n][i].txs, op, u) && NeverNamed(blocks[..n], i, op);
      assert BlockLists(blocks[i].txs, op, u) && NeverNamed(blocks, i, op);
    }
    if BlockLists(blocks[n].txs, op, u) && !BlockNames(blocks[n].txs, op) {
      NoneAfter(blocks[..n], op);
    }
    if ListedLast(blocks, op, u) && !BlockLists(blocks[n].txs, op, u) {
      var i :| 0 <= i < |blocks| && BlockLists(blocks[i].txs, op, u) && NeverNamed(blocks, i, op);
      assert BlockLists(blocks[..n][i].txs, op, u) && NeverNamed(blocks[..n], i, op);
    }
  }

  lemma NoneAfter(blocks: seq<Block>, op: OutPoint)
    ensures NeverNamed(blocks, |blocks|, op)
  {
  }
}
