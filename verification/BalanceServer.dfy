// The RPC queries over the address table (btc_collect/server.go), non-BTM branch.

module BalanceServer {
  import opened Chain
  import opened WriteBack
  import opened Options
  import Images
  import Keys
  import Sums
  import Base58

  /** BytesPrefix plus iterator: the entries whose key starts with the prefix. */
  function PrefixScan(db: Table, prefix: string): Table
  {
    map k | k in db && prefix <= k :: db[k]
  }

  function QueryPrefix(chain: string, address: string): string
    requires |address| >= 20
  {
    chain + address[..20] + "O"
  }

  /** The unspent outputs of one address, by their value. */
  ghost function Owned(live: Live, address: string): map<OutPoint, int>
  {
    map op | op in live && live[op].address == address :: live[op].value
  }

  ghost function Matching(datas: Table, address: string): map<string, int>
  {
    map k | k in datas && datas[k].address == address :: datas[k].value
  }

  lemma MatchingRemove(datas: Table, address: string, k: string)
    requires k in datas
    ensures Sums.SumMap(Matching(datas, address))
         == Sums.SumMap(Matching(datas - {k}, address)) + (if datas[k].address == address then datas[k].value else 0)
  {
    if datas[k].address == address {
      Sums.SumRemove(Matching(datas, address), k);
      assert Matching(datas, address) - {k} == Matching(datas - {k}, address);
    } else {
      assert Matching(datas, address) == Matching(datas - {k}, address);
    }
  }

  /** Every output of the address lies under the query prefix. */
  lemma UnderPrefix(chain: string, op: OutPoint, u: Utxo)
    requires |u.address| >= 20
    ensures QueryPrefix(chain, u.address) <= KeyFn(ByAddress, chain)(op, u)
  {
    var k := KeyFn(ByAddress, chain)(op, u);
    assert k == QueryPrefix(chain, u.address) + (op.txid + "I" + Keys.Itoa(op.vout));
  }

  /** The entries that pass the exact-address filter are, one to one, the outputs of the address,
      whatever other addresses share its first twenty characters. */
  lemma ScanIsOwned(chain: string, live: Live, db: Table, address: string)
    requires Images.IsImage(KeyFn(ByAddress, chain), live, db) && |address| >= 20
    ensures forall op :: op in Owned(live, address) ==>
      var k := KeyFn(ByAddress, chain)(op, live[op]);
      k in PrefixScan(db, QueryPrefix(chain, address)) && db[k] == live[op]
    ensures Sums.SumMap(Matching(PrefixScan(db, QueryPrefix(chain, address)), address))
        == Sums.SumMap(Owned(live, address))
  {
    var kf := KeyFn(ByAddress, chain);
    var scan := PrefixScan(db, QueryPrefix(chain, address));
    var m, t := Owned(live, address), Matching(scan, address);
    forall op | op in m
      ensures kf(op, live[op]) in scan && db[kf(op, live[op])] == live[op]
    {
      UnderPrefix(chain, op, live[op]);
    }
    KeyFnInjective(ByAddress, chain);
    var f := map op | op in m :: kf(op, live[op]);
    forall j | j in t
      ensures exists op :: op in f && f[op] == j
    {
      var op :| op in live && kf(op, live[op]) == j;
      assert op in f;
    }
    Sums.SumRename(m, t, f);
  }

  /** GetBalance: exactly the total of the address's unspent outputs. */
  method GetBalance(chain: string, db: Table, args: string, ghost live: Live) returns (balance: int)
    requires |args| >= 20
    requires Images.IsImage(KeyFn(ByAddress, chain), live, db)
    ensures balance == Sums.SumMap(Owned(live, args))
  {
    var datas := PrefixScan(db, QueryPrefix(chain, args));
    ghost var total := Sums.SumMap(Matching(datas, args));
    ScanIsOwned(chain, live, db, args);
    balance := 0;
    while datas != map[]
      invariant balance + Sums.SumMap(Matching(datas, args)) == total
      decreases |datas|
    {
      var k :| k in datas;
      MatchingRemove(datas, args, k);
      if datas[k].address == args {
        balance := balance + datas[k].value;
      }
      datas := datas - {k};
    }
    assert Matching(datas, args) == map[];
  }

  // ---- ListUnSpent ----

  /** 0.0001 in units of 10^-8. */
  const DUST_LIMIT: int := 10_000
  const MAX_REPLY: nat := 1500

  datatype Unspent = Unspent(txid: string, vout: int, address: string, scriptPubKey: string, value: int)

  predicate Listable(u: Utxo, address: string)
  {
    u.address == address && u.value > DUST_LIMIT
  }

  /** The address parts of its keys hold neither separator, so the keys can be split again. */
  ghost predicate CleanAddress(chain: string, address: string)
  {
    && |chain| <= 20 <= |address|
    && 'O' !in Keys.SearchedHead(chain, address)
    && 'I' !in Keys.SearchedHead(chain, address)
  }

  function Entry(op: OutPoint, u: Utxo): Unspent
  {
    Unspent(op.txid, if op.vout <= Keys.MAX_INT32 then op.vout else Keys.MAX_INT32, u.address, u.scriptPubKey, u.value)
  }

  /** What the program makes of the key of an output; None when the parser's slice stops it. */
  function Parsed(chain: string, op: OutPoint, u: Utxo): Option<Unspent>
  {
    match Keys.SplitAddrUtxoPrefix(KeyFn(ByAddress, chain)(op, u))
    case Panic => None
    case Parts(txid, vout) => Some(Unspent(txid, vout, u.address, u.scriptPubKey, u.value))
  }

  /** That is the output itself exactly when the address is clean and the index fits 32 bits. */
  lemma ParsedIsRight(chain: string, op: OutPoint, u: Utxo)
    requires |chain| <= 20 <= |u.address|
    ensures Parsed(chain, op, u) == Some(Unspent(op.txid, op.vout, u.address, u.scriptPubKey, u.value))
      <==> CleanAddress(chain, u.address) && op.vout <= Keys.MAX_INT32
  {
    Keys.SplitRoundTrip(chain, u.address, op.txid, op.vout);
    hide Keys.SplitAddrUtxoPrefix;
  }

  /** The unspent outputs of the address above 0.0001. */
  ghost function ListableOps(live: Live, address: string): set<OutPoint>
  {
    set op | op in live && live[op].address == address && live[op].value > 10_000
  }

  lemma SplitOfKey(chain: string, op: OutPoint, u: Utxo)
    requires CleanAddress(chain, u.address)
    ensures Keys.SplitAddrUtxoPrefix(KeyFn(ByAddress, chain)(op, u)) == Keys.Parts(Entry(op, u).txid, Entry(op, u).vout)
  {
    Keys.AddrKeyShape(chain, u.address, op.txid, op.vout);
    Keys.SplitIgnoresFirstTwenty(KeyFn(ByAddress, chain)(op, u));
    Keys.KeyAfterTwenty(chain, u.address, op.txid, op.vout);
    Keys.ItoaRoundTrip(op.vout);
    Keys.SplitCleanHead(Keys.SearchedHead(chain, u.address), op.txid, Keys.Itoa(op.vout));
  }

  ghost predicate Distinct(ops: seq<OutPoint>)
  {
    forall i, j :: 0 <= i < j < |ops| ==> ops[i] != ops[j]
  }

  lemma DistinctWithin(ops: seq<OutPoint>, all: set<OutPoint>)
    requires Distinct(ops) && Images.SetOf(ops) <= all
    ensures |ops| <= |all|
    ensures |ops| == |all| ==> Images.SetOf(ops) == all
  {
    Images.SetOfSize(ops);
    assert |all - Images.SetOf(ops)| == |all| - |Images.SetOf(ops)|;
  }

  /** What was picked so far are distinct listable outputs; every other one is still to be visited. */
  ghost predicate Listing(chain: string, live: Live, args: string, left: Table, picked: seq<OutPoint>)
  {
    var kf := KeyFn(ByAddress, chain);
    && Distinct(picked)
    && (forall i :: 0 <= i < |picked| ==>
          picked[i] in ListableOps(live, args) && kf(picked[i], live[picked[i]]) !in left)
    && (forall op :: op in ListableOps(live, args) ==> op in picked || kf(op, live[op]) in left)
    && (forall k :: k in left ==> exists op :: op in live && kf(op, live[op]) == k && left[k] == live[op])
  }

  /** The reply holds what was picked, each as its key parses. */
  ghost predicate Replies(chain: string, live: Live, picked: seq<OutPoint>, reply: seq<Unspent>)
  {
    && |reply| == |picked|
    && forall i :: 0 <= i < |picked| ==>
         picked[i] in live && Some(reply[i]) == Parsed(chain, picked[i], live[picked[i]])
  }

  lemma RepliesSnoc(chain: string, live: Live, picked: seq<OutPoint>, reply: seq<Unspent>, op: OutPoint, e: Unspent)
    requires Replies(chain, live, picked, reply) && op in live && Parsed(chain, op, live[op]) == Some(e)
    ensures Replies(chain, live, picked + [op], reply + [e])
  {
    hide Parsed;
  }

  lemma StartListing(chain: string, live: Live, db: Table, args: string)
    requires Images.IsImage(KeyFn(ByAddress, chain), live, db) && |args| >= 20
    ensures Listing(chain, live, args, PrefixScan(db, QueryPrefix(chain, args)), [])
  {
    ScanIsOwned(chain, live, db, args);
    forall op | op in ListableOps(live, args)
      ensures KeyFn(ByAddress, chain)(op, live[op]) in PrefixScan(db, QueryPrefix(chain, args))
    {
      assert op in Owned(live, args);
    }
  }

  lemma SkipEntry(chain: string, live: Live, args: string, left: Table, picked: seq<OutPoint>, k: string)
    requires Listing(chain, live, args, left, picked) && k in left && !Listable(left[k], args)
    ensures Listing(chain, live, args, left - {k}, picked)
  {
    KeyFnInjective(ByAddress, chain);
    var kf := KeyFn(ByAddress, chain);
    var at :| at in live && kf(at, live[at]) == k && left[k] == live[at];
    forall op | op in ListableOps(live, args) && op !in picked
      ensures kf(op, live[op]) in left - {k}
    {
      assert kf(op, live[op]) == k ==> op == at;
    }
  }

  lemma PickEntry(chain: string, live: Live, args: string, left: Table, picked: seq<OutPoint>, k: string)
    returns (op: OutPoint)
    requires Listing(chain, live, args, left, picked) && k in left && Listable(left[k], args)
    ensures op in ListableOps(live, args) && KeyFn(ByAddress, chain)(op, live[op]) == k && left[k] == live[op]
    ensures Listing(chain, live, args, left - {k}, picked + [op])
  {
    KeyFnInjective(ByAddress, chain);
    var kf := KeyFn(ByAddress, chain);
    op :| op in live && kf(op, live[op]) == k && left[k] == live[op];
    forall o | o in ListableOps(live, args)
      ensures o in picked + [op] || kf(o, live[o]) in left - {k}
    {
      assert kf(o, live[o]) == k ==> o == op;
    }
    assert op !in picked;
  }

  lemma EndListing(chain: string, live: Live, args: string, left: Table, picked: seq<OutPoint>)
    requires Listing(chain, live, args, left, picked)
    ensures |picked| <= |ListableOps(live, args)|
    ensures Distinct(picked) && Images.SetOf(picked) <= ListableOps(live, args)
    ensures left == map[] ==> |picked| == |ListableOps(live, args)|
    ensures |picked| == |ListableOps(live, args)| ==> Images.SetOf(picked) == ListableOps(live, args)
  {
    DistinctWithin(picked, ListableOps(live, args));
    Images.SetOfSize(picked);
    if left == map[] {
      assert Images.SetOf(picked) == ListableOps(live, args);
    }
  }

  /** Every entry of a reply is an output of the address. */
  lemma RepliesFit(chain: string, live: Live, args: string, picked: seq<OutPoint>, reply: seq<Unspent>)
    requires Replies(chain, live, picked, reply) && Images.SetOf(picked) <= ListableOps(live, args)
    ensures |reply| == |picked|
    ensures forall e :: e in reply ==>
      exists op :: op in ListableOps(live, args) && Some(e) == Parsed(chain, op, live[op])
    ensures CleanAddress(chain, args) ==> Stored(live, args, picked, reply)
  {
    hide Parsed, CleanAddress;
    forall i | 0 <= i < |picked|
      ensures picked[i] in ListableOps(live, args)
      ensures CleanAddress(chain, args) ==> reply[i] == Entry(picked[i], live[picked[i]])
    {
      assert picked[i] in Images.SetOf(picked);
      CleanNeverPanics(chain, live, args, picked[i]);
    }
  }

  /** A reply that lists everything met no key that stops it. */
  lemma AllParsed(chain: string, live: Live, args: string, picked: seq<OutPoint>, reply: seq<Unspent>)
    requires Replies(chain, live, picked, reply) && Images.SetOf(picked) == ListableOps(live, args)
    ensures forall op :: op in ListableOps(live, args) ==> Parsed(chain, op, live[op]).Some?
  {
    hide Parsed;
    forall op | op in ListableOps(live, args) ensures Parsed(chain, op, live[op]).Some? {
      assert op in Images.SetOf(picked);
      var i :| 0 <= i < |picked| && picked[i] == op;
    }
  }

  /** Each entry has the transaction id and index its output was stored under. */
  ghost predicate Stored(live: Live, args: string, picked: seq<OutPoint>, reply: seq<Unspent>)
  {
    && |picked| == |reply|
    && forall i :: 0 <= i < |picked| ==>
         picked[i] in ListableOps(live, args) && reply[i] == Entry(picked[i], live[picked[i]])
  }

  lemma CleanNeverPanics(chain: string, live: Live, args: string, op: OutPoint)
    requires op in ListableOps(live, args)
    ensures CleanAddress(chain, args) ==> Parsed(chain, op, live[op]) == Some(Entry(op, live[op]))
  {
    hide CleanAddress, Keys.SplitAddrUtxoPrefix;
    if CleanAddress(chain, args) { SplitOfKey(chain, op, live[op]); }
  }

  /** ListUnSpent: as many distinct outputs above the cut-off as there are, up to 1500, each as its key
      parses; all of them when they number at most 1500. A key that cannot be sliced stops the program. With a
      clean address that never happens, and each has the transaction id and index it was stored under. */
  method ListUnSpent(chain: string, db: Table, args: string, ghost live: Live)
    returns (r: Option<seq<Unspent>>, ghost picked: seq<OutPoint>)
    requires |args| >= 20
    requires Images.IsImage(KeyFn(ByAddress, chain), live, db)
    ensures r.None? ==> exists op :: op in ListableOps(live, args) && Parsed(chain, op, live[op]) == None
    ensures |ListableOps(live, args)| <= 1500 ==>
      (r.None? <==> exists op :: op in ListableOps(live, args) && Parsed(chain, op, live[op]) == None)
    ensures r.Some? ==> Replies(chain, live, picked, r.value)
    ensures r.Some? ==>
      |r.value| == if |ListableOps(live, args)| <= 1500 then |ListableOps(live, args)| else 1500
    ensures r.Some? ==> forall e :: e in r.value ==>
        exists op :: op in ListableOps(live, args) && Some(e) == Parsed(chain, op, live[op])
    ensures r.Some? ==> |picked| == |r.value| && Distinct(picked) && Images.SetOf(picked) <= ListableOps(live, args)
    ensures r.Some? && |ListableOps(live, args)| <= 1500 ==> Images.SetOf(picked) == ListableOps(live, args)
    ensures CleanAddress(chain, args) ==> r.Some? && Stored(live, args, picked, r.value)
  {
    hide Listing, Replies, KeyFn, Keys.SplitAddrUtxoPrefix, CleanAddress, Stored, Distinct, Images.SetOf;
    var left := PrefixScan(db, QueryPrefix(chain, args));
    StartListing(chain, live, db, args);
    var reply := [];
    picked := [];
    assert Replies(chain, live, [], []) by { NoReplies(chain, live); }
    while left != map[]
      invariant Listing(chain, live, args, left, picked) && Replies(chain, live, picked, reply)
      invariant |reply| < MAX_REPLY
      decreases |left|
    {
      var k :| k in left;
      if Listable(left[k], args) {
        ghost var op := PickEntry(chain, live, args, left, picked, k);
        var split := Keys.SplitAddrUtxoPrefix(k);
        if split.Panic? {
          CleanNeverPanics(chain, live, args, op);
          return None, picked;
        }
        var e := Unspent(split.txid, split.vout, left[k].address, left[k].scriptPubKey, left[k].value);
        RepliesSnoc(chain, live, picked, reply, op, e);
        reply := reply + [e];
        picked := picked + [op];
        left := left - {k};
        if |reply| >= MAX_REPLY {
          break;
        }
      } else {
        SkipEntry(chain, live, args, left, picked, k);
        left := left - {k};
      }
    }
    EndListing(chain, live, args, left, picked);
    RepliesFit(chain, live, args, picked, reply);
    if |ListableOps(live, args)| <= MAX_REPLY { AllParsed(chain, live, args, picked, reply); }
    r := Some(reply);
  }

  lemma NoReplies(chain: string, live: Live)
    ensures Replies(chain, live, [], [])
  {
  }

  /** Every address the collector derives from a multisig script is clean, so the keys of its
      outputs split back into transaction id and index. */
  lemma DerivedAddressIsClean(chain: string, data: seq<int>, magic: Base58.Byte, sha256: Base58.Hash,
      ripemd160: Base58.Hash)
    requires |chain| <= 20 && Base58.IsHash(sha256, 32) && Base58.IsHash(ripemd160, 20)
    ensures CleanAddress(chain, Base58.Encoded(Base58.AddressBytes(data, magic, sha256, ripemd160)))
  {
    var b := Base58.AddressBytes(data, magic, sha256, ripemd160);
    Base58.AddressDecodes(data, magic, sha256, ripemd160);
    var a := Base58.Encoded(b);
    var head := Keys.SearchedHead(chain, a);
    forall i | 0 <= i < |head|
      ensures head[i] != 'O' && head[i] != 'I'
    {
      assert head[i] == (chain + a[..20])[20 + i] == a[20 + i - |chain|];
      assert a[20 + i - |chain|] in a;
    }
  }
}
