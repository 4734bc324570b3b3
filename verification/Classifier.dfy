// Which transactions the Python collector records, and as what (btc_data_collector/collect_btc_block.py).
// Addresses and values of inputs come from the transactions they spend; values are whole numbers of the
// smallest unit.

module Classifier {
  import opened Options
  import opened Sums

  /** One input or output as the loops see it: does it count at all, and who pays or gets how much. */
  datatype Party = Party(counts: bool, address: string, value: int)

  /** An input of a BTC-like chain: a coinbase has no txid; some scripts have no address. */
  datatype SimIn = SimIn(hasTxid: bool, address: string, value: int)

  function PartyOfSimIn(i: SimIn): Party { Party(i.hasTxid && i.address != "", i.address, i.value) }

  /** An output of a BTC-like chain: the first address of the script, if it has any. */
  datatype SimOut = SimOut(addresses: seq<string>, value: int)

  function PartyOfSimOut(o: SimOut): Party
  {
    if o.addresses == [] then Party(false, "", o.value) else Party(true, o.addresses[0], o.value)
  }

  const BTM_ASSET := "ffffffffffffffffffffffffffffffffffffffffffffffffffffffffffffffff"

  /** A BTM input or output; only "spend" inputs and "control" outputs of the native asset count. */
  datatype BtmPut = BtmPut(kind: string, address: Option<string>, assetId: string, amount: int)

  function PartyOfBtm(p: BtmPut, wanted: string): Party
  {
    if p.address.None? then Party(false, "", p.amount)
    else Party(p.kind == wanted && p.assetId == BTM_ASSET, p.address.value, p.amount)
  }

  datatype Row = Row(from: string, to: string, amount: int)

  function SimIns(vin: seq<SimIn>): seq<Party>
  {
    seq(|vin|, i requires 0 <= i < |vin| => PartyOfSimIn(vin[i]))
  }

  function SimOuts(vout: seq<SimOut>): seq<Party>
  {
    seq(|vout|, i requires 0 <= i < |vout| => PartyOfSimOut(vout[i]))
  }

  function BtmPuts(ps: seq<BtmPut>, wanted: string): seq<Party>
  {
    seq(|ps|, i requires 0 <= i < |ps| => PartyOfBtm(ps[i], wanted))
  }

  /** kind is the source's type number; None when the transaction is not looked at further. */
  datatype Outcome = Outcome(kind: Option<int>, deposit: Option<Row>, withdraws: seq<Row>)

  // ---- What the loops collect ----

  function Addresses(ps: seq<Party>): set<string>
  {
    set i | 0 <= i < |ps| && ps[i].counts :: ps[i].address
  }

  /** What one address has in all. */
  function AmountOf(ps: seq<Party>, a: string): int
  {
    if ps == [] then 0
    else
      var p := ps[|ps| - 1];
      AmountOf(ps[..|ps| - 1], a) + (if p.counts && p.address == a then p.value else 0)
  }

  /** The outputs that are not change. */
  function NotChange(p: Party, inKeys: set<string>): Party { p.(counts := p.counts && p.address !in inKeys) }

  function Outs(vout: seq<Party>, inKeys: set<string>): (r: seq<Party>)
    ensures |r| == |vout|
    ensures forall i :: 0 <= i < |r| ==> r[i] == NotChange(vout[i], inKeys)
  {
    seq(|vout|, i requires 0 <= i < |vout| => NotChange(vout[i], inKeys))
  }

  /** How many entries (not addresses) are watched. */
  function WatchedEntries(ps: seq<Party>, watch: set<string>): nat
  {
    if ps == [] then 0
    else
      var p := ps[|ps| - 1];
      WatchedEntries(ps[..|ps| - 1], watch) + (if p.counts && p.address in watch then 1 else 0)
  }

  /** All that leaves for other addresses. */
  function TotalOf(ps: seq<Party>): int
  {
    if ps == [] then 0
    else TotalOf(ps[..|ps| - 1]) + (if ps[|ps| - 1].counts then ps[|ps| - 1].value else 0)
  }

  // ---- The rule ----

  /** The type number: 0 between two watched addresses, 1 withdraw, 2 deposit, negative when more watched
      parties take part than the type allows. */
  function Kind(vin: seq<Party>, vout: seq<Party>, watch: set<string>): Option<int>
  {
    var senders, watchedIn := Addresses(vin), Addresses(vin) * watch;
    var entries := WatchedEntries(Outs(vout, senders), watch);
    if watchedIn == {} && entries == 0 then None
    else if watchedIn != {} && entries > 0 then Some(if |watchedIn| == 1 && entries == 1 then 0 else -3)
    else if watchedIn != {} then Some(if |watchedIn| == 1 then 1 else -1)
    else Some(if entries == 1 && |senders| == 1 then 2 else -2)
  }

  lemma AddressesSnoc(ps: seq<Party>, p: Party)
    ensures Addresses(ps + [p]) == if p.counts then Addresses(ps) + {p.address} else Addresses(ps)
  {
    var qs := ps + [p];
    assert forall i :: 0 <= i < |ps| ==> qs[i] == ps[i];
    assert qs[|ps|] == p;
    forall a | a in Addresses(ps) ensures a in Addresses(qs) {
      var i :| 0 <= i < |ps| && ps[i].counts && ps[i].address == a;
      assert qs[i].address == a;
    }
  }

  lemma PrefixSnoc(ps: seq<Party>, i: nat, a: string, watch: set<string>)
    requires i < |ps|
    ensures Addresses(ps[..i + 1]) == if ps[i].counts then Addresses(ps[..i]) + {ps[i].address} else Addresses(ps[..i])
    ensures AmountOf(ps[..i + 1], a)
        == AmountOf(ps[..i], a) + (if ps[i].counts && ps[i].address == a then ps[i].value else 0)
    ensures WatchedEntries(ps[..i + 1], watch)
        == WatchedEntries(ps[..i], watch) + (if ps[i].counts && ps[i].address in watch then 1 else 0)
    ensures TotalOf(ps[..i + 1]) == TotalOf(ps[..i]) + (if ps[i].counts then ps[i].value else 0)
  {
    assert ps[..i + 1] == ps[..i] + [ps[i]];
    assert ps[..i + 1][..i] == ps[..i];
    AddressesSnoc(ps[..i], ps[i]);
  }

  /** A dictionary from every address to what it has in all. */
  ghost predicate Collected(m: map<string, int>, ps: seq<Party>)
  {
    m.Keys == Addresses(ps) && forall a :: a in m ==> m[a] == AmountOf(ps, a)
  }

  lemma {:induction false} AbsentHasNothing(ps: seq<Party>, a: string)
    requires a !in Addresses(ps)
    ensures AmountOf(ps, a) == 0
    decreases |ps|
  {
    if ps != [] {
      var n := |ps| - 1;
      PrefixSnoc(ps, n, a, {});
      assert ps[..n + 1] == ps;
      AbsentHasNothing(ps[..n], a);
    }
  }

  function Put(m: map<string, int>, p: Party): (r: map<string, int>)
    ensures r.Keys == if p.counts then m.Keys + {p.address} else m.Keys
  {
    if !p.counts then m
    else if p.address in m then m[p.address := m[p.address] + p.value]
    else m[p.address := p.value]
  }

  lemma PutCollects(m: map<string, int>, ps: seq<Party>, i: nat)
    requires i < |ps| && Collected(m, ps[..i])
    ensures Collected(Put(m, ps[i]), ps[..i + 1])
  {
    var r := Put(m, ps[i]);
    PrefixSnoc(ps, i, "", {});
    forall a | a in r ensures r[a] == AmountOf(ps[..i + 1], a) {
      PrefixSnoc(ps, i, a, {});
      if a !in m { AbsentHasNothing(ps[..i], a); }
    }
  }

  lemma PutAddsToTotal(m: map<string, int>, p: Party)
    ensures SumMap(Put(m, p)) == SumMap(m) + (if p.counts then p.value else 0)
  {
    if p.counts && p.address in m {
      SumUpdate(m, p.address, m[p.address] + p.value);
    } else if p.counts {
      SumInsert(m, p.address, p.value);
    }
  }

  // ---- The loops ----

  method AddTo(m: map<string, int>, p: Party) returns (r: map<string, int>)
    requires p.counts
    ensures r == Put(m, p)
  {
    if p.address in m {
      r := m[p.address := m[p.address] + p.value];
    } else {
      r := m[p.address := p.value];
    }
  }

  method ScanInputs(vin: seq<Party>, watch: set<string>)
    returns (inSet: map<string, int>, multisigIn: string, valid: bool)
    requires "" !in watch
    ensures Collected(inSet, vin)
    ensures multisigIn == "" <==> inSet.Keys * watch == {}
    ensures multisigIn != "" ==> multisigIn in inSet.Keys * watch
    ensures multisigIn != "" ==> (valid <==> inSet.Keys * watch == {multisigIn})
    ensures multisigIn == "" ==> valid
  {
    inSet, multisigIn, valid := map[], "", true;
    for i := 0 to |vin|
      invariant Collected(inSet, vin[..i])
      invariant multisigIn == "" ==> inSet.Keys * watch == {} && valid
      invariant multisigIn != "" ==> multisigIn in inSet.Keys * watch
      invariant multisigIn != "" ==> (valid <==> inSet.Keys * watch == {multisigIn})
    {
      var t := vin[i];
      PutCollects(inSet, vin, i);
      if !t.counts {
        continue;
      }
      ghost var before := inSet.Keys * watch;
      inSet := AddTo(inSet, t);
      assert inSet.Keys * watch == if t.address in watch then before + {t.address} else before;
      if t.address in watch {
        if multisigIn == "" {
          multisigIn := t.address;
        } else if multisigIn != t.address {
          valid := false;
        }
      }
    }
    assert vin[..|vin|] == vin;
  }

  method ScanOutputs(vout: seq<Party>, inSet: map<string, int>, watch: set<string>, valid0: bool)
    returns (outSet: map<string, int>, multisigOut: string, valid: bool)
    requires "" !in watch
    ensures var outs := Outs(vout, inSet.Keys);
      && Collected(outSet, outs) && SumMap(outSet) == TotalOf(outs)
      && (multisigOut == "" <==> WatchedEntries(outs, watch) == 0)
      && (multisigOut != "" ==> multisigOut in outSet && multisigOut in watch)
      && (valid <==> valid0 && WatchedEntries(outs, watch) <= 1)
  {
    outSet, multisigOut, valid := map[], "", valid0;
    ghost var outs := Outs(vout, inSet.Keys);
    assert Collected(map[], outs[..0]);
    assert SumMap<string>(map[]) == TotalOf(outs[..0]) && WatchedEntries(outs[..0], watch) == 0;
    hide Collected, WatchedEntries, TotalOf, AmountOf, Addresses, SumMap, Put;
    for i := 0 to |vout|
      invariant Collected(outSet, outs[..i]) && SumMap(outSet) == TotalOf(outs[..i])
      invariant multisigOut == "" <==> WatchedEntries(outs[..i], watch) == 0
      invariant multisigOut != "" ==> multisigOut in outSet && multisigOut in watch
      invariant valid <==> valid0 && WatchedEntries(outs[..i], watch) <= 1
    {
      var t := vout[i];
      PutCollects(outSet, outs, i);
      PutAddsToTotal(outSet, outs[i]);
      PrefixSnoc(outs, i, "", watch);
      assert outs[i] == NotChange(t, inSet.Keys);
      if !t.counts || t.address in inSet {
        continue; // nothing to look at, or change
      }
      assert outs[i] == t;
      outSet := AddTo(outSet, t);
      if t.address in watch {
        if multisigOut == "" {
          multisigOut := t.address;
        } else {
          valid := false;
        }
      }
    }
    assert outs[..|vout|] == outs;
  }

  /** The rows of a withdraw: one for every receiver, in whatever order the dictionary lists them. */
  method WithdrawRows(outSet: map<string, int>, from: string) returns (rows: seq<Row>)
    ensures forall a, v :: Row(from, a, v) in rows <==> a in outSet && outSet[a] == v
    ensures |rows| == |outSet| && forall r :: r in rows ==> r.from == from
    ensures RowTotal(rows) == SumMap(outSet)
  {
    rows := [];
    var left := outSet;
    while left != map[]
      invariant left.Keys <= outSet.Keys && forall k :: k in left ==> left[k] == outSet[k]
      invariant forall a, v :: Row(from, a, v) in rows <==> a in outSet && a !in left && outSet[a] == v
      invariant |rows| + |left| == |outSet| && forall r :: r in rows ==> r.from == from
      invariant RowTotal(rows) + SumMap(left) == SumMap(outSet)
      decreases |left|
    {
      var k :| k in left;
      SumRemove(left, k);
      assert (rows + [Row(from, k, left[k])])[..|rows|] == rows;
      assert |left - {k}| == |left| - 1 by { SizeRemove(left, k); }
      rows := rows + [Row(from, k, left[k])];
      left := left - {k};
    }
  }

  lemma SizeRemove(m: map<string, int>, k: string)
    requires k in m
    ensures |m - {k}| == |m| - 1
  {
    assert m == (m - {k})[k := m[k]];
  }

  function RowTotal(rows: seq<Row>): int
  {
    if rows == [] then 0 else RowTotal(rows[..|rows| - 1]) + rows[|rows| - 1].amount
  }

  /** The amount of a deposit is what the address the dictionary lists first gets. */
  ghost predicate PossibleAmount(vin: seq<Party>, vout: seq<Party>, amount: int)
  {
    var outs := Outs(vout, Addresses(vin));
    exists first :: first in Addresses(outs) && amount == AmountOf(outs, first)
  }

  /** What the outcome promises about its rows. */
  ghost predicate RowsFit(vin: seq<Party>, vout: seq<Party>, watch: set<string>, o: Outcome)
  {
    var senders := Addresses(vin);
    var outs := Outs(vout, senders);
    && (o.deposit.Some? <==> o.kind == Some(2) || o.kind == Some(0))
    && (o.deposit.Some? ==>
          && o.deposit.value.from in senders
          && o.deposit.value.to in Addresses(outs) * watch
          && PossibleAmount(vin, vout, o.deposit.value.amount))
    && (o.kind != Some(1) ==> o.withdraws == [])
    && (o.kind == Some(1) ==>
          && |o.withdraws| == |Addresses(outs)|
          && (forall r :: r in o.withdraws <==>
                r.from in senders * watch && r.to in Addresses(outs) && r.amount == AmountOf(outs, r.to))
          && RowTotal(o.withdraws) == TotalOf(outs))
  }

  // ---- What of a transaction counts, and as what ----

  /** The inputs that spend an output with an address. */
  ghost function SimInMoves(vin: seq<SimIn>): seq<Party>
  {
    if vin == [] then []
    else
      var i := vin[|vin| - 1];
      SimInMoves(vin[..|vin| - 1]) + (if i.hasTxid && i.address != "" then [Party(true, i.address, i.value)] else [])
  }

  /** The outputs whose script names an address, each paid to the first one. */
  ghost function SimOutMoves(vout: seq<SimOut>): seq<Party>
  {
    if vout == [] then []
    else
      var o := vout[|vout| - 1];
      SimOutMoves(vout[..|vout| - 1]) + (if |o.addresses| > 0 then [Party(true, o.addresses[0], o.value)] else [])
  }

  /** BTM itself, and no other asset. */
  ghost predicate IsNative(assetId: string)
  {
    assetId == "ffffffffffffffffffffffffffffffffffffffffffffffffffffffffffffffff"
  }

  /** The entries of the wanted kind that move BTM from or to an address. */
  ghost function BtmMoves(ps: seq<BtmPut>, wanted: string): seq<Party>
  {
    if ps == [] then []
    else
      var p := ps[|ps| - 1];
      BtmMoves(ps[..|ps| - 1], wanted)
      + (if p.kind == wanted && IsNative(p.assetId) && p.address.Some? then [Party(true, p.address.value, p.amount)]
         else [])
  }

  lemma {:induction false} SimInsAreMoves(vin: seq<SimIn>)
    ensures Counted(SimIns(vin)) == SimInMoves(vin)
    decreases |vin|
  {
    if vin != [] {
      SimInsAreMoves(vin[..|vin| - 1]);
      assert SimIns(vin)[..|vin| - 1] == SimIns(vin[..|vin| - 1]);
    }
  }

  lemma {:induction false} SimOutsAreMoves(vout: seq<SimOut>)
    ensures Counted(SimOuts(vout)) == SimOutMoves(vout)
    decreases |vout|
  {
    if vout != [] {
      SimOutsAreMoves(vout[..|vout| - 1]);
      assert SimOuts(vout)[..|vout| - 1] == SimOuts(vout[..|vout| - 1]);
    }
  }

  lemma {:induction false} BtmPutsAreMoves(ps: seq<BtmPut>, wanted: string)
    ensures Counted(BtmPuts(ps, wanted)) == BtmMoves(ps, wanted)
    decreases |ps|
  {
    if ps != [] {
      BtmPutsAreMoves(ps[..|ps| - 1], wanted);
      assert BtmPuts(ps, wanted)[..|ps| - 1] == BtmPuts(ps[..|ps| - 1], wanted);
    }
  }

  /** Rows depend on no more than this. */
  lemma RowsFitBoth(vin1: seq<Party>, vout1: seq<Party>, vin2: seq<Party>, vout2: seq<Party>, watch: set<string>,
      o: Outcome)
    requires Addresses(vin1) == Addresses(vin2)
    requires var outs1, outs2 := Outs(vout1, Addresses(vin1)), Outs(vout2, Addresses(vin2));
      && Addresses(outs1) == Addresses(outs2) && TotalOf(outs1) == TotalOf(outs2)
      && forall a :: AmountOf(outs1, a) == AmountOf(outs2, a)
    requires RowsFit(vin1, vout1, watch, o)
    ensures RowsFit(vin2, vout2, watch, o)
  {
    hide Addresses, AmountOf, TotalOf, RowTotal, Outs;
    if o.deposit.Some? {
      assert PossibleAmount(vin2, vout2, o.deposit.value.amount);
    }
  }

  /** An outcome that fits all parties fits those that count. */
  lemma OnlyCountedRows(vin: seq<Party>, vout: seq<Party>, watch: set<string>, o: Outcome)
    requires RowsFit(vin, vout, watch, o)
    ensures Kind(Counted(vin), Counted(vout), watch) == Kind(vin, vout, watch)
    ensures RowsFit(Counted(vin), Counted(vout), watch, o)
  {
    hide Kind, RowsFit, Addresses, AmountOf, TotalOf, Counted, Outs;
    OnlyCountedMatters(vin, vout, watch, "");
    var outs, all := Outs(Counted(vout), Addresses(Counted(vin))), Outs(vout, Addresses(vin));
    forall a ensures AmountOf(outs, a) == AmountOf(all, a) { OnlyCountedMatters(vin, vout, watch, a); }
    RowsFitBoth(vin, vout, Counted(vin), Counted(vout), watch, o);
  }

  /** A transaction of a BTC-like chain. */
  method CollectPrettyTransaction(vin: seq<SimIn>, vout: seq<SimOut>, watch: set<string>) returns (o: Outcome)
    requires "" !in watch
    ensures o.kind == Kind(SimInMoves(vin), SimOutMoves(vout), watch)
    ensures RowsFit(SimInMoves(vin), SimOutMoves(vout), watch, o)
  {
    hide Kind, RowsFit;
    o := Classify(SimIns(vin), SimOuts(vout), watch);
    SimInsAreMoves(vin);
    SimOutsAreMoves(vout);
    OnlyCountedRows(SimIns(vin), SimOuts(vout), watch, o);
  }

  /** A BTM transaction. */
  method CollectPrettyTransactionBtm(vin: seq<BtmPut>, vout: seq<BtmPut>, watch: set<string>) returns (o: Outcome)
    requires "" !in watch
    ensures o.kind == Kind(BtmMoves(vin, "spend"), BtmMoves(vout, "control"), watch)
    ensures RowsFit(BtmMoves(vin, "spend"), BtmMoves(vout, "control"), watch, o)
  {
    hide Kind, RowsFit;
    o := Classify(BtmPuts(vin, "spend"), BtmPuts(vout, "control"), watch);
    BtmPutsAreMoves(vin, "spend");
    BtmPutsAreMoves(vout, "control");
    OnlyCountedRows(BtmPuts(vin, "spend"), BtmPuts(vout, "control"), watch, o);
  }

  /** The flags of the loops say what the rule says. */
  lemma Verdict(vin: seq<Party>, vout: seq<Party>, watch: set<string>, multisigIn: string, multisigOut: string,
                valid: bool, inSet: map<string, int>)
    requires inSet.Keys == Addresses(vin)
    requires multisigIn == "" <==> Addresses(vin) * watch == {}
    requires multisigIn != "" ==> multisigIn in Addresses(vin) * watch
    requires var entries := WatchedEntries(Outs(vout, Addresses(vin)), watch);
      && (multisigOut == "" <==> entries == 0)
      && (valid <==> entries <= 1 && (multisigIn == "" || Addresses(vin) * watch == {multisigIn}))
    ensures Kind(vin, vout, watch) ==
      if multisigIn == "" && multisigOut == "" then None
      else if multisigIn != "" && multisigOut != "" then Some(if valid then 0 else -3)
      else if multisigIn != "" then Some(if valid then 1 else -1)
      else Some(if valid && |inSet| == 1 then 2 else -2)
  {
    var watchedIn := Addresses(vin) * watch;
    assert |inSet| == |inSet.Keys|;
    if |watchedIn| == 1 && multisigIn != "" {
      var rest := watchedIn - {multisigIn};
      assert |rest| == 0 && watchedIn == {multisigIn};
    }
  }

  method Classify(vin: seq<Party>, vout: seq<Party>, watch: set<string>) returns (o: Outcome)
    requires "" !in watch
    ensures o.kind == Kind(vin, vout, watch)
    ensures RowsFit(vin, vout, watch, o)
  {
    var inSet, multisigIn, valid := ScanInputs(vin, watch);
    var outSet, multisigOut;
    outSet, multisigOut, valid := ScanOutputs(vout, inSet, watch, valid);
    Verdict(vin, vout, watch, multisigIn, multisigOut, valid, inSet);
    hide Kind, RowsFit, Collected;
    if multisigIn == "" && multisigOut == "" {
      NoRowsFit(vin, vout, watch, None);
      return Outcome(None, None, []);
    }
    var kind := if multisigIn != "" && multisigOut != "" then (if valid then 0 else -3)
                else if multisigIn != "" then (if valid then 1 else -1)
                else if valid && |inSet| == 1 then 2 else -2;
    if kind == 2 || kind == 0 {
      assert inSet != map[];
      var from :| from in inSet;
      var first :| first in outSet;
      o := Outcome(Some(kind), Some(Row(from, multisigOut, outSet[first])), []);
      DepositFits(vin, vout, watch, inSet, outSet, kind, from, multisigOut, first);
    } else if kind == 1 {
      var rows := WithdrawRows(outSet, multisigIn);
      o := Outcome(Some(kind), None, rows);
      WithdrawFits(vin, vout, watch, inSet, outSet, multisigIn, rows);
    } else {
      o := Outcome(Some(kind), None, []);
      NoRowsFit(vin, vout, watch, Some(kind));
    }
  }

  lemma NoRowsFit(vin: seq<Party>, vout: seq<Party>, watch: set<string>, kind: Option<int>)
    requires kind !in {Some(0), Some(1), Some(2)}
    ensures RowsFit(vin, vout, watch, Outcome(kind, None, []))
  {
  }

  lemma DepositFits(vin: seq<Party>, vout: seq<Party>, watch: set<string>, inSet: map<string, int>,
                    outSet: map<string, int>, kind: int, from: string, to: string, first: string)
    requires Collected(inSet, vin) && Collected(outSet, Outs(vout, inSet.Keys)) && (kind == 0 || kind == 2)
    requires from in inSet && to in outSet && to in watch && first in outSet
    ensures RowsFit(vin, vout, watch, Outcome(Some(kind), Some(Row(from, to, outSet[first])), []))
  {
    assert PossibleAmount(vin, vout, outSet[first]);
  }

  lemma WithdrawFits(vin: seq<Party>, vout: seq<Party>, watch: set<string>, inSet: map<string, int>,
                     outSet: map<string, int>, from: string, rows: seq<Row>)
    requires Collected(inSet, vin) && Collected(outSet, Outs(vout, inSet.Keys))
    requires SumMap(outSet) == TotalOf(Outs(vout, inSet.Keys)) && inSet.Keys * watch == {from}
    requires forall a, v :: Row(from, a, v) in rows <==> a in outSet && outSet[a] == v
    requires |rows| == |outSet| && (forall r :: r in rows ==> r.from == from) && RowTotal(rows) == SumMap(outSet)
    ensures RowsFit(vin, vout, watch, Outcome(Some(1), None, rows))
  {
    var outs := Outs(vout, Addresses(vin));
    hide SumMap, RowTotal, TotalOf, AmountOf;
    assert |outSet| == |outSet.Keys|;
    forall r
      ensures r in rows <==>
        r.from in Addresses(vin) * watch && r.to in Addresses(outs) && r.amount == AmountOf(outs, r.to)
    {
      assert r == Row(r.from, r.to, r.amount);
    }
  }

  // ---- Where code and comment part ----

  /** A deposit row carries the payment to the watched address, for every order of the dictionary, exactly
      when every receiver gets that much; with one receiver it always does. */
  lemma DepositAmountIsPayment(vin: seq<Party>, vout: seq<Party>, to: string)
    requires to in Addresses(Outs(vout, Addresses(vin)))
    ensures var outs := Outs(vout, Addresses(vin));
      (forall amount :: PossibleAmount(vin, vout, amount) ==> amount == AmountOf(outs, to))
      <==> (forall a :: a in Addresses(outs) ==> AmountOf(outs, a) == AmountOf(outs, to))
  {
    var outs := Outs(vout, Addresses(vin));
    if forall amount :: PossibleAmount(vin, vout, amount) ==> amount == AmountOf(outs, to) {
      forall a | a in Addresses(outs) ensures AmountOf(outs, a) == AmountOf(outs, to) {
        assert PossibleAmount(vin, vout, AmountOf(outs, a));
      }
    }
  }

  /** A deposit that also pays somebody else may be recorded with what the other one gets. */
  lemma DepositOfTheWrongAmount(payer: Party, wallet: Party, friend: Party, watch: set<string>)
    requires payer.counts && wallet.counts && friend.counts
    requires wallet.address in watch && friend.address !in watch && payer.address !in watch + {friend.address}
    ensures Kind([payer], [wallet, friend], watch) == Some(2) && PossibleAmount([payer], [wallet, friend], friend.value)
  {
    OneSender(payer);
    var outs := [wallet, friend];
    assert Outs(outs, {payer.address}) == outs && outs[..1] == [wallet] && outs[..0] == [] && outs[..2] == outs;
    PrefixSnoc(outs, 0, friend.address, watch);
    PrefixSnoc(outs, 1, friend.address, watch);
  }

  lemma OneSender(p: Party)
    ensures Addresses([p]) == if p.counts then {p.address} else {}
  {
    AddressesSnoc([], p);
    assert [p] == [] + [p];
  }

  /** The rule of the comment in the code: one watched address among the receivers, however it is paid. */
  function KindByAddress(vin: seq<Party>, vout: seq<Party>, watch: set<string>): Option<int>
  {
    var senders, watchedIn := Addresses(vin), Addresses(vin) * watch;
    var watchedOut := Addresses(Outs(vout, senders)) * watch;
    if watchedIn == {} && watchedOut == {} then None
    else if watchedIn != {} && watchedOut != {} then Some(if |watchedIn| == 1 && |watchedOut| == 1 then 0 else -3)
    else if watchedIn != {} then Some(if |watchedIn| == 1 then 1 else -1)
    else Some(if |watchedOut| == 1 && |senders| == 1 then 2 else -2)
  }

  /** No more addresses than entries, and none only without entries. */
  lemma {:induction false} AddressesAndEntries(ps: seq<Party>, watch: set<string>)
    ensures |Addresses(ps) * watch| <= WatchedEntries(ps, watch)
    ensures Addresses(ps) * watch == {} <==> WatchedEntries(ps, watch) == 0
    decreases |ps|
  {
    if ps != [] {
      var n := |ps| - 1;
      var before := Addresses(ps[..n]) * watch;
      AddressesAndEntries(ps[..n], watch);
      PrefixSnoc(ps, n, "", watch);
      assert ps[..n + 1] == ps;
      if ps[n].counts && ps[n].address in watch {
        assert Addresses(ps) * watch == before + {ps[n].address};
      } else {
        assert Addresses(ps) * watch == before;
      }
    }
  }

  /** Code and comment agree except on the transactions that pay one watched address in several outputs and
      satisfy every other condition of their type: those the code rejects. */
  lemma CommentAgrees(vin: seq<Party>, vout: seq<Party>, watch: set<string>)
    ensures var senders, watchedIn := Addresses(vin), Addresses(vin) * watch;
      var outs := Outs(vout, senders);
      Kind(vin, vout, watch) == KindByAddress(vin, vout, watch) <==>
      !(|Addresses(outs) * watch| == 1 && WatchedEntries(outs, watch) > 1
        && (if watchedIn != {} then |watchedIn| == 1 else |senders| == 1))
  {
    AddressesAndEntries(Outs(vout, Addresses(vin)), watch);
  }

  /** The parties that count. */
  function Counted(ps: seq<Party>): seq<Party>
  {
    if ps == [] then []
    else if ps[|ps| - 1].counts then Counted(ps[..|ps| - 1]) + [ps[|ps| - 1]]
    else Counted(ps[..|ps| - 1])
  }

  lemma {:induction false} CountedKeeps(ps: seq<Party>, senders: set<string>, watch: set<string>, a: string)
    ensures Addresses(Counted(ps)) == Addresses(ps)
    ensures var outs, all := Outs(Counted(ps), senders), Outs(ps, senders);
      && Addresses(outs) == Addresses(all) && AmountOf(outs, a) == AmountOf(all, a) && TotalOf(outs) == TotalOf(all)
      && WatchedEntries(outs, watch) == WatchedEntries(all, watch)
    decreases |ps|
  {
    hide Addresses, AmountOf, TotalOf, WatchedEntries;
    if ps != [] {
      var front, last := ps[..|ps| - 1], ps[|ps| - 1];
      CountedKeeps(front, senders, watch, a);
      SnocOuts(front, last, senders, watch, a);
      assert ps == front + [last];
      if last.counts { SnocOuts(Counted(front), last, senders, watch, a); }
    }
  }

  /** One more party, and what is not change of it. */
  lemma SnocOuts(ps: seq<Party>, p: Party, senders: set<string>, watch: set<string>, a: string)
    ensures Addresses(ps + [p]) == if p.counts then Addresses(ps) + {p.address} else Addresses(ps)
    ensures var outs, all, q := Outs(ps, senders), Outs(ps + [p], senders), NotChange(p, senders);
      && Addresses(all) == (if q.counts then Addresses(outs) + {q.address} else Addresses(outs))
      && AmountOf(all, a) == AmountOf(outs, a) + (if q.counts && q.address == a then q.value else 0)
      && TotalOf(all) == TotalOf(outs) + (if q.counts then q.value else 0)
      && WatchedEntries(all, watch) == WatchedEntries(outs, watch) + (if q.counts && q.address in watch then 1 else 0)
  {
    var all := Outs(ps + [p], senders);
    AddressesSnoc(ps, p);
    assert all == Outs(ps, senders) + [NotChange(p, senders)];
    assert all[..|ps|] == Outs(ps, senders) && all[..|ps| + 1] == all;
    PrefixSnoc(all, |ps|, a, watch);
  }

  /** A coinbase, a script without address, a foreign asset or a retirement changes nothing: neither the type
      nor who sends, who receives, how much each and how much in all. */
  lemma OnlyCountedMatters(vin: seq<Party>, vout: seq<Party>, watch: set<string>, a: string)
    ensures Kind(Counted(vin), Counted(vout), watch) == Kind(vin, vout, watch)
    ensures Addresses(Counted(vin)) == Addresses(vin)
    ensures var outs, all := Outs(Counted(vout), Addresses(Counted(vin))), Outs(vout, Addresses(vin));
      Addresses(outs) == Addresses(all) && AmountOf(outs, a) == AmountOf(all, a) && TotalOf(outs) == TotalOf(all)
  {
    CountedKeeps(vin, {}, watch, a);
    CountedKeeps(vout, Addresses(vin), watch, a);
    hide Addresses, AmountOf, TotalOf, WatchedEntries, Outs, Counted;
  }

  /** The sender recorded for a transfer between watched addresses may be any sender; it is the watched one, for
      every order of the dictionary, exactly when there is no other. */
  lemma TransferFromIsWatched(vin: seq<Party>, vout: seq<Party>, watch: set<string>)
    requires Kind(vin, vout, watch) == Some(0)
    ensures (forall from :: from in Addresses(vin) ==> from in watch) <==> |Addresses(vin)| == 1
  {
    var senders := Addresses(vin);
    var w := OneElement(senders * watch);
    if |senders| == 1 {
      var other := OneElement(senders);
      assert w in senders;
    } else {
      assert senders != {w};
    }
  }

  lemma OneElement(s: set<string>) returns (x: string)
    requires |s| == 1
    ensures s == {x}
  {
    x :| x in s;
    assert |s - {x}| == 0;
  }

  /** Paid in two outputs the watched address is turned down, though it is only one address; paid in one it
      is accepted. */
  lemma PaidTwiceIsRejected(payer: Party, to: string, v: int, w: int, watch: set<string>)
    requires payer.counts && payer.address !in watch && to in watch
    ensures Kind([payer], [Party(true, to, v), Party(true, to, w)], watch) == Some(-2)
    ensures Kind([payer], [Party(true, to, v + w)], watch) == Some(2)
  {
    OneSender(payer);
    var two, one := [Party(true, to, v), Party(true, to, w)], [Party(true, to, v + w)];
    assert Outs(two, {payer.address}) == two && Outs(one, {payer.address}) == one;
    assert two[..1] == [two[0]] && two[..0] == [] && two[..2] == two && one[..0] == [] && one[..1] == one;
    PrefixSnoc(two, 0, "", watch);
    PrefixSnoc(two, 1, "", watch);
    PrefixSnoc(one, 0, "", watch);
  }
}
