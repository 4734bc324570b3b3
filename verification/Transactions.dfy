// The outputs and the fee of a transaction (utils/sim_btc_utils.py, utils/btm_utils.py, utils/hc_utils.py).
// Amounts are whole numbers of the smallest unit; the node that builds the raw transaction gets the
// inputs and outputs returned here.

module Transactions {
  import opened Options
  import opened CoinSelection
  import opened Sums

  const DUST := 546
  const BTM_MAX_INPUTS := 8

  datatype Config = Config(fee: nat, perFee: nat, vinSize: nat, voutSize: nat)

  datatype Transaction = Transaction(vins: seq<Coin>, vouts: map<string, int>)

  /** What the inputs bring and no output receives. */
  ghost function Paid(tx: Transaction): int { Total(tx.vins) - SumMap(tx.vouts) }

  /** The fee for the size of a transaction with one more output than requested, in started kilobytes. */
  function SizeFee(c: Config, inputs: nat, outputs: nat): nat
  {
    (inputs * c.vinSize + (outputs + 1) * c.voutSize + 999) / 1000 * c.perFee
  }

  /** A fee for every started kilobyte of the inputs, the requested outputs and one more. */
  ghost predicate PerKilobyte(c: Config, inputs: nat, outputs: nat, fee: int)
  {
    exists k: nat :: fee == k * c.perFee && Started(inputs * c.vinSize + outputs * c.voutSize + c.voutSize, k)
  }

  ghost predicate Started(bytes: nat, k: nat) { 1000 * (k - 1) < bytes <= 1000 * k }

  lemma SizeFeePerKilobyte(c: Config, inputs: nat, outputs: nat)
    ensures PerKilobyte(c, inputs, outputs, SizeFee(c, inputs, outputs))
  {
    var bytes := inputs * c.vinSize + (outputs + 1) * c.voutSize;
    assert (outputs + 1) * c.voutSize == outputs * c.voutSize + c.voutSize;
    assert Started(bytes, (bytes + 999) / 1000);
  }

  /** Reads the requested payments, in whatever order the dictionary lists them. */
  method ReadDestinations(dest: map<string, int>) returns (amount: int, vouts: map<string, int>)
    ensures amount == SumMap(dest) && vouts == dest
  {
    amount, vouts := 0, map[];
    var left := dest;
    assert SumMap(left) == SumMap(dest);
    assert SumMap<string>(map[]) == 0;
    hide SumMap;
    while left != map[]
      invariant forall k :: k in left ==> k in dest && left[k] == dest[k]
      invariant forall k :: k in vouts ==> k in dest && vouts[k] == dest[k]
      invariant forall k :: k in dest ==> k in left || k in vouts
      invariant amount + SumMap(left) == SumMap(dest)
      decreases |left|
    {
      var addr :| addr in left;
      SumRemove(left, addr);
      OneLess(left, addr);
      amount := amount + left[addr];
      vouts := vouts[addr := left[addr]];
      left := left - {addr};
    }
  }

  lemma OneLess(left: map<string, int>, addr: string)
    requires addr in left
    ensures |left - {addr}| < |left|
  {
    assert left == (left - {addr})[addr := left[addr]];
  }

  /** Every address but one gets the same. */
  ghost predicate SameExcept(vouts: map<string, int>, dest: map<string, int>, from: string)
  {
    forall k :: k != from ==> (k in vouts <==> k in dest) && (k in dest ==> vouts[k] == dest[k])
  }

  /** Is the surplus given back to the sender? */
  ghost predicate GivesBack(vouts: map<string, int>, from: string, surplus: int) { from in vouts || surplus > 546 }

  /** What is left over goes to the sender: on top of what the sender gets anyway, or as an output of
      its own unless that would be dust. */
  method GiveChange(vouts: map<string, int>, from: string, surplus: int) returns (r: map<string, int>)
    ensures SameExcept(r, vouts, from)
    ensures from in r <==> from in vouts || surplus > 546
    ensures from in vouts ==> r[from] == vouts[from] + surplus
    ensures from !in vouts && from in r ==> r[from] == surplus
    ensures SumMap(r) == SumMap(vouts) + if GivesBack(vouts, from, surplus) then surplus else 0
  {
    r := vouts;
    if surplus == 0 {
      // the outputs stay as they are
    } else if from in vouts {
      SumUpdate(vouts, from, surplus + vouts[from]);
      r := vouts[from := surplus + vouts[from]];
    } else if surplus > DUST {
      SumInsert(vouts, from, surplus);
      r := vouts[from := surplus];
    }
  }

  // ---- Bitcoin and its relatives ----

  /** Does the request get past the fee check?  With full send the computed fee is overwritten first. */
  predicate FeeAccepted(c: Config, sizeFee: int, fullSend: bool, dest: map<string, int>)
  {
    sizeFee <= c.fee || (fullSend && dest != map[])
  }

  /** The fee before full send overwrites it. */
  function CalFee(c: Config, isFast: bool, inputs: nat, outputs: nat): nat
  {
    if isFast then c.fee else SizeFee(c, inputs, outputs)
  }

  ghost predicate RaisesOne(vouts: map<string, int>, dest: map<string, int>, spare: int)
  {
    exists first :: first in dest && vouts == dest[first := dest[first] + spare]
  }

  /** As requested, except that the payment listed first is changed by what the configured fee exceeds the
      computed one, and that the sender also gets what is left. The changed payment is negative exactly when the
      computed fee exceeds the configured one by more than the payment (and what is left, for the sender). */
  ghost predicate PaysChanged(vouts: map<string, int>, dest: map<string, int>, first: string, fee: int, cal: int,
      left: int, from: string)
  {
    && first in dest && SameExcept(vouts, dest[first := dest[first] + fee - cal], from)
    && first in vouts
    && (from in dest && from != first ==> from in vouts && vouts[from] == dest[from] + left)
    && (from == first ==> vouts[from] == dest[from] + fee - cal + left)
    && (from != first ==> (vouts[first] < 0 <==> cal > fee + dest[first]))
    && (from == first ==> (vouts[first] < 0 <==> cal > fee + dest[first] + left))
  }

  ghost predicate PaysOneChanged(vouts: map<string, int>, dest: map<string, int>, fee: int, cal: int, left: int,
      from: string)
  {
    exists first :: PaysChanged(vouts, dest, first, fee, cal, left, from)
  }

  lemma RaisedThenChanged(vouts: map<string, int>, raised: map<string, int>, dest: map<string, int>, spare: int,
      fee: int, cal: int, left: int, from: string)
    requires spare == fee - cal && RaisesOne(raised, dest, spare) && SameExcept(vouts, raised, from)
    requires from in raised ==> from in vouts && vouts[from] == raised[from] + left
    ensures PaysOneChanged(vouts, dest, fee, cal, left, from)
  {
    var first :| first in dest && raised == dest[first := dest[first] + spare];
    assert PaysChanged(vouts, dest, first, fee, cal, left, from);
  }

  /** Full send: the first payment listed is raised by the part of the fee that is not needed. */
  method FullSend(vouts0: map<string, int>, spare: int) returns (vouts: map<string, int>)
    ensures vouts.Keys == vouts0.Keys
    ensures SumMap(vouts) == SumMap(vouts0) + if vouts0 == map[] then 0 else spare
    ensures vouts0 != map[] ==> RaisesOne(vouts, vouts0, spare)
  {
    vouts := vouts0;
    if vouts0 != map[] {
      var first :| first in vouts0;
      SumUpdate(vouts0, first, vouts0[first] + spare);
      vouts := vouts0[first := vouts0[first] + spare];
    }
  }

  /** The fee of a request, before full send overwrites it: a function of the coins and the request alone. */
  function SimBtcFee(c: Config, coins: seq<Coin>, amount: int, outputs: nat, isFast: bool): nat
    requires coins != []
  {
    CalFee(c, isFast, |Selection(SIM_BTC, coins, amount + c.fee)|, outputs)
  }

  /** The configured fee when speed is asked for, otherwise the one for the size. */
  lemma SimBtcFeeIs(c: Config, coins: seq<Coin>, amount: int, outputs: nat, isFast: bool)
    requires coins != []
    ensures var fee := SimBtcFee(c, coins, amount, outputs, isFast);
      if isFast then fee == c.fee
      else PerKilobyte(c, |Selection(SIM_BTC, coins, amount + c.fee)|, outputs, fee)
  {
    hide Selection, PerKilobyte, SizeFee;
    SizeFeePerKilobyte(c, |Selection(SIM_BTC, coins, amount + c.fee)|, outputs);
  }

  method SimBtcCreate(c: Config, coins: seq<Coin>, from: string, dest: map<string, int>, isFast: bool, fullSend: bool)
    returns (r: Option<Transaction>)
    ensures r.Some? <==>
      && coins != []
      && Total(coins) >= SumMap(dest) + c.fee
      && FeeAccepted(c, SimBtcFee(c, coins, SumMap(dest), |dest|, isFast), fullSend, dest)
    ensures coins != [] ==>
      var inputs, cal := |Selection(SIM_BTC, coins, SumMap(dest) + c.fee)|,
        SimBtcFee(c, coins, SumMap(dest), |dest|, isFast);
      if isFast then cal == c.fee else PerKilobyte(c, inputs, |dest|, cal)
    ensures r.Some? ==>
      var tx, cal := r.value, SimBtcFee(c, coins, SumMap(dest), |dest|, isFast);
      && tx.vins == Selection(SIM_BTC, coins, SumMap(dest) + c.fee)
      && Spends(coins, SumMap(dest) + c.fee, 8, 5, tx.vins)
      && cal <= Paid(tx) <= cal + 546
      && (from in dest ==> Paid(tx) == cal)
      && (from !in dest && from in tx.vouts ==> tx.vouts[from] > 546)
      && (!fullSend || dest == map[] ==> SameExcept(tx.vouts, dest, from))
      && (!fullSend && from in dest ==> from in tx.vouts && tx.vouts[from] >= dest[from])
      && (fullSend && dest != map[] ==>
            PaysOneChanged(tx.vouts, dest, c.fee, cal, Total(tx.vins) - SumMap(dest) - c.fee, from))
  {
    hide Selected, SameExcept, RaisesOne, PaysOneChanged, CalFee, Selection, Total, SumMap, Spends, PerKilobyte;
    if coins == [] {
      return None;
    }
    var amount, vouts := ReadDestinations(dest);
    SimBtcFeeIs(c, coins, amount, |dest|, isFast);
    var sum, vinNeed := Select(SIM_BTC, coins, amount + c.fee);
    if sum < amount + c.fee {
      return None;
    }
    ghost var cal := SimBtcFee(c, coins, amount, |dest|, isFast);
    var calFee: int := CalFee(c, isFast, |vinNeed|, |vouts|);
    var spare := c.fee - calFee;
    assert spare == c.fee - cal;
    if fullSend && vouts != map[] {
      vouts := FullSend(vouts, spare);
      calFee := c.fee;
    }
    if calFee > c.fee {
      return None;
    }
    ghost var raised := vouts;
    vouts := GiveChange(vouts, from, sum - amount - calFee);
    if fullSend && dest != map[] {
      RaisedThenChanged(vouts, raised, dest, spare, c.fee, cal, sum - amount - c.fee, from);
    }
    r := Some(Transaction(vinNeed, vouts));
  }

  const BTC_CONFIG := Config(100_000, 10_000, 1600, 80)

  /** With the configured numbers, 32 coins of 12 500 and one payment of 300 000: the computed fee is 520 000, so
      that full send is accepted though the coins are worth 400 000, and the payment comes out as minus 120 000. */
  lemma FullSendNegative(coins: seq<Coin>, dest: map<string, int>, to: string, from: string, vouts: map<string, int>)
    requires |coins| == 32 && AllWorth(coins, 12_500) && dest == map[to := 300_000] && from != to
    requires var cal := SimBtcFee(BTC_CONFIG, coins, 300_000, 1, false);
      var left := Total(Selection(SIM_BTC, coins, 300_000 + BTC_CONFIG.fee)) - 300_000 - BTC_CONFIG.fee;
      PaysOneChanged(vouts, dest, BTC_CONFIG.fee, cal, left, from)
    ensures SimBtcFee(BTC_CONFIG, coins, 300_000, 1, false) == 520_000 && Total(coins) == 400_000
    ensures FeeAccepted(BTC_CONFIG, 520_000, true, dest) && !FeeAccepted(BTC_CONFIG, 520_000, false, dest)
    ensures to in vouts && vouts[to] == -120_000
  {
    hide Selection;
    SelectionOfEqual(SIM_BTC, coins, 12_500, 400_000);
    TotalOfEqual(coins, 12_500);
    assert SimBtcFee(BTC_CONFIG, coins, 300_000, 1, false) == 520_000;
  }

  // ---- HC: the same without the fee check ----

  /** What the selected inputs bring beyond the requested payments. */
  function HcLeft(c: Config, coins: seq<Coin>, amount: int): int
    requires coins != []
  {
    Total(Selection(HC, coins, amount + c.fee)) - amount
  }

  function HcFee(c: Config, coins: seq<Coin>, amount: int, outputs: nat): nat
    requires coins != []
  {
    SizeFee(c, |Selection(HC, coins, amount + c.fee)|, outputs)
  }

  method HcCreate(c: Config, coins: seq<Coin>, from: string, dest: map<string, int>) returns (r: Option<Transaction>)
    ensures r.Some? <==> coins != [] && Total(coins) >= SumMap(dest) + c.fee
    ensures r.Some? ==>
      var tx, cal, left := r.value, HcFee(c, coins, SumMap(dest), |dest|), HcLeft(c, coins, SumMap(dest));
      && tx.vins == Selection(HC, coins, SumMap(dest) + c.fee)
      && Spends(coins, SumMap(dest) + c.fee, 15, 10, tx.vins)
      && PerKilobyte(c, |tx.vins|, |dest|, cal)
      && SameExcept(tx.vouts, dest, from)
      && left >= c.fee
      // the fee paid, and when it is less than the computed one
      && Paid(tx) == (if from in dest || left - cal > 546 then cal else left)
      && (Paid(tx) < cal <==> from !in dest && left < cal)
      // what the sender gets: an output the sender asked for is cut when the fee exceeds what is left
      && (from in tx.vouts <==> from in dest || left - cal > 546)
      && (from in tx.vouts ==> tx.vouts[from] == (if from in dest then dest[from] else 0) + left - cal)
      && (from in dest ==> (tx.vouts[from] < 0 <==> dest[from] < cal - left))
  {
    hide Selected, SameExcept, SizeFee, Selection, Total, SumMap, Spends, PerKilobyte;
    if coins == [] {
      return None;
    }
    var amount, vouts := ReadDestinations(dest);
    var sum, vinNeed := Select(HC, coins, amount + c.fee);
    if sum < amount + c.fee {
      return None;
    }
    var calFee := SizeFee(c, |vinNeed|, |vouts|);
    SizeFeePerKilobyte(c, |vinNeed|, |vouts|);
    vouts := GiveChange(vouts, from, sum - amount - calFee);
    r := Some(Transaction(vinNeed, vouts));
  }

  const HC_CONFIG := Config(5_000_000, 100_000, 1600, 80)

  /** Thirty-two equal coins that just cover the payments and the configured fee. */
  ghost predicate JustCovered(coins: seq<Coin>, a: nat, amount: int)
  {
    |coins| == 32 && AllWorth(coins, a) && a > HC_CONFIG.fee && amount == 32 * a - HC_CONFIG.fee
  }

  lemma JustCoveredFee(coins: seq<Coin>, a: nat, amount: int, outputs: nat)
    requires JustCovered(coins, a, amount) && 1 <= outputs <= 2
    ensures HcLeft(HC_CONFIG, coins, amount) == 5_000_000 && HcFee(HC_CONFIG, coins, amount, outputs) == 5_200_000
  {
    hide Selection;
    SelectionOfEqual(HC, coins, a, amount + HC_CONFIG.fee);
  }

  /** With the configured numbers: a payment that leaves 5 000 000 for a computed fee of 5 200 000. */
  lemma HcUnderpays(coins: seq<Coin>, a: nat, dest: map<string, int>, from: string)
    requires |dest| == 1 && from !in dest && JustCovered(coins, a, SumMap(dest))
    ensures from !in dest && HcLeft(HC_CONFIG, coins, SumMap(dest)) < HcFee(HC_CONFIG, coins, SumMap(dest), |dest|)
  {
    hide HcLeft, HcFee;
    JustCoveredFee(coins, a, SumMap(dest), 1);
  }

  /** And an output of 100 000 to the sender that comes out as minus 100 000. */
  lemma HcNegativeOutput(coins: seq<Coin>, a: nat, dest: map<string, int>, from: string)
    requires |dest| == 2 && from in dest && dest[from] == 100_000 && JustCovered(coins, a, SumMap(dest))
    ensures dest[from] + HcLeft(HC_CONFIG, coins, SumMap(dest)) - HcFee(HC_CONFIG, coins, SumMap(dest), |dest|)
        == -100_000
  {
    hide HcLeft, HcFee;
    JustCoveredFee(coins, a, SumMap(dest), 2);
  }

  // ---- BTM: the fee comes from a first build of the transaction ----

  /** The node's estimate with ten percent on top, rounded down. */
  function Scaled(estimate: nat): nat { 11 * estimate / 10 }

  lemma SameExceptUpdate(vouts: map<string, int>, dest: map<string, int>, from: string, v: int)
    requires SameExcept(vouts, dest, from)
    ensures SameExcept(vouts[from := v], dest, from)
  {
  }

  /** The outputs of the first build: all that is left goes to the sender; with nothing left an output of
      one unit holds the place of the change. */
  method FirstOutputs(vouts: map<string, int>, from: string, needchange: int) returns (r: map<string, int>)
    requires needchange >= 0
    ensures SameExcept(r, vouts, from) && from in r
    ensures r[from] >= (if from in vouts then vouts[from] else 1)
    ensures SumMap(r) == SumMap(vouts) + (if needchange == 0 && from !in vouts then 1 else needchange)
  {
    r := vouts;
    if needchange == 0 {
      if from !in vouts {
        SumInsert(vouts, from, 1);
        r := vouts[from := 1];
      }
    } else if from in vouts {
      SumUpdate(vouts, from, vouts[from] + needchange);
      r := vouts[from := vouts[from] + needchange];
    } else {
      SumInsert(vouts, from, needchange);
      r := vouts[from := needchange];
    }
  }

  method BtmCreate(fee: nat, coins: seq<Coin>, from: string, dest: map<string, int>, estimate: nat)
    returns (r: Option<Transaction>)
    ensures r.Some? <==>
      && coins != []
      && Coverable(SortDescending(coins), SumMap(dest) + fee, 8)
      && 11 * estimate < 10 * fee
    ensures r.Some? ==>
      var tx := r.value;
      var placeholder := Total(tx.vins) == SumMap(dest) + fee && from !in dest;
      && tx.vins == Selection(BTM, coins, SumMap(dest) + fee)
      && Spends(coins, SumMap(dest) + fee, 20, 6, tx.vins)
      && |tx.vins| <= 8
      && SameExcept(tx.vouts, dest, from)
      && from in tx.vouts && tx.vouts[from] > (if from in dest then dest[from] else 0)
      // the estimate with ten percent on top, rounded down, less the placeholder
      && var paid := Paid(tx) + (if placeholder then 1 else 0);
      && 10 * paid <= 11 * estimate < 10 * paid + 10
      && Paid(tx) < fee
      && (Paid(tx) < 0 <==> placeholder && estimate == 0)
  {
    hide Selected, Coverable, SameExcept, Selection, Total, SumMap, Spends;
    if coins == [] {
      return None;
    }
    var amount, vouts := ReadDestinations(dest);
    var sum, vinNeed := Select(BTM, coins, amount + fee);
    LimitOnSelected(BTM, coins, amount + fee, vinNeed, BTM_MAX_INPUTS);
    if |vinNeed| > BTM_MAX_INPUTS {
      return None;
    }
    if sum < amount + fee {
      return None;
    }
    vouts := FirstOutputs(vouts, from, sum - amount - fee);
    if 11 * estimate >= 10 * fee {
      return None;
    }
    var needchange2 := fee - Scaled(estimate);
    SumUpdate(vouts, from, vouts[from] + needchange2);
    SameExceptUpdate(vouts, dest, from, vouts[from] + needchange2);
    r := Some(Transaction(vinNeed, vouts[from := vouts[from] + needchange2]));
  }
}
