// String keys of the two UTXO tables (btc_collect/main.go) and the parser that
// server.go applies to the keys of the address table (src/util/util.go).

module Keys {

  /** The last separator of a string determines the two sides, whatever the left side contains. */
  lemma LastSeparator(x1: string, y1: string, x2: string, y2: string, c: char)
    requires x1 + [c] + y1 == x2 + [c] + y2
    requires c !in y1 && c !in y2
    ensures x1 == x2 && y1 == y2
  {
    var s := x1 + [c] + y1;
    assert s == x2 + [c] + y2;
    assert s[|x1|] == c && s[|x2|] == c;
    assert forall j :: |x1| < j < |s| ==> s[j] == y1[j - |x1| - 1];
    assert forall j :: |x2| < j < |s| ==> s[j] == y2[j - |x2| - 1];
    assert |x1| == |x2|;
    assert x1 == s[..|x1|] && x2 == s[..|x2|];
    assert y1 == s[|x1| + 1..] && y2 == s[|x2| + 1..];
  }

  // ---- Decimal numerals (strconv.Itoa, strconv.ParseInt) ----

  predicate IsDigit(c: char) { '0' <= c <= '9' }

  predicate AllDigits(s: string) { forall i :: 0 <= i < |s| ==> IsDigit(s[i]) }

  function Itoa(n: nat): string
  {
    if n < 10 then [('0' as int + n) as char]
    else Itoa(n / 10) + [('0' as int + n % 10) as char]
  }

  function DigitsValue(s: string): nat
    requires AllDigits(s)
  {
    if s == [] then 0
    else DigitsValue(s[..|s| - 1]) * 10 + (s[|s| - 1] as int - '0' as int)
  }

  const MAX_INT32: int := 0x7fff_ffff

  /** strconv.ParseInt(s, 10, 32) with the error ignored: the nearest int32 when out of
      range, zero on a syntax error.  The keys of the address table never put a sign here. */
  function ParseInt32(s: string): (v: int)
    ensures 0 <= v <= 0x7fff_ffff
    ensures v > 0 ==> s != [] && forall i :: 0 <= i < |s| ==> '0' <= s[i] <= '9'
  {
    if s == [] || !AllDigits(s) then 0
    else if DigitsValue(s) > MAX_INT32 then MAX_INT32
    else DigitsValue(s)
  }

  /** Parsing undoes printing. */
  lemma {:induction false} ItoaRoundTrip(n: nat)
    ensures Itoa(n) != [] && AllDigits(Itoa(n)) && DigitsValue(Itoa(n)) == n
  {
    if n >= 10 {
      ItoaRoundTrip(n / 10);
      assert Itoa(n)[..|Itoa(n)| - 1] == Itoa(n / 10);
    }
  }

  /** What is printed is read back, up to the largest 32-bit number. */
  lemma ParseOfPrinted(n: nat)
    ensures ParseInt32(Itoa(n)) == if n <= MAX_INT32 then n else MAX_INT32
  {
    ItoaRoundTrip(n);
  }

  lemma ItoaInjective(m: nat, n: nat)
    requires Itoa(m) == Itoa(n)
    ensures m == n
  {
    ItoaRoundTrip(m);
    ItoaRoundTrip(n);
  }

  // ---- Key builders ----

  function CalUtxoPrefix(chain: string, txid: string, vout: nat): string
  {
    chain + txid + "I" + Itoa(vout)
  }

  function CalAddrUtxoPrefix(chain: string, address: string, txid: string, vout: nat): string
  {
    if address == "" then chain + "O" + txid + "I" + Itoa(vout)
    else if |address| < 20 then chain + address + "O" + txid + "I" + Itoa(vout)
    else chain + address[..20] + "O" + txid + "I" + Itoa(vout)
  }

  /** What of an address survives in the key. */
  function KeyAddress(address: string): string
  {
    if |address| < 20 then address else address[..20]
  }

  predicate IsHex(s: string)
  {
    forall i :: 0 <= i < |s| ==> IsDigit(s[i]) || 'a' <= s[i] <= 'f'
  }

  /** A transaction id as the node prints it: 32 bytes in lower-case hexadecimal. */
  predicate IsTxid(s: string) { |s| == 64 && IsHex(s) }

  function Zeros(n: nat): (s: string)
    ensures |s| == n && forall i :: 0 <= i < n ==> s[i] == '0'
  {
    if n == 0 then [] else Zeros(n - 1) + ['0']
  }

  const ZERO_TXID: string := Zeros(64)

  type Txid = s: string | IsTxid(s) witness ZERO_TXID

  lemma AddrKeyShape(chain: string, address: string, txid: string, vout: nat)
    ensures CalAddrUtxoPrefix(chain, address, txid, vout)
         == (chain + KeyAddress(address)) + ['O'] + (txid + "I" + Itoa(vout))
  {
    var t := txid + "I" + Itoa(vout);
    assert (chain + address) + ['O'] + t == chain + address + "O" + txid + "I" + Itoa(vout);
    if |address| >= 20 {
      assert (chain + address[..20]) + ['O'] + t
          == chain + address[..20] + "O" + txid + "I" + Itoa(vout);
    }
    if address == "" {
      assert chain + address == chain;
    }
  }

  /** Two outputs with the same key in the UTXO table are the same output. */
  lemma UtxoKeyInjective(chain: string, t1: string, v1: nat, t2: string, v2: nat)
    requires CalUtxoPrefix(chain, t1, v1) == CalUtxoPrefix(chain, t2, v2)
    ensures t1 == t2 && v1 == v2
  {
    ItoaRoundTrip(v1);
    ItoaRoundTrip(v2);
    assert CalUtxoPrefix(chain, t1, v1) == (chain + t1) + ['I'] + Itoa(v1);
    assert CalUtxoPrefix(chain, t2, v2) == (chain + t2) + ['I'] + Itoa(v2);
    LastSeparator(chain + t1, Itoa(v1), chain + t2, Itoa(v2), 'I');
    assert t1 == (chain + t1)[|chain|..] && t2 == (chain + t2)[|chain|..];
    ItoaInjective(v1, v2);
  }

  /** Two outputs with the same key in the address table are the same output, even when
      their addresses differ beyond (or before) the twentieth character. */
  lemma AddrKeyInjective(chain: string, a1: string, t1: string, v1: nat, a2: string, t2: string, v2: nat)
    requires IsHex(t1) && IsHex(t2)
    requires CalAddrUtxoPrefix(chain, a1, t1, v1) == CalAddrUtxoPrefix(chain, a2, t2, v2)
    ensures t1 == t2 && v1 == v2 && KeyAddress(a1) == KeyAddress(a2)
  {
    ItoaRoundTrip(v1);
    ItoaRoundTrip(v2);
    AddrKeyShape(chain, a1, t1, v1);
    AddrKeyShape(chain, a2, t2, v2);
    var y1, y2 := t1 + "I" + Itoa(v1), t2 + "I" + Itoa(v2);
    LastSeparator(chain + KeyAddress(a1), y1, chain + KeyAddress(a2), y2, 'O');
    assert KeyAddress(a1) == (chain + KeyAddress(a1))[|chain|..];
    assert KeyAddress(a2) == (chain + KeyAddress(a2))[|chain|..];
    assert y1 == t1 + ['I'] + Itoa(v1) && y2 == t2 + ['I'] + Itoa(v2);
    LastSeparator(t1, Itoa(v1), t2, Itoa(v2), 'I');
    ItoaInjective(v1, v2);
  }

  // ---- SplitAddrUtxoPrefix ----

  /** strings.Index for a one-character needle. */
  function Index(s: string, c: char): (i: int)
    ensures -1 <= i < |s|
    ensures i == -1 <==> c !in s
    ensures i >= 0 ==> s[i] == c && c !in s[..i]
  {
    if s == [] then -1
    else if s[0] == c then 0
    else
      var j := Index(s[1..], c);
      assert s == [s[0]] + s[1..];
      if j == -1 then -1
      else assert s[..j + 1] == [s[0]] + s[1..][..j]; j + 1
  }

  /** A slice out of range stops the program. */
  datatype SplitResult = Panic | Parts(txid: string, vout: int)

  function SplitAddrUtxoPrefix(prefix: string): SplitResult
  {
    if |prefix| < 20 then Panic
    else
      var start := Index(prefix[20..], 'O');
      var end := Index(prefix[20..], 'I');
      if start + 21 > end + 20 then Panic
      else Parts(prefix[start + 21..end + 20], ParseInt32(prefix[end + 21..]))
  }

  lemma IndexAt(x: string, c: char, y: string)
    requires c !in x
    ensures Index(x + [c] + y, c) == |x|
  {
    var s := x + [c] + y;
    var i := Index(s, c);
    assert s[|x|] == c;
    assert forall j :: 0 <= j < |x| ==> s[j] == x[j];
    assert forall j :: 0 <= j < i ==> s[j] == s[..i][j];
  }

  /** The part of the key before its 'O' separator that SplitAddrUtxoPrefix still searches. */
  function SearchedHead(chain: string, address: string): string
    requires |chain + KeyAddress(address)| >= 20
  {
    (chain + KeyAddress(address))[20..]
  }

  /** The parser as a function of the searched text alone. */
  function SplitRest(rest: string): SplitResult
  {
    var start, end := Index(rest, 'O'), Index(rest, 'I');
    if start + 1 > end then Panic
    else Parts(rest[start + 1..end], ParseInt32(rest[end + 1..]))
  }

  lemma SplitIgnoresFirstTwenty(prefix: string)
    requires |prefix| >= 20
    ensures SplitAddrUtxoPrefix(prefix) == SplitRest(prefix[20..])
  {
    var rest := prefix[20..];
    var start, end := Index(rest, 'O'), Index(rest, 'I');
    assert prefix[end + 21..] == rest[end + 1..];
    assert start + 1 <= end ==> prefix[start + 21..end + 20] == rest[start + 1..end];
  }

  function Tail(txid: string, digits: string): string { ['O'] + (txid + ['I'] + digits) }

  lemma IndexAtMost(s: string, c: char, j: nat)
    requires j < |s| && s[j] == c
    ensures 0 <= Index(s, c) <= j
  {
    var i := Index(s, c);
    assert forall k :: 0 <= k < i ==> s[k] == s[..i][k];
  }

  lemma IndexOfI(head: string, txid: string, digits: string)
    requires IsTxid(txid) && 'I' !in head
    ensures var rest := head + Tail(txid, digits);
      Index(rest, 'I') == |head| + 65 && rest[|head| + 66..] == digits && rest[|head| + 1..|head| + 65] == txid
  {
    var rest := head + Tail(txid, digits);
    assert rest == (head + ['O'] + txid) + ['I'] + digits;
    assert 'I' !in head + ['O'] + txid;
    IndexAt(head + ['O'] + txid, 'I', digits);
  }

  /** Both separators are found where the builder put them. */
  lemma SplitCleanHead(head: string, txid: string, digits: string)
    requires IsTxid(txid) && 'O' !in head && 'I' !in head
    ensures SplitRest(head + Tail(txid, digits)) == Parts(txid, ParseInt32(digits))
  {
    IndexOfI(head, txid, digits);
    assert head + Tail(txid, digits) == head + ['O'] + (txid + ['I'] + digits);
    IndexAt(head, 'O', txid + ['I'] + digits);
  }

  /** An 'O' in the head and no 'I': the text cut out is too long to be the transaction id. */
  lemma SplitEarlyO(head: string, txid: string, digits: string)
    requires IsTxid(txid) && 'O' in head && 'I' !in head
    ensures var r := SplitRest(head + Tail(txid, digits)); r.Parts? && |r.txid| > 64
  {
    IndexOfI(head, txid, digits);
    var j :| 0 <= j < |head| && head[j] == 'O';
    IndexAtMost(head + Tail(txid, digits), 'O', j);
  }

  /** An 'I' in the head: the text cut out ends inside the head, or before it starts. */
  lemma SplitEarlyI(head: string, txid: string, digits: string)
    requires 'I' in head
    ensures var r := SplitRest(head + Tail(txid, digits)); r.Parts? ==> |r.txid| < |head|
  {
    var j :| 0 <= j < |head| && head[j] == 'I';
    IndexAtMost(head + Tail(txid, digits), 'I', j);
    IndexAtMost(head + Tail(txid, digits), 'O', |head|);
  }

  lemma KeyAfterTwenty(chain: string, address: string, txid: string, vout: nat)
    requires |chain + KeyAddress(address)| >= 20
    ensures CalAddrUtxoPrefix(chain, address, txid, vout)[20..]
         == SearchedHead(chain, address) + Tail(txid, Itoa(vout))
  {
    AddrKeyShape(chain, address, txid, vout);
    var h, t := chain + KeyAddress(address), txid + "I" + Itoa(vout);
    assert t == txid + ['I'] + Itoa(vout);
    assert (h + ['O'] + t)[20..] == h[20..] + (['O'] + t);
  }

  lemma SplitByHead(head: string, txid: string, digits: string, vout: nat)
    requires IsTxid(txid) && |head| <= 20
    requires digits != [] && AllDigits(digits) && DigitsValue(digits) == vout
    ensures SplitRest(head + Tail(txid, digits)) == Parts(txid, vout)
       <==> 'O' !in head && 'I' !in head && vout <= MAX_INT32
  {
    if 'I' in head {
      SplitEarlyI(head, txid, digits);
    } else if 'O' in head {
      SplitEarlyO(head, txid, digits);
    } else {
      SplitCleanHead(head, txid, digits);
    }
  }

  /** The parser returns exactly the output the key was built from if and only if the head it
      searches contains neither separator and the index fits 32 bits. */
  lemma SplitRoundTrip(chain: string, address: string, txid: string, vout: nat)
    requires |chain| <= 20 <= |address|
    requires IsTxid(txid)
    ensures SplitAddrUtxoPrefix(CalAddrUtxoPrefix(chain, address, txid, vout)) == Parts(txid, vout)
       <==> 'O' !in SearchedHead(chain, address) && 'I' !in SearchedHead(chain, address) && vout <= MAX_INT32
  {
    AddrKeyShape(chain, address, txid, vout);
    SplitIgnoresFirstTwenty(CalAddrUtxoPrefix(chain, address, txid, vout));
    KeyAfterTwenty(chain, address, txid, vout);
    ItoaRoundTrip(vout);
    SplitByHead(SearchedHead(chain, address), txid, Itoa(vout), vout);
  }
}
