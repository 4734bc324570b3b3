// The Base58 codec (btc_collect/src/util/base58.go) and the address layout of bin_to_b58check
// (btc_collect/main.go).

module Base58 {

  type Byte = x: int | 0 <= x < 256

  // ---- Positional numerals, in the two bases the codec uses ----

  predicate IsBase(base: nat) { base == 58 || base == 256 }

  /** Big-endian value of digits in some base. */
  function Value(base: nat, ds: seq<int>): int
  {
    if ds == [] then 0 else Value(base, ds[..|ds| - 1]) * base + ds[|ds| - 1]
  }

  /** The shortest big-endian digits of a number: none for zero. */
  function Digits(base: nat, x: nat): (ds: seq<int>)
    requires IsBase(base)
    ensures forall i :: 0 <= i < |ds| ==> 0 <= ds[i] < base
    decreases x
  {
    if x == 0 then []
    else
      assert x / base < x by { DivDecreases(base, x); }
      Digits(base, x / base) + [x % base]
  }

  lemma DivDecreases(base: nat, x: nat)
    requires IsBase(base) && x > 0
    ensures x / base < x && x / base >= 0
  {
    if base == 58 {
      assert x / 58 < x;
    } else {
      assert x / 256 < x;
    }
  }

  predicate InBase(base: nat, ds: seq<int>)
  {
    forall i :: 0 <= i < |ds| ==> 0 <= ds[i] < base
  }

  lemma {:induction false} ValueNonNegative(base: nat, ds: seq<int>)
    requires InBase(base, ds)
    ensures Value(base, ds) >= 0
  {
    if ds != [] {
      ValueNonNegative(base, ds[..|ds| - 1]);
      assert Value(base, ds[..|ds| - 1]) * base >= 0;
    }
  }

  lemma DivMod(base: nat, q: nat, r: nat)
    requires IsBase(base) && r < base
    ensures (q * base + r) / base == q && (q * base + r) % base == r
  {
    if base == 58 {
      assert (q * 58 + r) / 58 == q && (q * 58 + r) % 58 == r;
    } else {
      assert (q * 256 + r) / 256 == q && (q * 256 + r) % 256 == r;
    }
  }

  lemma DivisionLaw(base: nat, x: nat)
    requires IsBase(base)
    ensures x == (x / base) * base + x % base && 0 <= x % base < base
  {
    if base == 58 {
      assert x == (x / 58) * 58 + x % 58;
    } else {
      assert x == (x / 256) * 256 + x % 256;
    }
  }

  lemma {:induction false} ValueOfDigits(base: nat, x: nat)
    requires IsBase(base)
    ensures Value(base, Digits(base, x)) == x
    decreases x
  {
    if x > 0 {
      DivDecreases(base, x);
      ValueOfDigits(base, x / base);
      assert Digits(base, x)[..|Digits(base, x)| - 1] == Digits(base, x / base);
      DivisionLaw(base, x);
    }
  }

  lemma {:induction false} LeadingDigit(base: nat, x: nat)
    requires IsBase(base)
    ensures Digits(base, x) != [] ==> Digits(base, x)[0] != 0
    decreases x
  {
    if x > 0 {
      DivDecreases(base, x);
      LeadingDigit(base, x / base);
      if x / base == 0 {
        DivisionLaw(base, x);
      }
    }
  }

  lemma {:induction false} LeadingPositive(base: nat, ds: seq<int>)
    requires IsBase(base) && InBase(base, ds) && ds != [] && ds[0] != 0
    ensures Value(base, ds) > 0
    decreases |ds|
  {
    if |ds| == 1 {
      assert ds[..0] == [];
    } else {
      LeadingPositive(base, ds[..|ds| - 1]);
    }
  }

  lemma DigitsSnoc(base: nat, q: nat, r: nat)
    requires IsBase(base) && r < base && q * base + r > 0
    ensures Digits(base, q * base + r) == Digits(base, q) + [r]
  {
    DivMod(base, q, r);
  }

  /** Digits without a leading zero are the shortest digits of their value. */
  lemma {:induction false} DigitsOfValue(base: nat, ds: seq<int>)
    requires IsBase(base) && InBase(base, ds) && (ds != [] ==> ds[0] != 0)
    ensures Value(base, ds) >= 0 && Digits(base, Value(base, ds)) == ds
    decreases |ds|
  {
    ValueNonNegative(base, ds);
    if ds != [] {
      hide Digits;
      var front, last := ds[..|ds| - 1], ds[|ds| - 1];
      LeadingPositive(base, ds);
      ValueNonNegative(base, front);
      DigitsOfValue(base, front);
      assert ds == front + [last];
      DigitsSnoc(base, Value(base, front), last);
    }
  }

  /** How many leading elements are zero. */
  function LeadingZeros(ds: seq<int>): (n: nat)
    ensures n <= |ds| && (forall i :: 0 <= i < n ==> ds[i] == 0) && (n < |ds| ==> ds[n] != 0)
  {
    if ds == [] || ds[0] != 0 then 0 else
      var n := LeadingZeros(ds[1..]);
      assert forall i :: 1 <= i < n + 1 ==> ds[i] == ds[1..][i - 1];
      n + 1
  }

  function Zeros(n: nat): (z: seq<int>)
    ensures |z| == n && forall i :: 0 <= i < n ==> z[i] == 0
  {
    if n == 0 then [] else Zeros(n - 1) + [0]
  }

  lemma {:induction false} ValueIgnoresZeros(base: nat, n: nat, ds: seq<int>)
    ensures Value(base, Zeros(n) + ds) == Value(base, ds)
    decreases |ds|, n
  {
    if ds == [] {
      assert Zeros(n) + ds == Zeros(n);
      if n > 0 {
        assert Zeros(n)[..n - 1] == Zeros(n - 1);
        assert Zeros(n - 1) + [] == Zeros(n - 1);
        ValueIgnoresZeros(base, n - 1, []);
      }
    } else {
      ValueIgnoresZeros(base, n, ds[..|ds| - 1]);
      assert (Zeros(n) + ds)[..n + |ds| - 1] == Zeros(n) + ds[..|ds| - 1];
    }
  }

  lemma StripZeros(ds: seq<int>)
    ensures ds == Zeros(LeadingZeros(ds)) + ds[LeadingZeros(ds)..]
  {
  }

  /** The shape both codecs work on: zeros carried over one to one, then shortest digits. */
  function Recode(from: nat, to: nat, ds: seq<int>): seq<int>
    requires IsBase(from) && IsBase(to) && InBase(from, ds)
  {
    ValueNonNegative(from, ds);
    Zeros(LeadingZeros(ds)) + Digits(to, Value(from, ds))
  }

  lemma RecodeInBase(from: nat, to: nat, ds: seq<int>)
    requires IsBase(from) && IsBase(to) && InBase(from, ds)
    ensures InBase(to, Recode(from, to, ds))
  {
  }

  lemma LeadingZerosOf(n: nat, ds: seq<int>)
    requires ds != [] ==> ds[0] != 0
    ensures LeadingZeros(Zeros(n) + ds) == n
  {
    var all := Zeros(n) + ds;
    var m := LeadingZeros(all);
    if ds != [] {
      assert all[n] == ds[0];
    }
  }

  /** Changing base and back is the identity, leading zeros included. */
  lemma RecodeRoundTrip(from: nat, to: nat, ds: seq<int>)
    requires IsBase(from) && IsBase(to) && InBase(from, ds)
    ensures InBase(to, Recode(from, to, ds)) && Recode(to, from, Recode(from, to, ds)) == ds
  {
    RecodeInBase(from, to, ds);
    ValueNonNegative(from, ds);
    var n, x := LeadingZeros(ds), Value(from, ds);
    var rest := ds[n..];
    StripZeros(ds);
    ValueIgnoresZeros(from, n, rest);
    DigitsOfValue(from, rest);
    LeadingDigit(to, x);
    LeadingZerosOf(n, Digits(to, x));
    ValueIgnoresZeros(to, n, Digits(to, x));
    ValueOfDigits(to, x);
  }

  /** Going to a smaller base never shortens. */
  lemma RecodeLength(from: nat, to: nat, ds: seq<int>)
    requires IsBase(from) && IsBase(to) && from >= to && InBase(from, ds)
    ensures |Recode(from, to, ds)| >= |ds|
  {
    hide Digits, Value, LeadingZeros;
    var n := LeadingZeros(ds);
    var rest := ds[n..];
    StripZeros(ds);
    ValueIgnoresZeros(from, n, rest);
    ValueNonNegative(from, ds);
    assert InBase(from, rest);
    if rest != [] { RestLength(from, to, rest); }
  }

  lemma RestLength(from: nat, to: nat, ds: seq<int>)
    requires IsBase(from) && IsBase(to) && from >= to && InBase(from, ds) && ds != [] && ds[0] != 0
    ensures Value(from, ds) >= 0 && |Digits(to, Value(from, ds))| >= |ds|
  {
    hide Digits, Value, Power;
    ValueNonNegative(from, ds);
    LowerBound(from, to, ds);
    LongEnough(to, Value(from, ds), |ds|);
  }

  function Power(b: nat, e: nat): nat { if e == 0 then 1 else b * Power(b, e - 1) }

  lemma {:induction false} LowerBound(from: nat, to: nat, ds: seq<int>)
    requires IsBase(from) && IsBase(to) && from >= to && InBase(from, ds) && ds != [] && ds[0] != 0
    ensures Value(from, ds) >= Power(to, |ds| - 1)
    decreases |ds|
  {
    if |ds| == 1 {
      assert ds[..0] == [];
    } else {
      var front := ds[..|ds| - 1];
      LowerBound(from, to, front);
      var v, p := Value(from, front), Power(to, |ds| - 2);
      assert v * from >= p * to by {
        if from == 58 {
          assert to == 58;
        } else if to == 58 {
          assert v * 256 >= p * 58;
        }
      }
    }
  }

  lemma {:induction false} LongEnough(to: nat, x: nat, n: nat)
    requires IsBase(to) && n >= 1 && x >= Power(to, n - 1)
    ensures |Digits(to, x)| >= n
    decreases n
  {
    PowerPositive(to, n - 1);
    if n > 1 {
      DivisionLaw(to, x);
      assert x / to >= Power(to, n - 2) by {
        if to == 58 {
          assert x >= 58 * Power(58, n - 2);
        } else {
          assert x >= 256 * Power(256, n - 2);
        }
      }
      LongEnough(to, x / to, n - 1);
    }
  }

  lemma {:induction false} PowerPositive(b: nat, e: nat)
    requires b >= 1
    ensures Power(b, e) >= 1
  {
    if e > 0 { PowerPositive(b, e - 1); }
  }

  // ---- Symbols ----

  /** The alphabet skips '0', 'O', 'I' and 'l': six runs of consecutive characters. */
  const ALPHABET: string := "123456789" + "ABCDEFGH" + "JKLMN" + "PQRSTUVWXYZ" + "abcdefghijk" + "mnopqrstuvwxyz"

  /** The inverse table: 255 marks a character outside the alphabet. */
  function B58(c: char): int
  {
    if '1' <= c <= '9' then c as int - '1' as int
    else if 'A' <= c <= 'H' then c as int - 'A' as int + 9
    else if 'J' <= c <= 'N' then c as int - 'J' as int + 17
    else if 'P' <= c <= 'Z' then c as int - 'P' as int + 22
    else if 'a' <= c <= 'k' then c as int - 'a' as int + 33
    else if 'm' <= c <= 'z' then c as int - 'm' as int + 44
    else 255
  }

  predicate IsRun(s: string, first: char)
  {
    forall i :: 0 <= i < |s| ==> s[i] as int == first as int + i
  }

  lemma Runs()
    ensures IsRun("123456789", '1') && IsRun("ABCDEFGH", 'A') && IsRun("JKLMN", 'J')
    ensures IsRun("PQRSTUVWXYZ", 'P') && IsRun("abcdefghijk", 'a') && IsRun("mnopqrstuvwxyz", 'm')
  {
  }

  /** The alphabet, position by position. */
  lemma AlphabetAt(d: int)
    requires 0 <= d < |ALPHABET|
    ensures ALPHABET[d] as int ==
      if d < 9 then '1' as int + d
      else if d < 17 then 'A' as int + d - 9
      else if d < 22 then 'J' as int + d - 17
      else if d < 33 then 'P' as int + d - 22
      else if d < 44 then 'a' as int + d - 33
      else 'm' as int + d - 44
  {
    Runs();
    var r1, r2, r3, r4, r5, r6 := "123456789", "ABCDEFGH", "JKLMN", "PQRSTUVWXYZ", "abcdefghijk", "mnopqrstuvwxyz";
    assert ALPHABET[d] == if d < 9 then r1[d] else if d < 17 then r2[d - 9] else if d < 22 then r3[d - 17]
      else if d < 33 then r4[d - 22] else if d < 44 then r5[d - 33] else r6[d - 44];
  }

  lemma AlphabetInverse()
    ensures |ALPHABET| == 58
    ensures forall d :: 0 <= d < 58 ==> B58(ALPHABET[d]) == d
    ensures forall c :: B58(c) != 255 ==> 0 <= B58(c) < 58 && ALPHABET[B58(c)] == c
  {
    forall d | 0 <= d < 58
      ensures B58(ALPHABET[d]) == d
    {
      AlphabetAt(d);
    }
    forall c | B58(c) != 255
      ensures 0 <= B58(c) < 58 && ALPHABET[B58(c)] == c
    {
      AlphabetAt(B58(c));
    }
  }

  predicate IsAlphanumeric(c: char) { '0' <= c <= '9' || 'A' <= c <= 'Z' || 'a' <= c <= 'z' }

  /** The symbols are the digits and letters without the four that are easily confused, in ascending order. */
  lemma AlphabetIs()
    ensures forall i, j :: 0 <= i < j < 58 ==> ALPHABET[i] < ALPHABET[j]
    ensures forall c :: c in ALPHABET <==> IsAlphanumeric(c) && c !in {'0', 'O', 'I', 'l'}
  {
    AlphabetInverse();
    forall i, j | 0 <= i < j < 58 ensures ALPHABET[i] < ALPHABET[j] {
      AlphabetAt(i);
      AlphabetAt(j);
    }
    forall c ensures c in ALPHABET <==> IsAlphanumeric(c) && c !in {'0', 'O', 'I', 'l'} {
      if c in ALPHABET {
        var d :| 0 <= d < 58 && ALPHABET[d] == c;
        AlphabetAt(d);
      }
      assert IsAlphanumeric(c) && c !in {'0', 'O', 'I', 'l'} ==> B58(c) != 255;
    }
  }

  function Symbol(d: int): char
    requires 0 <= d < 58
  {
    AlphabetInverse();
    ALPHABET[d]
  }

  function Symbols(ds: seq<int>): (s: string)
    requires InBase(58, ds)
    ensures |s| == |ds| && forall i :: 0 <= i < |s| ==> s[i] == Symbol(ds[i])
  {
    seq(|ds|, i requires 0 <= i < |ds| => Symbol(ds[i]))
  }

  /** A string over the alphabet. */
  predicate Valid58(s: string) { forall i :: 0 <= i < |s| ==> B58(s[i]) != 255 }

  function Numbers(s: string): (ds: seq<int>)
    requires Valid58(s)
    ensures InBase(58, ds) && |ds| == |s| && forall i :: 0 <= i < |s| ==> ds[i] == B58(s[i])
  {
    AlphabetInverse();
    seq(|s|, i requires 0 <= i < |s| => B58(s[i]))
  }

  lemma SymbolsInverse(ds: seq<int>)
    requires InBase(58, ds)
    ensures Valid58(Symbols(ds)) && Numbers(Symbols(ds)) == ds
  {
    AlphabetInverse();
    forall i | 0 <= i < |ds|
      ensures B58(Symbols(ds)[i]) == ds[i]
    {
      assert Symbols(ds)[i] == Symbol(ds[i]);
    }
  }

  lemma NumbersInverse(s: string)
    requires Valid58(s)
    ensures Symbols(Numbers(s)) == s
  {
    AlphabetInverse();
    forall i | 0 <= i < |s|
      ensures Symbols(Numbers(s))[i] == s[i]
    {
      assert Numbers(s)[i] == B58(s[i]);
    }
  }

  // ---- What the codec computes ----

  function Encoded(b: seq<int>): string
    requires InBase(256, b)
  {
    RecodeInBase(256, 58, b);
    Symbols(Recode(256, 58, b))
  }

  function Decoded(s: string): seq<int>
  {
    if Valid58(s) then Recode(58, 256, Numbers(s)) else []
  }

  /** Decoding undoes encoding for every byte sequence, leading zero bytes included. */
  lemma DecodeOfEncode(b: seq<int>)
    requires InBase(256, b)
    ensures Decoded(Encoded(b)) == b
  {
    RecodeRoundTrip(256, 58, b);
    SymbolsInverse(Recode(256, 58, b));
  }

  /** Encoding undoes decoding exactly for the strings over the alphabet. */
  lemma EncodeOfDecode(s: string)
    ensures InBase(256, Decoded(s))
    ensures Encoded(Decoded(s)) == s <==> Valid58(s)
  {
    if Valid58(s) {
      RecodeRoundTrip(58, 256, Numbers(s));
      NumbersInverse(s);
    }
  }

  /** No encoding contains the separators of the table keys, and none is shorter than its input. */
  lemma EncodedText(b: seq<int>)
    requires InBase(256, b)
    ensures |Encoded(b)| >= |b| && 'O' !in Encoded(b) && 'I' !in Encoded(b)
  {
    hide Recode, B58, Symbols;
    RecodeInBase(256, 58, b);
    RecodeLength(256, 58, b);
    SymbolsInverse(Recode(256, 58, b));
    NoSeparators();
  }

  lemma NoSeparators()
    ensures B58('O') == 255 && B58('I') == 255
  {
  }

  // ---- The loops ----

  function Reversed(s: string): (r: string)
    ensures |r| == |s| && forall i :: 0 <= i < |s| ==> r[i] == s[|s| - 1 - i]
  {
    seq(|s|, i requires 0 <= i < |s| => s[|s| - 1 - i])
  }

  lemma ReversedSnoc(s: string, c: char)
    ensures Reversed(s + [c]) == [c] + Reversed(s)
  {
  }

  /** One round of the division loop. */
  lemma DivideOnce(x: nat, answer: string)
    requires x > 0
    ensures x / 58 < x && 0 <= x % 58 < 58
    ensures Symbols(Digits(58, x)) + Reversed(answer)
        == Symbols(Digits(58, x / 58)) + Reversed(answer + [Symbol(x % 58)])
  {
    DivDecreases(58, x);
    DigitsStep(x);
    ReversedSnoc(answer, Symbol(x % 58));
    hide Digits, Reversed, Symbols;
    assert Symbols(Digits(58, x / 58)) + [Symbol(x % 58)] + Reversed(answer)
        == Symbols(Digits(58, x / 58)) + ([Symbol(x % 58)] + Reversed(answer));
  }

  lemma DigitsStep(x: nat)
    requires x > 0
    ensures x / 58 >= 0 && 0 <= x % 58 < 58
    ensures Symbols(Digits(58, x)) == Symbols(Digits(58, x / 58)) + [Symbol(x % 58)]
  {
    hide Symbol;
    assert Digits(58, x) == Digits(58, x / 58) + [x % 58];
    SymbolsSnoc(Digits(58, x / 58), x % 58);
  }

  lemma SymbolsSnoc(front: seq<int>, r: int)
    requires InBase(58, front) && 0 <= r < 58
    ensures Symbols(front + [r]) == Symbols(front) + [Symbol(r)]
  {
    hide Symbol;
  }

  lemma OneMoreOne(i: nat, answer: string, digits: string)
    requires Reversed(answer) == Symbols(Zeros(i)) + Reversed(digits)
    ensures Reversed(answer + ['1']) == Symbols(Zeros(i + 1)) + Reversed(digits)
  {
    ReversedSnoc(answer, '1');
    AlphabetAt(0);
    assert Symbols(Zeros(i + 1)) == [Symbol(0)] + Symbols(Zeros(i));
  }

  lemma EncodedShape(b: seq<int>)
    requires InBase(256, b)
    ensures Value(256, b) >= 0 && Encoded(b) == Symbols(Zeros(LeadingZeros(b))) + Symbols(Digits(58, Value(256, b)))
  {
    ValueNonNegative(256, b);
    RecodeInBase(256, 58, b);
    hide Digits, Value, Zeros, LeadingZeros, Symbols;
    SymbolsAppend(Zeros(LeadingZeros(b)), Digits(58, Value(256, b)));
  }

  lemma SymbolsAppend(a: seq<int>, b: seq<int>)
    requires InBase(58, a) && InBase(58, b)
    ensures InBase(58, a + b) && Symbols(a + b) == Symbols(a) + Symbols(b)
  {
  }

  method Encode(b: seq<int>) returns (s: string)
    requires InBase(256, b)
    ensures s == Encoded(b)
  {
    hide Digits, Value, Encoded, Zeros;
    EncodedShape(b);
    var x: nat := Value(256, b);
    var answer := "";
    while x > 0
      invariant Symbols(Digits(58, Value(256, b))) == Symbols(Digits(58, x)) + Reversed(answer)
      decreases x
    {
      DivideOnce(x, answer);
      answer := answer + [Symbol(x % 58)];
      x := x / 58;
    }
    DigitsOfZero();
    assert Reversed(answer) == Symbols(Digits(58, Value(256, b)));
    ghost var digits := answer;
    var i := 0;
    while i < |b| && b[i] == 0
      invariant 0 <= i <= LeadingZeros(b)
      invariant Reversed(answer) == Symbols(Zeros(i)) + Reversed(digits)
    {
      OneMoreOne(i, answer, digits);
      answer := answer + ['1'];
      i := i + 1;
    }
    s := ReverseSlice(answer);
  }

  lemma DigitsOfZero()
    ensures Symbols(Digits(58, 0)) == []
    ensures Zeros(0) == []
  {
  }

  method ReverseSlice(answer: string) returns (s: string)
    ensures s == Reversed(answer)
  {
    s := answer;
    var n := |answer|;
    for i := 0 to n / 2
      invariant |s| == n
      invariant forall k :: 0 <= k < i ==> s[k] == answer[n - 1 - k] && s[n - 1 - k] == answer[k]
      invariant forall k :: i <= k < n - i ==> s[k] == answer[k]
    {
      s := s[i := s[n - 1 - i]][n - 1 - i := s[i]];
    }
    forall k | 0 <= k < n
      ensures s[k] == answer[n - 1 - k]
    {
      if k >= n / 2 && n - 1 - k < n / 2 {
        assert s[n - 1 - (n - 1 - k)] == answer[n - 1 - k];
      }
    }
  }

  lemma {:induction false} ValueSplit(a: seq<int>, b: seq<int>)
    requires InBase(58, a) && InBase(58, b)
    ensures Value(58, a + b) == Value(58, a) * Power(58, |b|) + Value(58, b)
    decreases |b|
  {
    if b == [] {
      assert a + b == a;
    } else {
      var front := b[..|b| - 1];
      ValueSplit(a, front);
      assert (a + b)[..|a + b| - 1] == a + front && (a + b)[|a + b| - 1] == b[|b| - 1];
      ShiftOnce(Value(58, a), Power(58, |front|), Value(58, front), b[|b| - 1]);
    }
  }

  lemma ShiftOnce(w: int, p: int, v: int, d: int)
    ensures (w * p + v) * 58 + d == w * (58 * p) + (v * 58 + d)
  {
  }

  lemma ValueOne(d: int)
    requires 0 <= d < 58
    ensures Value(58, [d]) == d
  {
    assert [d][..0] == [];
  }

  lemma ValueCons(d: int, b: seq<int>)
    requires 0 <= d < 58 && InBase(58, b)
    ensures Value(58, [d] + b) == d * Power(58, |b|) + Value(58, b)
  {
    ValueOne(d);
    ValueSplit([d], b);
    var v := Value(58, [d]);
    assert v * Power(58, |b|) == d * Power(58, |b|);
  }

  lemma NumbersCons(b: string, i: nat)
    requires i < |b| && Valid58(b[i..]) && Valid58(b[i + 1..])
    ensures Numbers(b[i..]) == [B58(b[i])] + Numbers(b[i + 1..])
  {
    assert b[i..] == [b[i]] + b[i + 1..];
  }

  lemma B58Range(c: char)
    requires B58(c) != 255
    ensures 0 <= B58(c) < 58
  {
  }

  /** One round of the accumulation loop. */
  lemma AccumulateOnce(b: string, i: nat, answer: nat, j: nat)
    requires i < |b| && Valid58(b[i..])
    requires Valid58(b[i + 1..])
    requires j == Power(58, |b| - i - 1) && answer == Value(58, Numbers(b[i + 1..]))
    ensures j * 58 == Power(58, |b| - i) && answer + j * B58(b[i]) == Value(58, Numbers(b[i..]))
  {
    hide Value, B58, Power, Numbers;
    FirstSymbol(b, i);
    NumbersCons(b, i);
    var d, rest := B58(b[i]), Numbers(b[i + 1..]);
    ValueCons(d, rest);
    NextPower(|b| - i - 1);
    assert j * d == d * Power(58, |rest|);
  }

  lemma FirstSymbol(b: string, i: nat)
    requires i < |b| && Valid58(b[i..]) && Valid58(b[i + 1..])
    ensures 0 <= B58(b[i]) < 58 && InBase(58, Numbers(b[i + 1..])) && |Numbers(b[i + 1..])| == |b| - i - 1
  {
    assert b[i..][0] == b[i];
    B58Range(b[i]);
  }

  lemma NextPower(e: nat)
    ensures Power(58, e) * 58 == Power(58, e + 1)
  {
  }

  lemma ValidCons(b: string, i: nat)
    requires i < |b| && Valid58(b[i + 1..])
    ensures Valid58(b[i..]) <==> B58(b[i]) != 255
  {
    assert b[i..] == [b[i]] + b[i + 1..];
  }

  lemma OnesAreZeros(b: string, n: nat)
    requires Valid58(b) && n <= LeadingZeros(Numbers(b))
    ensures n < |b| ==> (b[n] == '1' <==> n < LeadingZeros(Numbers(b)))
  {
    if n < |b| {
      assert Numbers(b)[n] == B58(b[n]);
    }
  }

  method Decode(b: string) returns (val: seq<int>)
    ensures val == Decoded(b)
  {
    hide Value, Power;
    var answer: nat, j: nat := 0, 1;
    var i := |b|;
    StartDecode(b);
    while i > 0
      invariant 0 <= i <= |b| && Valid58(b[i..])
      invariant j == Power(58, |b| - i) && answer == Value(58, Numbers(b[i..]))
      decreases i
    {
      i := i - 1;
      var tmp := B58(b[i]);
      ValidCons(b, i);
      if tmp == 255 {
        assert !Valid58(b);
        return [];
      }
      AccumulateOnce(b, i, answer, j);
      B58Range(b[i]);
      answer := answer + j * tmp;
      j := j * 58;
    }
    assert b[0..] == b;
    var tmpval := Digits(256, answer);
    var numZeros := 0;
    OnesAreZeros(b, 0);
    while numZeros < |b| && b[numZeros] == '1'
      invariant 0 <= numZeros <= LeadingZeros(Numbers(b))
      invariant numZeros < |b| ==> (b[numZeros] == '1' <==> numZeros < LeadingZeros(Numbers(b)))
    {
      numZeros := numZeros + 1;
      OnesAreZeros(b, numZeros);
    }
    val := Zeros(numZeros) + tmpval;
  }

  lemma StartDecode(b: string)
    ensures Power(58, 0) == 1 && Value(58, Numbers(b[|b|..])) == 0
  {
  }

  // ---- Addresses ----

  type Hash = seq<int> -> seq<int>

  ghost predicate IsHash(h: Hash, size: nat)
  {
    forall b :: |h(b)| == size && InBase(256, h(b))
  }

  /** Version byte, 20 bytes of hash, 4 bytes of checksum over the first 21. */
  function AddressBytes(data: seq<int>, magic: Byte, sha256: Hash, ripemd160: Hash): (b: seq<int>)
    requires |ripemd160(sha256(data))| == 20
    requires |sha256(sha256([magic] + ripemd160(sha256(data))))| == 32
    ensures |b| == 25
  {
    var body := [magic] + ripemd160(sha256(data));
    body + sha256(sha256(body))[..4]
  }

  method BinToB58Check(data: seq<int>, magic: Byte, sha256: Hash, ripemd160: Hash) returns (address: string)
    requires IsHash(sha256, 32) && IsHash(ripemd160, 20)
    ensures address == Encoded(AddressBytes(data, magic, sha256, ripemd160))
  {
    var pubHash := ripemd160(sha256(data));
    var finalData := [magic] + Zeros(24);
    for i := 0 to 20
      invariant finalData == [magic] + pubHash[..i] + Zeros(24)[i..]
    {
      finalData := finalData[i + 1 := pubHash[i]];
      assert [magic] + pubHash[..i + 1] + Zeros(24)[i + 1..] == finalData;
    }
    var body := finalData[..21];
    assert body == [magic] + pubHash;
    var check := sha256(sha256(body));
    for i := 0 to 4
      invariant finalData == body + check[..i] + Zeros(24)[20 + i..]
    {
      finalData := finalData[i + 21 := check[i]];
      assert body + check[..i + 1] + Zeros(24)[20 + i + 1..] == finalData;
    }
    assert finalData == body + check[..4];
    address := Encode(finalData);
  }

  /** Such an address decodes to its 25 bytes, is long enough to fill the key of the address
      table, and contains neither of the key's separators. */
  lemma AddressDecodes(data: seq<int>, magic: Byte, sha256: Hash, ripemd160: Hash)
    requires IsHash(sha256, 32) && IsHash(ripemd160, 20)
    ensures var b := AddressBytes(data, magic, sha256, ripemd160);
      && InBase(256, b)
      && Decoded(Encoded(b)) == b && b[0] == magic
      && b[1..21] == ripemd160(sha256(data)) && b[21..] == sha256(sha256(b[..21]))[..4]
      && |Encoded(b)| >= 25 && 'O' !in Encoded(b) && 'I' !in Encoded(b)
  {
    var b := AddressBytes(data, magic, sha256, ripemd160);
    DecodeOfEncode(b);
    EncodedText(b);
    assert b[..21] == [magic] + ripemd160(sha256(data));
  }
}
