// A byte array sharded over files of a fixed size (btc_collect/src/util/logical_file.go).

module LogicalFile {
  import opened Options

  type Byte = x: int | 0 <= x < 256

  /** The files, by the number in their name. */
  type Files = map<nat, seq<Byte>>

  /** The byte at a position of the whole array, if any shard holds it. */
  function At(fs: Files, size: nat, p: nat): Option<Byte>
    requires size > 0
  {
    var n, o := p / size, p % size;
    if n in fs && o < |fs[n]| then Some(fs[n][o]) else None
  }

  /** No shard is larger than the file size. */
  ghost predicate Bounded(fs: Files, size: nat)
  {
    forall n :: n in fs ==> |fs[n]| <= size
  }

  lemma AtLeastOnce(k: int, size: nat)
    requires k >= 1
    ensures k * size >= size
  {
  }

  lemma DivisionUnique(size: nat, q1: int, r1: nat, q2: int, r2: nat)
    requires r1 < size && r2 < size && q1 * size + r1 == q2 * size + r2
    ensures q1 == q2 && r1 == r2
  {
    assert (q1 - q2) * size == r2 - r1;
    assert (q2 - q1) * size == r1 - r2;
    if q1 > q2 {
      AtLeastOnce(q1 - q2, size);
    } else if q1 < q2 {
      AtLeastOnce(q2 - q1, size);
    }
  }

  lemma Locate(size: nat, n: nat, o: nat)
    requires size > 0 && o < size
    ensures (n * size + o) / size == n && (n * size + o) % size == o
  {
    var p := n * size + o;
    DivisionLaw(size, p);
    DivisionUnique(size, n, o, p / size, p % size);
  }

  function Zeros(n: nat): (z: seq<Byte>)
    ensures |z| == n && forall i :: 0 <= i < n ==> z[i] == 0
  {
    if n == 0 then [] else Zeros(n - 1) + [0]
  }

  /** Seek and write on one file: a gap before the offset reads as zeros. */
  function WriteAt(file: seq<Byte>, offset: nat, data: seq<Byte>): (f: seq<Byte>)
    ensures |f| == if |file| > offset + |data| then |file| else offset + |data|
    ensures forall i :: 0 <= i < |f| ==>
      f[i] == if offset <= i < offset + |data| then data[i - offset] else if i < |file| then file[i] else 0
  {
    var padded := if |file| < offset then file + Zeros(offset - |file|) else file;
    var rest := if |padded| > offset + |data| then padded[offset + |data|..] else [];
    padded[..offset] + data + rest
  }

  /** What one byte of the array is after `data` was written at `start`. */
  function Written(fs: Files, size: nat, start: nat, data: seq<Byte>, p: nat): Option<Byte>
    requires size > 0
  {
    if start <= p < start + |data| then Some(data[p - start])
    else if At(fs, size, p).Some? then At(fs, size, p)
    else if data != [] && p < start && p / size == start / size then Some(0)
    else None
  }

  function Min(x: int, y: int): int { if x < y then x else y }

  /** One file of a write: the piece that fits the shard of `start`. */
  lemma WriteShard(fs: Files, size: nat, start: nat, piece: seq<Byte>, file: seq<Byte>, p: nat)
    requires size > 0 && 0 < |piece| <= size - start % size
    requires file == if start / size in fs then fs[start / size] else []
    ensures At(fs[start / size := WriteAt(file, start % size, piece)], size, p) == Written(fs, size, start, piece, p)
  {
    DivisionLaw(size, start);
    DivisionLaw(size, p);
    var n := start / size;
    if p / size == n {
      assert p - start == p % size - start % size;
    } else {
      SameShard(size, start, |piece|, p);
    }
  }

  lemma DivisionLaw(size: nat, p: nat)
    requires size > 0
    ensures p == (p / size) * size + p % size && 0 <= p % size < size
  {
  }

  /** A piece that fits its shard lies in one shard. */
  lemma SameShard(size: nat, start: nat, len: nat, p: nat)
    requires size > 0 && len <= size - start % size
    ensures start <= p < start + len ==> p / size == start / size
  {
    if start <= p < start + len {
      DivisionLaw(size, start);
      Locate(size, start / size, start % size + (p - start));
    }
  }

  /** Writing a first piece and then the rest is writing everything. */
  lemma WrittenInTurn(fs: Files, mid: Files, size: nat, start: nat, data: seq<Byte>, n: nat, p: nat)
    requires size > 0 && 0 < n <= |data| && n <= size - start % size
    requires n < |data| ==> (start + n) % size == 0
    requires At(mid, size, p) == Written(fs, size, start, data[..n], p)
    ensures Written(mid, size, start + n, data[n..], p) == Written(fs, size, start, data, p)
  {
    if n < |data| && p < start + n && p / size == (start + n) / size {
      DivisionLaw(size, start + n);
      DivisionLaw(size, p);
      assert false;
    }
  }

  /** Writing `left` at `at` into fs' is writing `data` at `start` into fs. */
  ghost predicate SameWrite(fs': Files, at: nat, left: seq<Byte>, fs: Files, start: nat, data: seq<Byte>, size: nat)
    requires size > 0
  {
    forall p: nat :: Written(fs', size, at, left, p) == Written(fs, size, start, data, p)
  }

  lemma SameWriteTwice(fs'': Files, at': nat, left': seq<Byte>, fs': Files, at: nat, left: seq<Byte>,
                       fs: Files, start: nat, data: seq<Byte>, size: nat)
    requires size > 0
    requires SameWrite(fs'', at', left', fs', at, left, size) && SameWrite(fs', at, left, fs, start, data, size)
    ensures SameWrite(fs'', at', left', fs, start, data, size)
  {
    hide Written;
  }

  /** One round of the write loop. */
  lemma WriteOnce(fs: Files, size: nat, at: nat, left: seq<Byte>, n: nat)
    requires size > 0 && left != [] && n == Min(|left|, size - at % size)
    ensures var file := if at / size in fs then fs[at / size] else [];
      SameWrite(fs[at / size := WriteAt(file, at % size, left[..n])], at + n, left[n..], fs, at, left, size)
  {
    var file := if at / size in fs then fs[at / size] else [];
    var next := fs[at / size := WriteAt(file, at % size, left[..n])];
    DivisionLaw(size, at);
    if n < |left| {
      NextShard(size, at, n);
    }
    forall p: nat
      ensures Written(next, size, at + n, left[n..], p) == Written(fs, size, at, left, p)
    {
      hide Written, At;
      WriteShard(fs, size, at, left[..n], file, p);
      WrittenInTurn(fs, next, size, at, left, n, p);
    }
  }

  lemma NothingWritten(fs: Files, size: nat, at: nat)
    requires size > 0
    ensures forall p: nat :: Written(fs, size, at, [], p) == At(fs, size, p)
  {
  }

  /** Any write keeps every shard within the file size and changes exactly the bytes it covers;
      a gap it leaves inside its first shard reads as zeros. */
  method WriteData(fs: Files, size: nat, start: nat, data: seq<Byte>) returns (fs': Files)
    requires size > 0 && Bounded(fs, size)
    ensures Bounded(fs', size)
    ensures forall p: nat :: At(fs', size, p) == Written(fs, size, start, data, p)
  {
    hide Written, At, SameWrite, Bounded;
    fs' := fs;
    NothingYet(fs, start, data, size);
    var at: nat, left: seq<Byte> := start, data;
    while |left| > 0
      invariant Bounded(fs', size) && SameWrite(fs', at, left, fs, start, data, size)
      decreases |left|
    {
      var next, n := WritePiece(fs', size, at, left);
      SameWriteTwice(next, at + n, left[n..], fs', at, left, fs, start, data, size);
      fs' := next;
      left := left[n..];
      at := at + n;
    }
    AllWritten(fs', at, fs, start, data, size);
  }

  /** The part of a write that fits the shard of its first byte. */
  method WritePiece(fs: Files, size: nat, at: nat, left: seq<Byte>) returns (fs': Files, n: nat)
    requires size > 0 && Bounded(fs, size) && left != []
    ensures 0 < n <= |left| && Bounded(fs', size)
    ensures SameWrite(fs', at + n, left[n..], fs, at, left, size)
  {
    hide Written, At, SameWrite;
    DivisionLaw(size, at);
    n := Min(|left|, size - at % size);
    var file := if at / size in fs then fs[at / size] else [];
    WriteOnce(fs, size, at, left, n);
    fs' := fs[at / size := WriteAt(file, at % size, left[..n])];
  }

  lemma NothingYet(fs: Files, start: nat, data: seq<Byte>, size: nat)
    requires size > 0
    ensures SameWrite(fs, start, data, fs, start, data, size)
  {
  }

  lemma AllWritten(fs': Files, at: nat, fs: Files, start: nat, data: seq<Byte>, size: nat)
    requires size > 0 && SameWrite(fs', at, [], fs, start, data, size)
    ensures forall p: nat :: At(fs', size, p) == Written(fs, size, start, data, p)
  {
    NothingWritten(fs', size, at);
  }

  lemma NextShard(size: nat, at: nat, n: nat)
    requires size > 0 && n == size - at % size
    ensures (at + n) % size == 0
  {
    DivisionLaw(size, at);
    var q := at / size;
    assert at + n == q * size + size;
    assert q * size + size == (q + 1) * size + 0;
    Locate(size, q + 1, 0);
  }

  /** All bytes from `start` up to p are held by shards. */
  ghost predicate HeldUpTo(fs: Files, size: nat, start: nat, p: nat)
    requires size > 0
  {
    forall q :: start <= q < p ==> At(fs, size, q).Some?
  }

  /** The first byte no shard holds, in a file that exists. */
  ghost predicate Trap(fs: Files, size: nat, start: nat, end: nat, p: nat)
    requires size > 0
  {
    && start <= p < end && HeldUpTo(fs, size, start, p)
    && At(fs, size, p).None? && p / size in fs
  }

  /** The first byte of the range that no shard holds, if there is one, lies in a file that does
      not exist.  Otherwise the read loop would get nothing from that file for ever. */
  ghost predicate Readable(fs: Files, size: nat, start: nat, len: nat)
    requires size > 0
  {
    forall p :: start <= p < start + len && HeldUpTo(fs, size, start, p) && At(fs, size, p).None? ==> p / size !in fs
  }

  /** The bytes read so far are the array from `start` on. */
  ghost predicate IsFlat(fs: Files, size: nat, start: nat, data: seq<Byte>)
    requires size > 0
  {
    forall q: nat :: start <= q < start + |data| ==> At(fs, size, q) == Some(data[q - start])
  }

  lemma NextByteAvailable(fs: Files, size: nat, start: nat, len: nat, data: seq<Byte>)
    requires size > 0 && Readable(fs, size, start, len) && |data| < len
    requires IsFlat(fs, size, start, data)
    requires (start + |data|) / size in fs
    ensures (start + |data|) % size < |fs[(start + |data|) / size]|
  {
    assert HeldUpTo(fs, size, start, start + |data|);
    assert !Trap(fs, size, start, start + len, start + |data|);
  }

  /** What one read of a shard returns continues the array. */
  lemma ReadShard(fs: Files, size: nat, start: nat, data: seq<Byte>, count: nat)
    requires size > 0 && Bounded(fs, size) && IsFlat(fs, size, start, data)
    requires (start + |data|) / size in fs && (start + |data|) % size + count <= |fs[(start + |data|) / size]|
    ensures var p := start + |data|;
      IsFlat(fs, size, start, data + fs[p / size][p % size..p % size + count])
  {
    var p := start + |data|;
    DivisionLaw(size, p);
    forall q: nat | p <= q < p + count
      ensures At(fs, size, q) == Some(fs[p / size][p % size + (q - p)])
    {
      Locate(size, p / size, p % size + (q - p));
    }
  }

  /** ReadData returns the array from `start` on, up to `len` bytes or up to the first file that
      does not exist, however short the single reads are. */
  method ReadData(fs: Files, size: nat, start: nat, len: nat) returns (data: seq<Byte>)
    requires size > 0 && Bounded(fs, size) && Readable(fs, size, start, len)
    ensures |data| <= len && IsFlat(fs, size, start, data)
    ensures |data| < len ==> (start + |data|) / size !in fs
  {
    hide Readable, IsFlat;
    NothingRead(fs, size, start);
    data := [];
    var p: nat, left: nat := start, len;
    while left > 0
      invariant p == start + |data| && left == len - |data|
      invariant IsFlat(fs, size, start, data)
      decreases left
    {
      if p / size !in fs {
        break;
      }
      NextByteAvailable(fs, size, start, len, data);
      DivisionLaw(size, p);
      var file, offset := fs[p / size], p % size;
      var most := Min(left, |file| - offset);
      var count: nat :| 1 <= count <= most;
      ReadShard(fs, size, start, data, count);
      data := data + file[offset..offset + count];
      p := p + count;
      left := left - count;
    }
  }

  lemma NothingRead(fs: Files, size: nat, start: nat)
    requires size > 0
    ensures IsFlat(fs, size, start, [])
  {
  }

  /** What was written is read back. */
  method WriteThenRead(fs: Files, size: nat, start: nat, data: seq<Byte>) returns (fs': Files, got: seq<Byte>)
    requires size > 0 && Bounded(fs, size)
    ensures got == data
  {
    fs' := WriteData(fs, size, start, data);
    forall p: nat | start <= p < start + |data|
      ensures At(fs', size, p) == Some(data[p - start])
    {
      assert At(fs', size, p) == Written(fs, size, start, data, p);
    }
    got := ReadData(fs', size, start, |data|);
    assert |got| < |data| ==> At(fs', size, start + |got|).Some?;
    forall i: nat | i < |data|
      ensures got[i] == data[i]
    {
      assert At(fs', size, start + i) == Some(got[start + i - start]);
    }
  }

  // ---- When the read loop ends ----

  /** One iteration at position p of a read up to `end`: a file that is there is read, at its end without any
      byte, otherwise at least one byte and at most what is left in the file and asked for. */
  predicate ReadStep(fs: Files, size: nat, end: nat, p: nat, p': nat)
    requires size > 0
  {
    && p < end && p / size in fs
    && if At(fs, size, p).None? then p' == p else p < p' <= end && p' - p <= |fs[p / size]| - p % size
  }

  /** The loop is left when everything is read or the next file does not exist. */
  predicate Ended(fs: Files, size: nat, end: nat, p: nat)
    requires size > 0
  {
    p >= end || p / size !in fs
  }

  /** The positions of some run of the loop, complete or not. */
  ghost predicate IsRun(fs: Files, size: nat, start: nat, end: nat, ps: seq<nat>)
    requires size > 0
  {
    && |ps| > 0 && ps[0] == start
    && forall i, j :: 0 <= i && j == i + 1 < |ps| ==> ReadStep(fs, size, end, ps[i], ps[j])
  }

  ghost predicate AtMost(fs: Files, size: nat, start: nat, end: nat, bound: nat)
    requires size > 0
  {
    forall ps :: IsRun(fs, size, start, end, ps) ==> |ps| <= bound
  }

  /** All runs end. */
  ghost predicate Terminates(fs: Files, size: nat, start: nat, end: nat)
    requires size > 0
  {
    exists bound :: AtMost(fs, size, start, end, bound)
  }

  /** The loop goes on exactly when it has not ended. */
  lemma StepsUntilEnded(fs: Files, size: nat, end: nat, p: nat)
    requires size > 0
    ensures (exists p' :: ReadStep(fs, size, end, p, p')) <==> !Ended(fs, size, end, p)
  {
    if !Ended(fs, size, end, p) {
      assert ReadStep(fs, size, end, p, if At(fs, size, p).None? then p else p + 1);
    }
  }

  lemma StepKeepsHeld(fs: Files, size: nat, start: nat, end: nat, p: nat, p': nat)
    requires size > 0 && Bounded(fs, size) && start <= p && HeldUpTo(fs, size, start, p)
        && ReadStep(fs, size, end, p, p')
    ensures start <= p' <= end && HeldUpTo(fs, size, start, p')
  {
    forall q | p <= q < p' ensures At(fs, size, q).Some? {
      DivisionLaw(size, p);
      Locate(size, p / size, p % size + (q - p));
    }
  }

  lemma {:induction false} RunIsHeld(fs: Files, size: nat, start: nat, end: nat, ps: seq<nat>)
    requires size > 0 && Bounded(fs, size) && IsRun(fs, size, start, end, ps)
    ensures start <= ps[|ps| - 1] && HeldUpTo(fs, size, start, ps[|ps| - 1])
    decreases |ps|
  {
    var n := |ps| - 1;
    if n > 0 {
      RunIsHeld(fs, size, start, end, ps[..n]);
      StepKeepsHeld(fs, size, start, end, ps[n - 1], ps[n]);
    }
  }

  /** While the range is readable every iteration gets something. */
  lemma {:induction false} RunAdvances(fs: Files, size: nat, start: nat, len: nat, ps: seq<nat>)
    requires size > 0 && Bounded(fs, size) && Readable(fs, size, start, len) && IsRun(fs, size, start, start + len, ps)
    ensures start + |ps| - 1 <= ps[|ps| - 1] && (|ps| > 1 ==> ps[|ps| - 1] <= start + len)
    decreases |ps|
  {
    var n := |ps| - 1;
    if n > 0 {
      RunAdvances(fs, size, start, len, ps[..n]);
      RunIsHeld(fs, size, start, start + len, ps[..n]);
      assert !Trap(fs, size, start, start + len, ps[n - 1]);
      assert ReadStep(fs, size, start + len, ps[n - 1], ps[n]);
    }
  }

  /** Before a trap no run has ended. */
  lemma NoRunEnds(fs: Files, size: nat, start: nat, end: nat, trap: nat, ps: seq<nat>)
    requires size > 0 && Bounded(fs, size) && Trap(fs, size, start, end, trap) && IsRun(fs, size, start, end, ps)
    ensures !Ended(fs, size, end, ps[|ps| - 1])
  {
    var last := ps[|ps| - 1];
    RunIsHeld(fs, size, start, end, ps);
    assert last <= trap;
    assert last < trap ==> At(fs, size, last).Some?;
  }

  /** And there are runs of any length. */
  lemma LongRun(fs: Files, size: nat, start: nat, end: nat, trap: nat, length: nat) returns (ps: seq<nat>)
    requires size > 0 && Trap(fs, size, start, end, trap) && length > 0
    ensures IsRun(fs, size, start, end, ps) && |ps| == length
  {
    ps := seq(length, i requires 0 <= i < length => if start + i < trap then start + i else trap);
    forall i, j | 0 <= i && j == i + 1 < |ps| ensures ReadStep(fs, size, end, ps[i], ps[j]) {
      assert ps[i] < trap ==> At(fs, size, ps[i]).Some?;
    }
  }

  lemma TrappedForever(fs: Files, size: nat, start: nat, end: nat, trap: nat)
    requires size > 0 && Trap(fs, size, start, end, trap)
    ensures !Terminates(fs, size, start, end)
  {
    hide Trap, IsRun;
    forall bound: nat ensures !AtMost(fs, size, start, end, bound) {
      var ps := LongRun(fs, size, start, end, trap, bound + 1);
    }
  }

  lemma ReadableEnds(fs: Files, size: nat, start: nat, len: nat)
    requires size > 0 && Bounded(fs, size) && Readable(fs, size, start, len)
    ensures AtMost(fs, size, start, start + len, len + 1)
  {
    hide Bounded, Readable, IsRun;
    forall ps | IsRun(fs, size, start, start + len, ps) ensures |ps| <= len + 1 {
      RunNotEmpty(fs, size, start, start + len, ps);
      RunAdvances(fs, size, start, len, ps);
    }
  }

  lemma RunNotEmpty(fs: Files, size: nat, start: nat, end: nat, ps: seq<nat>)
    requires size > 0 && IsRun(fs, size, start, end, ps)
    ensures |ps| > 0
  {
  }

  /** ReadData ends, however the single reads go, if and only if the first missing byte of the range, if there
      is one, lies in a file that does not exist. */
  lemma EndsIfReadable(fs: Files, size: nat, start: nat, len: nat)
    requires size > 0 && Bounded(fs, size)
    ensures Terminates(fs, size, start, start + len) <==> Readable(fs, size, start, len)
  {
    if Readable(fs, size, start, len) {
      ReadableEnds(fs, size, start, len);
      hide AtMost;
    } else {
      var trap: nat :| start <= trap < start + len && HeldUpTo(fs, size, start, trap) && At(fs, size, trap).None?
          && trap / size in fs;
      hide AtMost, HeldUpTo, Readable;
      TrappedForever(fs, size, start, start + len, trap);
    }
  }

  /** Two bytes asked of a shard that holds one: the loop reads the first and then nothing, for ever. */
  lemma ShortShardNeverEnds(ps: seq<nat>)
    requires IsRun(map[0 := [7]], 4, 0, 2, ps)
    ensures !Ended(map[0 := [7]], 4, 2, ps[|ps| - 1]) && !Terminates(map[0 := [7]], 4, 0, 2)
  {
    var fs: Files := map[0 := [7]];
    assert At(fs, 4, 0).Some? && At(fs, 4, 1).None?;
    assert Trap(fs, 4, 0, 2, 1);
    NoRunEnds(fs, 4, 0, 2, 1, ps);
    assert !Readable(fs, 4, 0, 2);
    EndsIfReadable(fs, 4, 0, 2);
  }
}
