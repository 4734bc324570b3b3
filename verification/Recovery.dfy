// Crash and restart of the Python collector (btc_data_collector/collect_btc_block.py): blocks pass a
// queue, one flush thread at a time writes their rows and then the sync number; a restart removes the
// rows from the sync number on and collects again from there.

module Recovery {
  import opened Options

  datatype Row = Row(chainId: string, blockNum: nat, content: string)

  /** The rows each block gives rise to, in the order they are inserted. */
  datatype Chain = Chain(id: string, deposits: nat -> seq<Row>, withdraws: nat -> seq<Row>)

  ghost predicate RowsOf(id: string, rows: nat -> seq<Row>)
  {
    forall n, i :: 0 <= i < |rows(n)| ==> rows(n)[i].chainId == id && rows(n)[i].blockNum == n
  }

  ghost predicate ValidChain(ch: Chain) { RowsOf(ch.id, ch.deposits) && RowsOf(ch.id, ch.withdraws) }

  /** A flush under way: the block, and how many of its rows are inserted. */
  datatype Job = Job(block: nat, deposits: nat, withdraws: nat)

  /** Down: not running.  ToClear, DepositsCleared: a restart that has read the sync number.  Up: the next
      block to fetch, the queue between the threads, the block taken from it, the flush thread. */
  datatype Phase =
    | Down
    | ToClear(sync: nat)
    | DepositsCleared(sync: nat)
    | Up(next: nat, queue: seq<nat>, cache: Option<nat>, job: Option<Job>)

  /** The tables are shared with the collectors of other chains. */
  datatype State = State(phase: Phase, sync: Option<nat>, deposits: seq<Row>, withdraws: seq<Row>)

  datatype Action = Start | ClearRow(i: nat) | Clear | Fetch(latest: nat) | Take | StartFlush | FlushStep | Crash
                  | OtherDeposit(row: Row) | OtherWithdraw(row: Row)

  predicate Garbage(row: Row, id: string, from: nat) { row.chainId == id && row.blockNum >= from }

  function Without(table: seq<Row>, i: nat): seq<Row>
    requires i < |table|
  {
    table[..i] + table[i + 1..]
  }

  /** Deletes the rows of one chain from a block on. */
  function Remove(table: seq<Row>, id: string, from: nat): seq<Row>
  {
    if table == [] then []
    else
      var rest, row := Remove(table[..|table| - 1], id, from), table[|table| - 1];
      if Garbage(row, id, from) then rest else rest + [row]
  }

  /** One step of the flush thread: one row, or at the end the sync number. */
  function Flush(ch: Chain, s: State, job: Job): State
    requires s.phase.Up?
  {
    if job.deposits < |ch.deposits(job.block)| then
      s.(deposits := s.deposits + [ch.deposits(job.block)[job.deposits]],
         phase := s.phase.(job := Some(job.(deposits := job.deposits + 1))))
    else if job.withdraws < |ch.withdraws(job.block)| then
      s.(withdraws := s.withdraws + [ch.withdraws(job.block)[job.withdraws]],
         phase := s.phase.(job := Some(job.(withdraws := job.withdraws + 1))))
    else
      // an update without upsert: a missing key stays missing
      s.(sync := if s.sync.None? then None else Some(job.block), phase := s.phase.(job := None))
  }

  function Step(ch: Chain, s: State, a: Action): Option<State>
  {
    match a
    case Start =>
      if !s.phase.Down? then None
      else if s.sync.None? then Some(s.(phase := Up(0, [], None, None)))
      else Some(s.(phase := ToClear(s.sync.value)))
    case ClearRow(i) =>
      // a removal may be cut short after any of its rows
      (match s.phase
       case ToClear(n) =>
         if i >= |s.deposits| || !Garbage(s.deposits[i], ch.id, n) then None
         else Some(s.(deposits := Without(s.deposits, i)))
       case DepositsCleared(n) =>
         if i >= |s.withdraws| || !Garbage(s.withdraws[i], ch.id, n) then None
         else Some(s.(withdraws := Without(s.withdraws, i)))
       case _ => None)
    case Clear =>
      (match s.phase
       case ToClear(n) => Some(s.(deposits := Remove(s.deposits, ch.id, n), phase := DepositsCleared(n)))
       case DepositsCleared(n) => Some(s.(withdraws := Remove(s.withdraws, ch.id, n), phase := Up(n, [], None, None)))
       case _ => None)
    case Fetch(latest) =>
      if !s.phase.Up? || s.phase.next >= latest || |s.phase.queue| > 10 then None
      else Some(s.(phase := s.phase.(queue := s.phase.queue + [s.phase.next], next := s.phase.next + 1)))
    case Take =>
      if !s.phase.Up? || s.phase.queue == [] || s.phase.cache.Some? then None
      else Some(s.(phase := s.phase.(cache := Some(s.phase.queue[0]), queue := s.phase.queue[1..])))
    case StartFlush =>
      // waits for the flush before
      if !s.phase.Up? || s.phase.cache.None? || s.phase.job.Some? then None
      else Some(s.(phase := s.phase.(job := Some(Job(s.phase.cache.value, 0, 0)), cache := None)))
    case FlushStep =>
      if !s.phase.Up? || s.phase.job.None? then None
      else Some(Flush(ch, s, s.phase.job.value))
    case Crash => Some(s.(phase := Down))
    case OtherDeposit(row) => if row.chainId == ch.id then None else Some(s.(deposits := s.deposits + [row]))
    case OtherWithdraw(row) => if row.chainId == ch.id then None else Some(s.(withdraws := s.withdraws + [row]))
  }

  function Run(ch: Chain, s: State, actions: seq<Action>): Option<State>
    decreases |actions|
  {
    if actions == [] then Some(s)
    else
      match Run(ch, s, actions[..|actions| - 1])
      case None => None
      case Some(t) => Step(ch, t, actions[|actions| - 1])
  }

  // ---- The rows an uninterrupted run writes ----

  /** The rows of the blocks from `start` up to, not including, m. */
  function Stream(rows: nat -> seq<Row>, start: nat, m: nat): seq<Row>
  {
    if m <= start then [] else Stream(rows, start, m - 1) + rows(m - 1)
  }

  /** The rows of one chain. */
  function Own(table: seq<Row>, id: string): seq<Row>
  {
    if table == [] then []
    else
      var rest, row := Own(table[..|table| - 1], id), table[|table| - 1];
      if row.chainId == id then rest + [row] else rest
  }

  /** The rows of all other chains. */
  function Others(table: seq<Row>, id: string): seq<Row>
  {
    if table == [] then []
    else
      var rest, row := Others(table[..|table| - 1], id), table[|table| - 1];
      if row.chainId == id then rest else rest + [row]
  }

  lemma OwnSnoc(table: seq<Row>, row: Row, id: string)
    ensures Own(table + [row], id) == if row.chainId == id then Own(table, id) + [row] else Own(table, id)
    ensures Others(table + [row], id) == if row.chainId == id then Others(table, id) else Others(table, id) + [row]
  {
    assert (table + [row])[..|table|] == table;
  }

  lemma SnocAssociative(a: seq<Row>, b: seq<Row>, row: Row)
    ensures a + b + [row] == a + (b + [row])
  {
  }

  lemma RemoveSnoc(table: seq<Row>, row: Row, id: string, from: nat)
    ensures Remove(table + [row], id, from)
      == if Garbage(row, id, from) then Remove(table, id, from) else Remove(table, id, from) + [row]
  {
    assert (table + [row])[..|table|] == table;
  }

  lemma {:induction false} RemoveAppend(t1: seq<Row>, t2: seq<Row>, id: string, from: nat)
    ensures Remove(t1 + t2, id, from) == Remove(t1, id, from) + Remove(t2, id, from)
    decreases |t2|
  {
    if t2 == [] {
      assert t1 + t2 == t1;
    } else {
      var n := |t2| - 1;
      hide Remove;
      var front, row := t2[..n], t2[n];
      RemoveAppend(t1, front, id, from);
      RemoveSnoc(t1 + front, row, id, from);
      RemoveSnoc(front, row, id, from);
      SnocAssociative(t1, front, row);
      SnocAssociative(Remove(t1, id, from), Remove(front, id, from), row);
      assert t2 == front + [row];
    }
  }

  /** Removing touches no row of another chain, and removes from the own rows as if they stood alone. */
  lemma {:induction false} RemoveOwn(table: seq<Row>, id: string, from: nat)
    ensures Own(Remove(table, id, from), id) == Remove(Own(table, id), id, from)
    ensures Others(Remove(table, id, from), id) == Others(table, id)
    decreases |table|
  {
    if table != [] {
      hide Remove, Own, Others;
      var rest, row := table[..|table| - 1], table[|table| - 1];
      assert table == rest + [row];
      RemoveOwn(rest, id, from);
      OwnSnoc(rest, row, id);
      RemoveSnoc(rest, row, id, from);
      OwnSnoc(Remove(rest, id, from), row, id);
      RemoveSnoc(Own(rest, id), row, id, from);
    }
  }

  lemma {:induction false} RemoveKeeps(rows: seq<Row>, id: string, from: nat)
    requires forall i :: 0 <= i < |rows| ==> rows[i].blockNum < from
    ensures Remove(rows, id, from) == rows
    decreases |rows|
  {
    if rows != [] {
      RemoveKeeps(rows[..|rows| - 1], id, from);
      assert rows == rows[..|rows| - 1] + [rows[|rows| - 1]];
    }
  }

  lemma {:induction false} RemoveDrops(rows: seq<Row>, id: string, from: nat)
    requires forall i :: 0 <= i < |rows| ==> rows[i].chainId == id && rows[i].blockNum >= from
    ensures Remove(rows, id, from) == []
    decreases |rows|
  {
    if rows != [] { RemoveDrops(rows[..|rows| - 1], id, from); }
  }

  lemma {:induction false} StreamBlocks(id: string, rows: nat -> seq<Row>, start: nat, m: nat)
    requires RowsOf(id, rows)
    ensures forall row :: row in Stream(rows, start, m) ==> row.chainId == id && start <= row.blockNum < m
  {
    if m > start { StreamBlocks(id, rows, start, m - 1); }
  }

  /** Clearing from block c takes a stream that got further back to block c. */
  lemma {:induction false} RemoveStream(id: string, rows: nat -> seq<Row>, start: nat, m: nat, c: nat)
    requires RowsOf(id, rows) && start <= c <= m
    ensures Remove(Stream(rows, start, m), id, c) == Stream(rows, start, c)
    decreases m
  {
    if m == c {
      StreamBlocks(id, rows, start, c);
      RemoveKeeps(Stream(rows, start, c), id, c);
    } else {
      hide Remove, RowsOf;
      RemoveStream(id, rows, start, m - 1, c);
      RemoveAppend(Stream(rows, start, m - 1), rows(m - 1), id, c);
      RemoveBlock(id, rows, m - 1, c);
    }
  }

  lemma RemoveBlock(id: string, rows: nat -> seq<Row>, n: nat, c: nat)
    requires RowsOf(id, rows) && c <= n
    ensures Remove(rows(n), id, c) == []
  {
    RemoveDrops(rows(n), id, c);
  }

  /** The own rows are a prefix of what an uninterrupted run writes, and hold every block below c. */
  ghost predicate Recorded(own: seq<Row>, rows: nat -> seq<Row>, start: nat, c: nat)
  {
    exists m, d :: c <= m && start <= m && Upto(own, rows, start, m, d)
  }

  ghost predicate Upto(own: seq<Row>, rows: nat -> seq<Row>, start: nat, m: nat, d: nat)
  {
    d <= |rows(m)| && own == Stream(rows, start, m) + rows(m)[..d]
  }

  /** No own row stands there more often than an uninterrupted run writes it. */
  ghost predicate AtMostOnce(own: seq<Row>, rows: nat -> seq<Row>, start: nat)
  {
    exists m :: multiset(own) <= multiset(Stream(rows, start, m))
  }

  /** Every block below c is there, in order, and nothing is there too often. */
  ghost predicate Safe(own: seq<Row>, id: string, rows: nat -> seq<Row>, start: nat, c: nat)
  {
    Remove(own, id, c) == Stream(rows, start, c) && AtMostOnce(own, rows, start)
  }

  lemma UptoOnce(own: seq<Row>, rows: nat -> seq<Row>, start: nat, m: nat, d: nat)
    requires Upto(own, rows, start, m, d) && start <= m
    ensures AtMostOnce(own, rows, start)
  {
    assert rows(m) == rows(m)[..d] + rows(m)[d..];
    assert Stream(rows, start, m + 1) == own + rows(m)[d..];
    assert multiset(own) <= multiset(Stream(rows, start, m + 1));
  }

  lemma UptoSafe(own: seq<Row>, id: string, rows: nat -> seq<Row>, start: nat, m: nat, d: nat, c: nat)
    requires RowsOf(id, rows) && start <= c <= m && Upto(own, rows, start, m, d)
    ensures Safe(own, id, rows, start, c)
  {
    UptoOnce(own, rows, start, m, d);
    RemoveAppend(Stream(rows, start, m), rows(m)[..d], id, c);
    RemoveStream(id, rows, start, m, c);
    RemoveDrops(rows(m)[..d], id, c);
  }

  lemma {:induction false} OwnAppend(t1: seq<Row>, t2: seq<Row>, id: string)
    ensures Own(t1 + t2, id) == Own(t1, id) + Own(t2, id)
    decreases |t2|
  {
    if t2 == [] {
      assert t1 + t2 == t1;
    } else {
      hide Own;
      var front, row := t2[..|t2| - 1], t2[|t2| - 1];
      OwnAppend(t1, front, id);
      OwnSnoc(t1 + front, row, id);
      OwnSnoc(front, row, id);
      SnocAssociative(t1, front, row);
      SnocAssociative(Own(t1, id), Own(front, id), row);
      assert t2 == front + [row];
    }
  }

  lemma {:induction false} OthersAppend(t1: seq<Row>, t2: seq<Row>, id: string)
    ensures Others(t1 + t2, id) == Others(t1, id) + Others(t2, id)
    decreases |t2|
  {
    if t2 == [] {
      assert t1 + t2 == t1;
    } else {
      hide Others;
      var front, row := t2[..|t2| - 1], t2[|t2| - 1];
      OthersAppend(t1, front, id);
      OwnSnoc(t1 + front, row, id);
      OwnSnoc(front, row, id);
      SnocAssociative(t1, front, row);
      SnocAssociative(Others(t1, id), Others(front, id), row);
      assert t2 == front + [row];
    }
  }

  /** The own rows without one of them. */
  lemma OwnWithout(table: seq<Row>, i: nat, id: string)
    requires i < |table| && table[i].chainId == id
    ensures var before, after := Own(table[..i], id), Own(table[i + 1..], id);
      Own(table, id) == before + [table[i]] + after && Own(Without(table, i), id) == before + after
    ensures Others(Without(table, i), id) == Others(table, id)
  {
    hide Own, Others;
    assert table == table[..i] + [table[i]] + table[i + 1..] && table[..i] + [table[i]] == table[..i + 1];
    OwnAppend(table[..i], table[i + 1..], id);
    OthersAppend(table[..i], table[i + 1..], id);
    OwnSnoc(table[..i], table[i], id);
    OwnAppend(table[..i + 1], table[i + 1..], id);
    OthersAppend(table[..i + 1], table[i + 1..], id);
  }

  /** Taking one row too many away leaves what is there safe. */
  lemma SafeWithout(table: seq<Row>, i: nat, id: string, rows: nat -> seq<Row>, start: nat, c: nat)
    requires i < |table| && Garbage(table[i], id, c) && Safe(Own(table, id), id, rows, start, c)
    ensures Safe(Own(Without(table, i), id), id, rows, start, c)
  {
    hide Remove, Own;
    var before, after := Own(table[..i], id), Own(table[i + 1..], id);
    OwnWithout(table, i, id);
    RemoveSnoc(before, table[i], id, c);
    RemoveAppend(before + [table[i]], after, id, c);
    RemoveAppend(before, after, id, c);
    var m :| multiset(Own(table, id)) <= multiset(Stream(rows, start, m));
    assert multiset(before + after) <= multiset(Stream(rows, start, m));
  }

  // ---- The invariant ----

  /** Blocks fetched and not yet flushed completely, oldest first. */
  function InFlight(p: Phase): seq<nat>
    requires p.Up?
  {
    (if p.job.Some? then [p.job.value.block] else []) + (if p.cache.Some? then [p.cache.value] else []) + p.queue
  }

  /** Every block below this one is written completely. */
  function Base(p: Phase): int
    requires p.Up?
  {
    p.next - |InFlight(p)|
  }

  /** The queue and the threads neither skip nor swap a block. */
  ghost predicate InOrder(p: Phase)
    requires p.Up?
  {
    Base(p) >= 0 && forall i :: 0 <= i < |InFlight(p)| ==> InFlight(p)[i] == Base(p) + i
  }

  ghost predicate Inv(ch: Chain, start: nat, s: State)
  {
    && s.sync.Some? && s.sync.value >= start
    && var dep, wd, c := Own(s.deposits, ch.id), Own(s.withdraws, ch.id), s.sync.value;
      match s.phase
      case Down => Safe(dep, ch.id, ch.deposits, start, c) && Safe(wd, ch.id, ch.withdraws, start, c)
      case ToClear(n) => n == c && Safe(dep, ch.id, ch.deposits, start, c) && Safe(wd, ch.id, ch.withdraws, start, c)
      case DepositsCleared(n) => n == c && Upto(dep, ch.deposits, start, c, 0)
          && Safe(wd, ch.id, ch.withdraws, start, c)
      case Up(next, queue, cache, job) =>
        && InOrder(s.phase)
        && c <= Base(s.phase) <= c + 1
        && (if job.None? then
              Upto(dep, ch.deposits, start, Base(s.phase), 0) && Upto(wd, ch.withdraws, start, Base(s.phase), 0)
            else
              && Upto(dep, ch.deposits, start, Base(s.phase), job.value.deposits)
              && Upto(wd, ch.withdraws, start, Base(s.phase), job.value.withdraws))
  }

  lemma FetchKeepsOrder(p: Phase)
    requires p.Up? && InOrder(p)
    ensures InOrder(p.(queue := p.queue + [p.next], next := p.next + 1))
    ensures Base(p.(queue := p.queue + [p.next], next := p.next + 1)) == Base(p)
  {
    var q := p.(queue := p.queue + [p.next], next := p.next + 1);
    assert InFlight(q) == InFlight(p) + [p.next];
  }

  lemma TakeKeepsOrder(p: Phase)
    requires p.Up? && InOrder(p) && p.queue != [] && p.cache.None?
    ensures var q := p.(cache := Some(p.queue[0]), queue := p.queue[1..]); InOrder(q) && Base(q) == Base(p)
  {
    var q := p.(cache := Some(p.queue[0]), queue := p.queue[1..]);
    assert InFlight(q) == InFlight(p);
  }

  lemma StartFlushKeepsOrder(p: Phase)
    requires p.Up? && InOrder(p) && p.cache.Some? && p.job.None?
    ensures var q := p.(job := Some(Job(p.cache.value, 0, 0)), cache := None); InOrder(q) && Base(q) == Base(p)
    ensures p.cache.value == Base(p)
  {
    var q := p.(job := Some(Job(p.cache.value, 0, 0)), cache := None);
    assert InFlight(q) == InFlight(p);
    assert InFlight(p)[0] == p.cache.value;
  }

  lemma JobIsAtBase(p: Phase)
    requires p.Up? && InOrder(p) && p.job.Some?
    ensures p.job.value.block == Base(p)
    ensures InOrder(p.(job := None)) && Base(p.(job := None)) == Base(p) + 1
  {
    assert InFlight(p)[0] == p.job.value.block;
    assert InFlight(p.(job := None)) == InFlight(p)[1..];
  }

  lemma JobMoves(p: Phase, job: Job)
    requires p.Up? && InOrder(p) && p.job.Some? && job.block == p.job.value.block
    ensures InOrder(p.(job := Some(job))) && Base(p.(job := Some(job))) == Base(p)
  {
    assert InFlight(p.(job := Some(job))) == InFlight(p);
  }

  lemma UptoNext(own: seq<Row>, rows: nat -> seq<Row>, start: nat, m: nat, d: nat)
    requires Upto(own, rows, start, m, d) && start <= m
    ensures d <= |rows(m)|
    ensures d < |rows(m)| ==> Upto(own + [rows(m)[d]], rows, start, m, d + 1)
    ensures d == |rows(m)| ==> Upto(own, rows, start, m + 1, 0)
  {
    if d < |rows(m)| { assert rows(m)[..d + 1] == rows(m)[..d] + [rows(m)[d]]; }
    assert rows(m)[..|rows(m)|] == rows(m);
  }

  lemma ClearedSafe(own: seq<Row>, id: string, rows: nat -> seq<Row>, start: nat, c: nat)
    requires Safe(own, id, rows, start, c)
    ensures Upto(Remove(own, id, c), rows, start, c, 0)
  {
    assert Stream(rows, start, c) + rows(c)[..0] == Stream(rows, start, c);
  }

  lemma ClearKeepsInv(ch: Chain, start: nat, s: State, t: State)
    requires ValidChain(ch) && Inv(ch, start, s) && Step(ch, s, Clear) == Some(t)
    ensures Inv(ch, start, t)
  {
    hide Safe, Upto, RowsOf;
    var c := s.sync.value;
    if s.phase.ToClear? {
      RemoveOwn(s.deposits, ch.id, c);
      ClearedSafe(Own(s.deposits, ch.id), ch.id, ch.deposits, start, c);
    } else {
      RemoveOwn(s.withdraws, ch.id, c);
      ClearedSafe(Own(s.withdraws, ch.id), ch.id, ch.withdraws, start, c);
    }
  }

  lemma ClearRowKeepsInv(ch: Chain, start: nat, s: State, i: nat, t: State)
    requires Inv(ch, start, s) && Step(ch, s, ClearRow(i)) == Some(t)
    ensures Inv(ch, start, t)
  {
    hide Safe, Upto, Own, Without;
    if s.phase.ToClear? {
      SafeWithout(s.deposits, i, ch.id, ch.deposits, start, s.sync.value);
    } else {
      SafeWithout(s.withdraws, i, ch.id, ch.withdraws, start, s.sync.value);
    }
  }

  lemma FlushDeposit(ch: Chain, start: nat, s: State, job: Job)
    requires ValidChain(ch) && Inv(ch, start, s) && s.phase.Up? && s.phase.job == Some(job)
    requires job.deposits < |ch.deposits(job.block)|
    ensures Inv(ch, start, Flush(ch, s, job))
  {
    hide Safe, InOrder, InFlight, Stream, Upto, Own;
    var b := Base(s.phase);
    JobIsAtBase(s.phase);
    JobMoves(s.phase, job.(deposits := job.deposits + 1));
    UptoNext(Own(s.deposits, ch.id), ch.deposits, start, b, job.deposits);
    OwnSnoc(s.deposits, ch.deposits(b)[job.deposits], ch.id);
  }

  lemma FlushWithdraw(ch: Chain, start: nat, s: State, job: Job)
    requires ValidChain(ch) && Inv(ch, start, s) && s.phase.Up? && s.phase.job == Some(job)
    requires job.deposits >= |ch.deposits(job.block)| && job.withdraws < |ch.withdraws(job.block)|
    ensures Inv(ch, start, Flush(ch, s, job))
  {
    hide Safe, InOrder, InFlight, Stream, Upto, Own;
    var b := Base(s.phase);
    JobIsAtBase(s.phase);
    JobMoves(s.phase, job.(withdraws := job.withdraws + 1));
    UptoNext(Own(s.withdraws, ch.id), ch.withdraws, start, b, job.withdraws);
    OwnSnoc(s.withdraws, ch.withdraws(b)[job.withdraws], ch.id);
  }

  lemma FlushSync(ch: Chain, start: nat, s: State, job: Job)
    requires ValidChain(ch) && Inv(ch, start, s) && s.phase.Up? && s.phase.job == Some(job)
    requires job.deposits >= |ch.deposits(job.block)| && job.withdraws >= |ch.withdraws(job.block)|
    ensures Inv(ch, start, Flush(ch, s, job))
  {
    hide Safe, InOrder, InFlight, Stream, Upto, Own, RowsOf;
    var b := Base(s.phase);
    JobIsAtBase(s.phase);
    UptoNext(Own(s.deposits, ch.id), ch.deposits, start, b, job.deposits);
    UptoNext(Own(s.withdraws, ch.id), ch.withdraws, start, b, job.withdraws);
  }

  lemma FlushKeepsInv(ch: Chain, start: nat, s: State, t: State)
    requires ValidChain(ch) && Inv(ch, start, s) && Step(ch, s, FlushStep) == Some(t)
    ensures Inv(ch, start, t)
  {
    hide Inv, Flush, ValidChain;
    var job := s.phase.job.value;
    if job.deposits < |ch.deposits(job.block)| {
      FlushDeposit(ch, start, s, job);
    } else if job.withdraws < |ch.withdraws(job.block)| {
      FlushWithdraw(ch, start, s, job);
    } else {
      FlushSync(ch, start, s, job);
    }
  }

  lemma CrashKeepsInv(ch: Chain, start: nat, s: State, t: State)
    requires ValidChain(ch) && Inv(ch, start, s) && Step(ch, s, Crash) == Some(t)
    ensures Inv(ch, start, t)
  {
    hide Safe, Upto, InOrder, InFlight, RowsOf;
    var dep, wd, c := Own(s.deposits, ch.id), Own(s.withdraws, ch.id), s.sync.value;
    match s.phase {
      case DepositsCleared(_) =>
        UptoSafe(dep, ch.id, ch.deposits, start, c, 0, c);
      case Up(_, _, _, job) =>
        var b := Base(s.phase);
        UptoSafe(dep, ch.id, ch.deposits, start, b, if job.None? then 0 else job.value.deposits, c);
        UptoSafe(wd, ch.id, ch.withdraws, start, b, if job.None? then 0 else job.value.withdraws, c);
      case _ =>
    }
  }

  lemma QueueKeepsInv(ch: Chain, start: nat, s: State, a: Action, t: State)
    requires Inv(ch, start, s) && Step(ch, s, a) == Some(t) && (a.Fetch? || a.Take? || a.StartFlush?)
    ensures Inv(ch, start, t)
  {
    hide Safe, Stream, InOrder, InFlight;
    match a {
      case Fetch(_) => FetchKeepsOrder(s.phase);
      case Take => TakeKeepsOrder(s.phase);
      case StartFlush => StartFlushKeepsOrder(s.phase);
    }
  }

  lemma StepKeepsInv(ch: Chain, start: nat, s: State, a: Action, t: State)
    requires ValidChain(ch) && Inv(ch, start, s) && Step(ch, s, a) == Some(t)
    ensures Inv(ch, start, t)
  {
    hide Safe, Upto, RowsOf;
    match a
    case Start =>
    case ClearRow(i) => ClearRowKeepsInv(ch, start, s, i, t);
    case Clear => ClearKeepsInv(ch, start, s, t);
    case FlushStep => FlushKeepsInv(ch, start, s, t);
    case Crash => CrashKeepsInv(ch, start, s, t);
    case OtherDeposit(row) => OwnSnoc(s.deposits, row, ch.id);
    case OtherWithdraw(row) => OwnSnoc(s.withdraws, row, ch.id);
    case _ => QueueKeepsInv(ch, start, s, a, t);
  }

  // ---- All runs ----

  /** Before the first start: no rows of this chain, and the sync number as it was installed. */
  ghost predicate Fresh(ch: Chain, s: State)
  {
    s.phase == Down && Own(s.deposits, ch.id) == [] && Own(s.withdraws, ch.id) == []
  }

  lemma {:induction false} RunKeepsInv(ch: Chain, start: nat, s: State, actions: seq<Action>, t: State)
    requires ValidChain(ch) && Fresh(ch, s) && s.sync == Some(start) && Run(ch, s, actions) == Some(t)
    ensures Inv(ch, start, t)
    decreases |actions|
  {
    hide ValidChain, Step;
    if actions == [] {
      assert Upto([], ch.deposits, start, start, 0) && Upto([], ch.withdraws, start, start, 0);
      UptoOnce([], ch.deposits, start, start, 0);
      UptoOnce([], ch.withdraws, start, start, 0);
    } else {
      hide Inv;
      var n := |actions| - 1;
      var m := Run(ch, s, actions[..n]).value;
      RunKeepsInv(ch, start, s, actions[..n], m);
      StepKeepsInv(ch, start, m, actions[n], t);
    }
  }

  /** Nothing lost, nothing twice: at every moment of every run, whatever crashed and when, also inside the
      clearing, every block below the sync number is on disk in order and no row is there too often. While the
      collector is up the rows are a prefix of those of an uninterrupted run, and whenever no flush is under
      way they are exactly the rows of the blocks below Base, the sync number or the one after it. */
  lemma EveryRunRecords(ch: Chain, start: nat, s: State, actions: seq<Action>, t: State)
    requires ValidChain(ch) && Fresh(ch, s) && s.sync == Some(start) && Run(ch, s, actions) == Some(t)
    ensures t.sync.Some?
    ensures Safe(Own(t.deposits, ch.id), ch.id, ch.deposits, start, t.sync.value)
    ensures Safe(Own(t.withdraws, ch.id), ch.id, ch.withdraws, start, t.sync.value)
    ensures t.phase.Up? ==>
      && t.sync.value <= Base(t.phase) <= t.sync.value + 1
      && Recorded(Own(t.deposits, ch.id), ch.deposits, start, Base(t.phase))
      && Recorded(Own(t.withdraws, ch.id), ch.withdraws, start, Base(t.phase))
    ensures t.phase.Up? && t.phase.job.None? ==>
      && Own(t.deposits, ch.id) == Stream(ch.deposits, start, Base(t.phase))
      && Own(t.withdraws, ch.id) == Stream(ch.withdraws, start, Base(t.phase))
  {
    RunKeepsInv(ch, start, s, actions, t);
    var c := State(Down, t.sync, t.deposits, t.withdraws);
    CrashKeepsInv(ch, start, t, c);
    hide Safe, InFlight, RowsOf;
  }

  /** Nothing at or beyond block n is fetched or queued, and the queue never holds more than eleven blocks. */
  ghost predicate Behind(s: State, n: nat)
  {
    && (s.sync.Some? ==> s.sync.value <= n)
    && match s.phase
       case Down => true
       case ToClear(c) => c <= n
       case DepositsCleared(c) => c <= n
       case Up(next, queue, cache, job) => next <= n && |queue| <= 11
  }

  lemma StepStaysBehind(ch: Chain, start: nat, s: State, a: Action, t: State, n: nat)
    requires Inv(ch, start, s) && Behind(s, n) && Step(ch, s, a) == Some(t)
    requires a.Fetch? ==> a.latest <= n
    ensures Behind(t, n)
  {
    hide Safe, Upto, Own, Remove, Without;
    if a.FlushStep? {
      assert s.phase.job.value.block == InFlight(s.phase)[0];
    }
  }

  /** A run that never saw the node above block n fetches no block from there on; and a block that the node has
      is left waiting exactly when eleven are queued. */
  lemma {:induction false} StaysBehindTheNode(ch: Chain, start: nat, s: State, actions: seq<Action>, t: State, n: nat)
    requires ValidChain(ch) && Fresh(ch, s) && s.sync == Some(start) && Run(ch, s, actions) == Some(t)
    requires start <= n && forall a :: a in actions && a.Fetch? ==> a.latest <= n
    ensures Behind(t, n)
    ensures forall m: nat :: t.phase.Up? && t.phase.next < m ==>
        (Step(ch, t, Fetch(m)).None? <==> |t.phase.queue| == 11)
    decreases |actions|
  {
    if actions != [] {
      hide ValidChain, Inv;
      var k := |actions| - 1;
      var m := Run(ch, s, actions[..k]).value;
      RunKeepsInv(ch, start, s, actions[..k], m);
      StaysBehindTheNode(ch, start, s, actions[..k], m, n);
      StepStaysBehind(ch, start, m, actions[k], t, n);
    }
  }

  /** Rows of the other chains are only ever added to. */
  lemma OthersUntouched(ch: Chain, s: State, a: Action, t: State)
    requires ValidChain(ch) && Step(ch, s, a) == Some(t)
    ensures Others(t.deposits, ch.id) == Others(s.deposits, ch.id) + (if a.OtherDeposit? then [a.row] else [])
    ensures Others(t.withdraws, ch.id) == Others(s.withdraws, ch.id) + (if a.OtherWithdraw? then [a.row] else [])
  {
    hide Others, Own, Remove, Without;
    match a
    case ClearRow(i) =>
      if s.phase.ToClear? {
        OwnWithout(s.deposits, i, ch.id);
      } else {
        OwnWithout(s.withdraws, i, ch.id);
      }
    case Clear =>
      RemoveOwn(s.deposits, ch.id, s.phase.sync);
      RemoveOwn(s.withdraws, ch.id, s.phase.sync);
    case FlushStep =>
      var job := s.phase.job.value;
      if job.deposits < |ch.deposits(job.block)| {
        OwnSnoc(s.deposits, ch.deposits(job.block)[job.deposits], ch.id);
      } else if job.withdraws < |ch.withdraws(job.block)| {
        OwnSnoc(s.withdraws, ch.withdraws(job.block)[job.withdraws], ch.id);
      }
    case OtherDeposit(row) => OwnSnoc(s.deposits, row, ch.id);
    case OtherWithdraw(row) => OwnSnoc(s.withdraws, row, ch.id);
    case _ =>
  }

  /** A run with crashes and one without end with the same rows. */
  lemma CrashesLeaveNoTrace(ch: Chain, start: nat, s: State, actions: seq<Action>, t: State, calm: seq<Action>,
      u: State)
    requires ValidChain(ch) && Fresh(ch, s) && s.sync == Some(start)
    requires Run(ch, s, actions) == Some(t) && Run(ch, s, calm) == Some(u) && Crash !in calm
    requires t.phase.Up? && t.phase.job.None? && u.phase.Up? && u.phase.job.None? && Base(t.phase) == Base(u.phase)
    ensures Own(t.deposits, ch.id) == Own(u.deposits, ch.id)
    ensures Own(t.withdraws, ch.id) == Own(u.withdraws, ch.id)
  {
    EveryRunRecords(ch, start, s, actions, t);
    EveryRunRecords(ch, start, s, calm, u);
  }

  // ---- Going on after a crash ----

  ghost predicate Reaches(ch: Chain, s: State, t: State) { exists actions :: Run(ch, s, actions) == Some(t) }

  lemma Go(ch: Chain, s: State, t: State, a: Action) returns (u: State)
    requires Reaches(ch, s, t) && Step(ch, t, a).Some?
    ensures Reaches(ch, s, u) && Some(u) == Step(ch, t, a)
  {
    hide Step;
    u := Step(ch, t, a).value;
    var actions :| Run(ch, s, actions) == Some(t);
    assert (actions + [a])[..|actions|] == actions;
    assert Run(ch, s, actions + [a]) == Some(u);
  }

  lemma ReachesSelf(ch: Chain, s: State)
    ensures Reaches(ch, s, s)
  {
    assert Run(ch, s, []) == Some(s);
  }

  /** The flush thread runs to its end. */
  lemma {:induction false} FlushRest(ch: Chain, s: State, t: State) returns (u: State)
    requires Reaches(ch, s, t) && t.phase.Up? && t.phase.job.Some?
    requires t.phase.job.value.deposits <= |ch.deposits(t.phase.job.value.block)|
    requires t.phase.job.value.withdraws <= |ch.withdraws(t.phase.job.value.block)|
    ensures Reaches(ch, s, u) && u.phase == t.phase.(job := None)
    ensures var job := t.phase.job.value;
      && u.deposits == t.deposits + ch.deposits(job.block)[job.deposits..]
      && u.withdraws == t.withdraws + ch.withdraws(job.block)[job.withdraws..]
      && u.sync == if t.sync.None? then None else Some(job.block)
    decreases |ch.deposits(t.phase.job.value.block)| - t.phase.job.value.deposits
            + |ch.withdraws(t.phase.job.value.block)| - t.phase.job.value.withdraws
  {
    hide Reaches;
    var job := t.phase.job.value;
    var dep, wd := ch.deposits(job.block), ch.withdraws(job.block);
    u := Go(ch, s, t, FlushStep);
    if job.deposits < |dep| {
      assert dep[job.deposits..] == [dep[job.deposits]] + dep[job.deposits + 1..];
      u := FlushRest(ch, s, u);
    } else if job.withdraws < |wd| {
      assert wd[job.withdraws..] == [wd[job.withdraws]] + wd[job.withdraws + 1..];
      u := FlushRest(ch, s, u);
    }
  }

  /** One block through the queue. */
  lemma OneBlock(ch: Chain, s: State, t: State, n: nat) returns (u: State)
    requires Reaches(ch, s, t) && t.phase == Up(n, [], None, None)
    ensures Reaches(ch, s, u) && u.phase == Up(n + 1, [], None, None)
    ensures u.deposits == t.deposits + ch.deposits(n) && u.withdraws == t.withdraws + ch.withdraws(n)
    ensures u.sync == if t.sync.None? then None else Some(n)
  {
    hide Reaches;
    u := Go(ch, s, t, Fetch(n + 1));
    u := Go(ch, s, u, Take);
    u := Go(ch, s, u, StartFlush);
    u := FlushRest(ch, s, u);
  }

  lemma {:induction false} Blocks(ch: Chain, s: State, t: State, n: nat, m: nat) returns (u: State)
    requires Reaches(ch, s, t) && t.phase == Up(n, [], None, None) && n <= m
    ensures Reaches(ch, s, u) && u.phase == Up(m, [], None, None)
    ensures u.deposits == t.deposits + Stream(ch.deposits, n, m)
        && u.withdraws == t.withdraws + Stream(ch.withdraws, n, m)
    ensures u.sync == if t.sync.None? || n == m then t.sync else Some(m - 1)
    decreases m - n
  {
    hide Reaches;
    if n == m {
      u := t;
    } else {
      u := Blocks(ch, s, t, n, m - 1);
      u := OneBlock(ch, s, u, m - 1);
    }
  }

  /** From every moment of every run a restart gets the collector to any later block. */
  lemma AlwaysRecovers(ch: Chain, start: nat, s: State, actions: seq<Action>, t: State, m: nat) returns (u: State)
    requires ValidChain(ch) && Fresh(ch, s) && s.sync == Some(start) && Run(ch, s, actions) == Some(t)
    requires t.sync.Some? && m >= t.sync.value
    ensures Reaches(ch, s, u) && u.phase == Up(m, [], None, None)
    ensures Own(u.deposits, ch.id) == Stream(ch.deposits, start, m)
    ensures Own(u.withdraws, ch.id) == Stream(ch.withdraws, start, m)
  {
    assert Reaches(ch, s, t);
    hide Reaches, Run, ValidChain, Fresh, Stream, Own;
    u := Restart(ch, s, t, m);
    SettledRecords(ch, start, s, u, m);
  }

  lemma SettledRecords(ch: Chain, start: nat, s: State, u: State, m: nat)
    requires ValidChain(ch) && Fresh(ch, s) && s.sync == Some(start)
    requires Reaches(ch, s, u) && u.phase == Up(m, [], None, None)
    ensures Own(u.deposits, ch.id) == Stream(ch.deposits, start, m)
    ensures Own(u.withdraws, ch.id) == Stream(ch.withdraws, start, m)
  {
    hide Run, ValidChain, Fresh, Stream, Own, Recorded, Safe, Base;
    NothingInFlight(m);
    var more :| Run(ch, s, more) == Some(u);
    EveryRunRecords(ch, start, s, more, u);
  }

  lemma NothingInFlight(m: nat)
    ensures Base(Up(m, [], None, None)) == m
  {
  }

  lemma Restart(ch: Chain, s: State, t: State, m: nat) returns (u: State)
    requires Reaches(ch, s, t) && t.sync.Some? && m >= t.sync.value
    ensures Reaches(ch, s, u) && u.phase == Up(m, [], None, None)
  {
    hide Reaches, Stream, Remove;
    u := Go(ch, s, t, Crash);
    u := Go(ch, s, u, Start);
    u := Go(ch, s, u, Clear);
    u := Go(ch, s, u, Clear);
    u := Blocks(ch, s, u, t.sync.value, m);
  }

  // ---- Without the installed sync number ----

  lemma {:induction false} OwnAll(rows: seq<Row>, id: string)
    requires forall i :: 0 <= i < |rows| ==> rows[i].chainId == id
    ensures Own(rows, id) == rows
    decreases |rows|
  {
    if rows != [] {
      OwnAll(rows[..|rows| - 1], id);
      assert rows == rows[..|rows| - 1] + [rows[|rows| - 1]];
    }
  }

  /** A stream holds each row as often as its block does. */
  lemma {:induction false} StreamCount(id: string, rows: nat -> seq<Row>, m: nat, row: Row)
    requires RowsOf(id, rows)
    ensures multiset(Stream(rows, 0, m))[row] == if row.blockNum < m then multiset(rows(row.blockNum))[row] else 0
  {
    if m > 0 {
      StreamCount(id, rows, m - 1, row);
      if row.blockNum != m - 1 { BlockCount(id, rows, m - 1, row); }
      hide RowsOf;
      assert multiset(Stream(rows, 0, m)) == multiset(Stream(rows, 0, m - 1)) + multiset(rows(m - 1));
    }
  }

  lemma BlockCount(id: string, rows: nat -> seq<Row>, n: nat, row: Row)
    requires RowsOf(id, rows) && row.blockNum != n
    ensures multiset(rows(n))[row] == 0
  {
    assert row !in rows(n);
  }

  /** The blocks up to k written a second time are more than any uninterrupted run writes. */
  lemma TwiceIsTooOften(id: string, rows: nat -> seq<Row>, k: nat)
    requires RowsOf(id, rows) && rows(k) != []
    ensures !AtMostOnce(Stream(rows, 0, k + 1) + Stream(rows, 0, k + 1), rows, 0)
  {
    var once, row := Stream(rows, 0, k + 1), rows(k)[0];
    assert row in rows(k) && row.blockNum == k;
    StreamCount(id, rows, k + 1, row);
    forall m ensures !(multiset(once + once) <= multiset(Stream(rows, 0, m))) {
      StreamCount(id, rows, m, row);
      assert multiset(once + once)[row] == 2 * multiset(rows(k))[row] > multiset(rows(k))[row];
    }
  }

  /** Every run, from empty tables, leaves each row at most once. */
  ghost predicate NeverTwice(ch: Chain, sync: Option<nat>)
  {
    var start := if sync.None? then 0 else sync.value;
    forall actions ::
      var r := Run(ch, State(Down, sync, [], []), actions);
      r.Some? ==>
        && AtMostOnce(Own(r.value.deposits, ch.id), ch.deposits, start)
        && AtMostOnce(Own(r.value.withdraws, ch.id), ch.withdraws, start)
  }

  ghost predicate NoRows(ch: Chain) { forall n :: ch.deposits(n) == [] && ch.withdraws(n) == [] }

  /** Up to block k, a crash, and the same again. */
  lemma AgainFromZero(ch: Chain, k: nat) returns (u: State)
    ensures Reaches(ch, State(Down, None, [], []), u)
    ensures u.deposits == Stream(ch.deposits, 0, k + 1) + Stream(ch.deposits, 0, k + 1)
    ensures u.withdraws == Stream(ch.withdraws, 0, k + 1) + Stream(ch.withdraws, 0, k + 1)
  {
    var s: State := State(Down, None, [], []);
    ReachesSelf(ch, s);
    hide Reaches, Stream;
    u := Go(ch, s, s, Start);
    u := Blocks(ch, s, u, 0, k + 1);
    u := Go(ch, s, u, Crash);
    u := Go(ch, s, u, Start);
    u := Blocks(ch, s, u, 0, k + 1);
  }

  lemma OwnTwice(id: string, rows: nat -> seq<Row>, m: nat)
    requires RowsOf(id, rows)
    ensures Own(Stream(rows, 0, m) + Stream(rows, 0, m), id) == Stream(rows, 0, m) + Stream(rows, 0, m)
  {
    var once := Stream(rows, 0, m);
    StreamBlocks(id, rows, 0, m);
    assert forall i :: 0 <= i < |once| ==> once[i] in once;
    OwnAll(once + once, id);
  }

  lemma NothingStep(ch: Chain, s: State, a: Action, t: State)
    requires NoRows(ch) && Step(ch, s, a) == Some(t)
    requires Own(s.deposits, ch.id) == [] && Own(s.withdraws, ch.id) == []
    ensures Own(t.deposits, ch.id) == [] && Own(t.withdraws, ch.id) == []
  {
    hide Own, Remove, Without;
    match a
    case ClearRow(i) =>
      if s.phase.ToClear? {
        OwnWithout(s.deposits, i, ch.id);
      } else {
        OwnWithout(s.withdraws, i, ch.id);
      }
    case Clear =>
      NothingToRemove(s.deposits, ch.id, s.phase.sync);
      NothingToRemove(s.withdraws, ch.id, s.phase.sync);
    case FlushStep =>
      var b := s.phase.job.value.block;
      assert |ch.deposits(b)| == 0 && |ch.withdraws(b)| == 0;
    case OtherDeposit(row) => OwnSnoc(s.deposits, row, ch.id);
    case OtherWithdraw(row) => OwnSnoc(s.withdraws, row, ch.id);
    case _ =>
  }

  lemma NothingToRemove(table: seq<Row>, id: string, from: nat)
    requires Own(table, id) == []
    ensures Own(Remove(table, id, from), id) == []
  {
    RemoveOwn(table, id, from);
  }

  /** A collector for a chain without any row never writes any. */
  lemma {:induction false} NothingWritten(ch: Chain, sync: Option<nat>, actions: seq<Action>, t: State)
    requires NoRows(ch) && Run(ch, State(Down, sync, [], []), actions) == Some(t)
    ensures Own(t.deposits, ch.id) == [] && Own(t.withdraws, ch.id) == []
    decreases |actions|
  {
    hide NoRows, Step;
    if actions != [] {
      var n := |actions| - 1;
      var m := Run(ch, State(Down, sync, [], []), actions[..n]).value;
      NothingWritten(ch, sync, actions[..n], m);
      NothingStep(ch, m, actions[n], t);
    }
  }

  /** Recovery needs the sync number to be installed, unless there is nothing to record at all. */
  lemma SyncNumberNeeded(ch: Chain, sync: Option<nat>)
    requires ValidChain(ch)
    ensures NeverTwice(ch, sync) <==> sync.Some? || NoRows(ch)
  {
    var s: State := State(Down, sync, [], []);
    if sync.Some? {
      forall actions | Run(ch, s, actions).Some?
        ensures var t := Run(ch, s, actions).value;
          && AtMostOnce(Own(t.deposits, ch.id), ch.deposits, sync.value)
          && AtMostOnce(Own(t.withdraws, ch.id), ch.withdraws, sync.value)
      {
        EveryRunRecords(ch, sync.value, s, actions, Run(ch, s, actions).value);
      }
    } else if NoRows(ch) {
      forall actions | Run(ch, s, actions).Some?
        ensures var t := Run(ch, s, actions).value;
          && AtMostOnce(Own(t.deposits, ch.id), ch.deposits, 0)
          && AtMostOnce(Own(t.withdraws, ch.id), ch.withdraws, 0)
      {
        NothingWritten(ch, sync, actions, Run(ch, s, actions).value);
        assert multiset(Stream(ch.deposits, 0, 0)) == multiset(Stream(ch.withdraws, 0, 0)) == multiset{};
      }
    } else {
      var k: nat :| !(ch.deposits(k) == [] && ch.withdraws(k) == []);
      var u := AgainFromZero(ch, k);
      var actions :| Run(ch, s, actions) == Some(u);
      OwnTwice(ch.id, ch.deposits, k + 1);
      OwnTwice(ch.id, ch.withdraws, k + 1);
      if ch.deposits(k) != [] {
        TwiceIsTooOften(ch.id, ch.deposits, k);
      } else {
        TwiceIsTooOften(ch.id, ch.withdraws, k);
      }
    }
  }
}
