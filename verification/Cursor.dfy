// Polling the recorded transactions with a block number as cursor (service/sim_api.py,
// zchain_transaction_all_history): the answer holds the rows of the first non-empty window above the
// cursor and the next cursor.

module Cursor {
  import opened Options

  datatype Row = Row(txid: string, blockNum: nat)

  /** The rows of the asked chain. */
  datatype Tables = Tables(deposits: seq<Row>, withdraws: seq<Row>, guardcalls: seq<Row>)

  /** blockNum is missing when the loop over the windows is never entered. */
  datatype Answer = Answer(blockNum: Option<int>, data: seq<Row>)

  const WINDOW := 1000
  const ETH_WINDOW := 10000
  const ETH_FIRST_BLOCK := 6500000

  // ---- Queries ----

  function Insert(row: Row, rows: seq<Row>): seq<Row>
  {
    if rows == [] || row.blockNum >= rows[0].blockNum then [row] + rows
    else [rows[0]] + Insert(row, rows[1..])
  }

  /** The rows with lo < blockNum <= hi, latest block first. */
  function Query(table: seq<Row>, lo: int, hi: int): seq<Row>
  {
    if table == [] then []
    else
      var rest, row := Query(table[..|table| - 1], lo, hi), table[|table| - 1];
      if lo < row.blockNum <= hi then Insert(row, rest) else rest
  }

  /** The same rows, in no order. */
  function Within(table: seq<Row>, lo: int, hi: int): multiset<Row>
  {
    if table == [] then multiset{}
    else
      var rest, row := Within(table[..|table| - 1], lo, hi), table[|table| - 1];
      if lo < row.blockNum <= hi then rest + multiset{row} else rest
  }

  predicate LatestFirst(rows: seq<Row>)
  {
    forall i, j :: 0 <= i < j < |rows| ==> rows[i].blockNum >= rows[j].blockNum
  }

  lemma {:induction false} InsertAdds(row: Row, rows: seq<Row>)
    ensures multiset(Insert(row, rows)) == multiset(rows) + multiset{row}
  {
    if rows != [] && row.blockNum < rows[0].blockNum {
      InsertAdds(row, rows[1..]);
      assert rows == [rows[0]] + rows[1..];
    }
  }

  lemma {:induction false} InsertKeeps(row: Row, rows: seq<Row>)
    requires LatestFirst(rows)
    ensures LatestFirst(Insert(row, rows))
  {
    if rows != [] && row.blockNum < rows[0].blockNum {
      var rest := rows[1..];
      InsertKeeps(row, rest);
      InsertAdds(row, rest);
      var r := Insert(row, rest);
      forall j | 0 <= j < |r| ensures rows[0].blockNum >= r[j].blockNum {
        assert r[j] in multiset(rest) + multiset{row};
      }
    }
  }

  lemma {:induction false} QueryIsWithin(table: seq<Row>, lo: int, hi: int)
    ensures multiset(Query(table, lo, hi)) == Within(table, lo, hi)
    ensures LatestFirst(Query(table, lo, hi))
    decreases |table|
  {
    if table != [] {
      QueryIsWithin(table[..|table| - 1], lo, hi);
      InsertAdds(table[|table| - 1], Query(table[..|table| - 1], lo, hi));
      InsertKeeps(table[|table| - 1], Query(table[..|table| - 1], lo, hi));
    }
  }

  lemma {:induction false} WithinBounds(table: seq<Row>, lo: int, hi: int)
    ensures forall row :: row in Within(table, lo, hi) ==> lo < row.blockNum <= hi
    ensures forall i :: 0 <= i < |table| && lo < table[i].blockNum <= hi ==> table[i] in Within(table, lo, hi)
    decreases |table|
  {
    if table != [] { WithinBounds(table[..|table| - 1], lo, hi); }
  }

  lemma {:induction false} WithinCount(table: seq<Row>, lo: int, hi: int, row: Row)
    ensures Within(table, lo, hi)[row] == if lo < row.blockNum <= hi then multiset(table)[row] else 0
    decreases |table|
  {
    if table != [] {
      WithinCount(table[..|table| - 1], lo, hi, row);
      assert table == table[..|table| - 1] + [table[|table| - 1]];
    }
  }

  lemma WithinAppend(t1: seq<Row>, t2: seq<Row>, lo: int, hi: int)
    ensures Within(t1 + t2, lo, hi) == Within(t1, lo, hi) + Within(t2, lo, hi)
  {
    hide Within;
    forall row ensures Within(t1 + t2, lo, hi)[row] == Within(t1, lo, hi)[row] + Within(t2, lo, hi)[row] {
      WithinCount(t1 + t2, lo, hi, row);
      WithinCount(t1, lo, hi, row);
      WithinCount(t2, lo, hi, row);
    }
  }

  lemma {:induction false} WithinSplit(table: seq<Row>, lo: int, mid: int, hi: int)
    requires lo <= mid <= hi
    ensures Within(table, lo, hi) == Within(table, lo, mid) + Within(table, mid, hi)
    decreases |table|
  {
    if table != [] { WithinSplit(table[..|table| - 1], lo, mid, hi); }
  }

  lemma {:induction false} WithinNone(table: seq<Row>, lo: int, hi: int)
    requires forall row :: row in table ==> !(lo < row.blockNum <= hi)
    ensures Within(table, lo, hi) == multiset{}
    decreases |table|
  {
    if table != [] { WithinNone(table[..|table| - 1], lo, hi); }
  }

  function All(t: Tables): seq<Row> { t.deposits + t.withdraws + t.guardcalls }

  /** What one window yields. */
  function WindowRows(t: Tables, lo: int, hi: int): seq<Row>
  {
    Query(t.deposits, lo, hi) + Query(t.withdraws, lo, hi) + Query(t.guardcalls, lo, hi)
  }

  lemma WindowRowsAre(t: Tables, lo: int, hi: int)
    ensures multiset(WindowRows(t, lo, hi)) == Within(All(t), lo, hi)
  {
    QueryIsWithin(t.deposits, lo, hi);
    QueryIsWithin(t.withdraws, lo, hi);
    QueryIsWithin(t.guardcalls, lo, hi);
    WithinAppend(t.deposits, t.withdraws, lo, hi);
    WithinAppend(t.deposits + t.withdraws, t.guardcalls, lo, hi);
  }

  function Max(a: int, b: int): int { if a >= b then a else b }

  // ---- The call ----

  function Windows(b: int, current: nat, dep: nat): int
    requires dep > 0
  {
    (current - b) / dep + 1
  }

  /** What the caller may rely on: exactly the rows above the old cursor up to the new one; nothing is passed
      over; the windows reach beyond the sync height, and there are none from above it; if there is a row up to
      the sync height the cursor moves, on to the block of a row handed out. */
  ghost predicate Answers(t: Tables, b: int, current: nat, dep: nat, r: Answer)
    requires dep > 0
  {
    && (r.blockNum.None? <==> current < b && exists row :: row in All(t) && row.blockNum > b)
    && (r.blockNum.Some? ==> b <= r.blockNum.value && multiset(r.data) == Within(All(t), b, r.blockNum.value))
    && (r.data == [] ==> Within(All(t), b, current) == multiset{} && r.blockNum in {None, Some(Max(b, 0))})
    && (r.data == [] && b <= current ==> Within(All(t), b, Edge(b, dep, Windows(b, current, dep))) == multiset{})
    && (r.data != [] ==> b <= current && r.blockNum.Some? && r.blockNum.value > b)
    && (r.data != [] ==> exists row :: row in r.data && row.blockNum == r.blockNum.value)
  }

  /** The rows are those of the first window that holds any. */
  ghost predicate FromFirstWindow(t: Tables, b: int, current: nat, dep: nat, data: seq<Row>)
    requires dep > 0
  {
    data != [] ==> exists i: nat ::
      i < Windows(b, current, dep)
      && data == WindowRows(t, Edge(b, dep, i), Edge(b, dep, i + 1)) && Within(All(t), b, Edge(b, dep, i)) == multiset{}
  }

  /** Where window i begins. */
  function Edge(b: int, dep: nat, i: int): int { b + i * dep }

  predicate Above(table: seq<Row>, b: int) { exists row :: row in table && row.blockNum > b }

  /** The tables the chain's answer is drawn from: guard calls only for Ethereum and its tokens. */
  function Seen(t: Tables, isEth: bool): Tables { if isEth then t else t.(guardcalls := []) }

  function WindowOf(isEth: bool): nat { if isEth then ETH_WINDOW else WINDOW }

  /** The cursor the call starts from. */
  function From(isEth: bool, blockNum: int): int { if isEth && blockNum == 0 then ETH_FIRST_BLOCK else blockNum }

  /** One window: the rows, and the block number after it. */
  method ReadWindow(t: Tables, lo: int, hi: int, b: int) returns (trxs: seq<Row>, next: int)
    requires lo < hi
    ensures trxs == WindowRows(t, lo, hi)
    ensures trxs == [] ==> next == Max(0, b)
    ensures trxs != [] ==> next >= b && (forall row :: row in trxs ==> row.blockNum <= next)
    ensures trxs != [] && b <= lo ==> exists row :: row in trxs && row.blockNum == next
  {
    var depositTrxs, withdrawTrxs, guardcallTrxs := Query(t.deposits, lo, hi), Query(t.withdraws, lo, hi),
        Query(t.guardcalls, lo, hi);
    var depositBlocknum, withdrawBlocknum, guardcallBlocknum := 0, 0, 0;
    if |depositTrxs| > 0 {
      depositBlocknum := depositTrxs[0].blockNum;
    }
    if |withdrawTrxs| > 0 {
      withdrawBlocknum := withdrawTrxs[0].blockNum;
    }
    if |guardcallTrxs| > 0 {
      guardcallBlocknum := guardcallTrxs[0].blockNum;
    }
    trxs := depositTrxs + withdrawTrxs + guardcallTrxs;
    next := Max(Max(depositBlocknum, withdrawBlocknum), Max(guardcallBlocknum, b));
    TopIsLatest(t.deposits, lo, hi);
    TopIsLatest(t.withdraws, lo, hi);
    TopIsLatest(t.guardcalls, lo, hi);
  }

  lemma TopIsLatest(table: seq<Row>, lo: int, hi: int)
    ensures var rows := Query(table, lo, hi);
      && (forall row :: row in rows ==> lo < row.blockNum <= rows[0].blockNum)
      && (rows != [] ==> rows[0] in rows)
  {
    var rows := Query(table, lo, hi);
    QueryIsWithin(table, lo, hi);
    WithinBounds(table, lo, hi);
    forall row | row in rows ensures lo < row.blockNum <= rows[0].blockNum {
      assert row in multiset(rows);
    }
  }

  lemma EdgeNext(b: int, dep: nat, i: nat)
    ensures Edge(b, dep, i + 1) == Edge(b, dep, i) + dep && Edge(b, dep, i) >= b
  {
  }

  lemma EmptyWindow(t: Tables, b: int, dep: nat, i: nat)
    requires Within(All(t), b, Edge(b, dep, i)) == multiset{}
    requires WindowRows(t, Edge(b, dep, i), Edge(b, dep, i + 1)) == []
    ensures Within(All(t), b, Edge(b, dep, i + 1)) == multiset{}
  {
    EdgeNext(b, dep, i);
    WindowRowsAre(t, Edge(b, dep, i), Edge(b, dep, i + 1));
    WithinSplit(All(t), b, Edge(b, dep, i), Edge(b, dep, i + 1));
  }

  /** A window with rows, after empty ones. */
  lemma FullWindow(t: Tables, b: int, dep: nat, i: nat, next: int)
    requires Within(All(t), b, Edge(b, dep, i)) == multiset{}
    requires var rows := WindowRows(t, Edge(b, dep, i), Edge(b, dep, i + 1));
      && (forall row :: row in rows ==> row.blockNum <= next)
      && exists row :: row in rows && row.blockNum == next
    ensures b < next && multiset(WindowRows(t, Edge(b, dep, i), Edge(b, dep, i + 1))) == Within(All(t), b, next)
  {
    var lo, hi := Edge(b, dep, i), Edge(b, dep, i + 1);
    var rows := WindowRows(t, lo, hi);
    EdgeNext(b, dep, i);
    WindowRowsAre(t, lo, hi);
    WithinBounds(All(t), lo, hi);
    var last :| last in rows && last.blockNum == next;
    assert last in multiset(rows);
    WithinSplit(All(t), lo, next, hi);
    WithinSplit(All(t), b, lo, next);
    forall row | row in All(t) && lo < row.blockNum <= hi ensures row.blockNum <= next {
      var i :| 0 <= i < |All(t)| && All(t)[i] == row;
      assert All(t)[i] in Within(All(t), lo, hi);
      assert row in multiset(rows);
    }
    WithinNone(All(t), next, hi);
  }

  lemma AllEmpty(t: Tables, b: int, current: nat, dep: nat)
    requires dep > 0 && b <= current
    requires Within(All(t), b, Edge(b, dep, Windows(b, current, dep))) == multiset{}
    ensures Within(All(t), b, current) == multiset{} && Within(All(t), b, Max(b, 0)) == multiset{}
  {
    var end := Edge(b, dep, Windows(b, current, dep));
    assert end > current;
    WithinSplit(All(t), b, current, end);
    WithinSplit(All(t), b, Max(b, 0), end);
  }

  lemma NoneAbove(t: Tables, b: int, hi: int)
    requires !Above(t.deposits, b) && !Above(t.withdraws, b) && !Above(t.guardcalls, b)
    ensures Within(All(t), b, hi) == multiset{}
  {
    WithinNone(All(t), b, hi);
  }

  /** The answer when no row lies above the cursor. */
  lemma AnswersNone(t: Tables, b: int, current: nat, dep: nat)
    requires dep > 0 && !Above(t.deposits, b) && !Above(t.withdraws, b) && !Above(t.guardcalls, b)
    ensures Answers(t, b, current, dep, Answer(Some(Max(b, 0)), []))
  {
    AboveSome(t, b);
    hide Within, All, Above, Edge, Windows;
    NoneAbove(t, b, current);
    NoneAbove(t, b, Max(b, 0));
    NoneAbove(t, b, Edge(b, dep, Windows(b, current, dep)));
  }

  lemma AboveSome(t: Tables, b: int)
    ensures (exists row :: row in All(t) && row.blockNum > b)
      <==> Above(t.deposits, b) || Above(t.withdraws, b) || Above(t.guardcalls, b)
  {
    assert forall row :: row in All(t) <==> row in t.deposits || row in t.withdraws || row in t.guardcalls;
  }

  /** The answer of the first window with rows. */
  lemma AnswersFull(t: Tables, b: int, current: nat, dep: nat, i: nat, next: int)
    requires dep > 0 && i < Windows(b, current, dep) && Within(All(t), b, Edge(b, dep, i)) == multiset{}
    requires var rows := WindowRows(t, Edge(b, dep, i), Edge(b, dep, i + 1));
      && (forall row :: row in rows ==> row.blockNum <= next)
      && exists row :: row in rows && row.blockNum == next
    ensures var rows := WindowRows(t, Edge(b, dep, i), Edge(b, dep, i + 1));
      Answers(t, b, current, dep, Answer(Some(next), rows)) && FromFirstWindow(t, b, current, dep, rows)
  {
    hide Within, All, WindowRows, Edge, Windows;
    WindowsReach(b, current, dep);
    FullWindow(t, b, dep, i, next);
  }

  /** The answer when every window was empty, or there was none. */
  lemma AnswersEmpty(t: Tables, b: int, current: nat, dep: nat, n: int, blockNum: Option<int>)
    requires dep > 0 && n == Windows(b, current, dep)
    requires Above(t.deposits, b) || Above(t.withdraws, b) || Above(t.guardcalls, b)
    requires blockNum == if n <= 0 then None else Some(Max(b, 0))
    requires n > 0 ==> Within(All(t), b, Edge(b, dep, n)) == multiset{}
    ensures Answers(t, b, current, dep, Answer(blockNum, []))
  {
    WindowsReach(b, current, dep);
    AboveSome(t, b);
    if n > 0 {
      AllEmpty(t, b, current, dep);
    } else {
      WithinNone(All(t), b, current);
    }
    hide Within, All, Above, Edge, Windows;
  }

  lemma WindowsReach(b: int, current: nat, dep: nat)
    requires dep > 0
    ensures Windows(b, current, dep) <= 0 <==> current < b
  {
  }

  // ---- The answer read off the tables ----

  /** The rows of one table with lo < blockNum <= hi, latest block first. */
  ghost predicate IsSection(rows: seq<Row>, table: seq<Row>, lo: int, hi: int)
  {
    LatestFirst(rows)
    && forall row :: multiset(rows)[row] == if lo < row.blockNum <= hi then multiset(table)[row] else 0
  }

  /** Deposits, then withdraws, then guard calls, these for Ethereum and its tokens only. */
  ghost predicate IsData(t: Tables, isEth: bool, lo: int, hi: int, data: seq<Row>)
  {
    exists d, w, g ::
      data == d + w + g && IsSection(d, t.deposits, lo, hi) && IsSection(w, t.withdraws, lo, hi)
      && if isEth then IsSection(g, t.guardcalls, lo, hi) else g == []
  }

  ghost predicate InTables(t: Tables, isEth: bool, row: Row)
  {
    row in t.deposits || row in t.withdraws || (isEth && row in t.guardcalls)
  }

  ghost predicate NoneBetween(t: Tables, isEth: bool, lo: int, hi: int)
  {
    forall row :: InTables(t, isEth, row) ==> !(lo < row.blockNum <= hi)
  }

  /** The answer lies in window i, which begins at or below the sync height, and the windows before are empty. */
  ghost predicate InWindow(t: Tables, isEth: bool, b: int, current: nat, i: nat, data: seq<Row>)
  {
    var dep := if isEth then 10_000 else 1000;
    && b + i * dep <= current
    && (forall row :: row in data ==> b + i * dep < row.blockNum <= b + i * dep + dep)
    && NoneBetween(t, isEth, b, b + i * dep)
  }

  ghost predicate ReplyFrom(t: Tables, isEth: bool, b: int, current: nat, r: Answer)
  {
    && (r.blockNum.None? <==> current < b && exists row :: InTables(t, isEth, row) && row.blockNum > b)
    && (r.blockNum.Some? ==> b <= r.blockNum.value && IsData(t, isEth, b, r.blockNum.value, r.data))
    && (r.data == [] ==>
          NoneBetween(t, isEth, b, current) && (r.blockNum.Some? ==> r.blockNum.value == if b < 0 then 0 else b))
    && (r.data != [] ==>
          && r.blockNum.Some? && (exists row :: row in r.data && row.blockNum == r.blockNum.value)
          && exists i :: InWindow(t, isEth, b, current, i, r.data))
  }

  /** A new Ethereum client starts where the first Ethereum deposits can be. */
  ghost predicate Reply(t: Tables, isEth: bool, blockNum0: int, current: nat, r: Answer)
  {
    ReplyFrom(t, isEth, if isEth && blockNum0 == 0 then 6_500_000 else blockNum0, current, r)
  }

  lemma SeenRows(t: Tables, isEth: bool, row: Row)
    ensures multiset(All(Seen(t, isEth)))[row]
      == multiset(t.deposits)[row] + multiset(t.withdraws)[row] + (if isEth then multiset(t.guardcalls)[row] else 0)
    ensures row in All(Seen(t, isEth)) <==> InTables(t, isEth, row)
  {
    var s := Seen(t, isEth);
    assert multiset(All(s)) == multiset(s.deposits) + multiset(s.withdraws) + multiset(s.guardcalls);
    assert row in All(s) <==> row in multiset(All(s));
  }

  lemma NothingWithin(t: Tables, isEth: bool, lo: int, hi: int)
    requires Within(All(Seen(t, isEth)), lo, hi) == multiset{}
    ensures NoneBetween(t, isEth, lo, hi)
  {
    hide Within, All, Seen, InTables;
    forall row | InTables(t, isEth, row) ensures !(lo < row.blockNum <= hi) {
      SeenRows(t, isEth, row);
      WithinCount(All(Seen(t, isEth)), lo, hi, row);
      assert row in multiset(All(Seen(t, isEth)));
    }
  }

  /** A table queried for a window has all its rows up to the new cursor there. */
  lemma QueryIsSection(table: seq<Row>, b: int, lo: int, hi: int, next: int)
    requires b <= lo && (forall row :: row in table ==> !(b < row.blockNum <= lo))
    requires next <= hi && (forall row :: row in Query(table, lo, hi) ==> row.blockNum <= next)
    ensures IsSection(Query(table, lo, hi), table, b, next)
  {
    var rows := Query(table, lo, hi);
    hide Query;
    QueryIsWithin(table, lo, hi);
    forall row: Row ensures multiset(rows)[row] == if b < row.blockNum <= next then multiset(table)[row] else 0 {
      WithinCount(table, lo, hi, row);
      assert row in rows <==> row in multiset(rows);
      assert row in table <==> row in multiset(table);
    }
  }

  lemma NoSection(t: Tables, isEth: bool, lo: int, hi: int)
    requires NoneBetween(t, isEth, lo, hi)
    ensures IsData(t, isEth, lo, hi, [])
  {
    assert isEth ==> forall row :: row in t.guardcalls ==> InTables(t, isEth, row);
    assert forall row :: row in t.deposits || row in t.withdraws ==> InTables(t, isEth, row);
    hide InTables;
    EmptySection(t.deposits, lo, hi);
    EmptySection(t.withdraws, lo, hi);
    if isEth { EmptySection(t.guardcalls, lo, hi); }
    hide IsSection;
    var none: seq<Row> := [];
    assert none == none + none + none;
  }

  lemma EmptySection(table: seq<Row>, lo: int, hi: int)
    requires forall row :: row in table ==> !(lo < row.blockNum <= hi)
    ensures IsSection([], table, lo, hi)
  {
    var none: seq<Row> := [];
    forall row: Row ensures multiset(none)[row] == if lo < row.blockNum <= hi then multiset(table)[row] else 0 {
      assert row in table <==> row in multiset(table);
    }
  }

  /** The rows of a window after empty ones. */
  ghost predicate WindowAnswer(t: Tables, isEth: bool, b: int, current: nat, i: nat, next: int, data: seq<Row>)
  {
    var s, dep := Seen(t, isEth), WindowOf(isEth);
    && i < Windows(b, current, dep) && Within(All(s), b, Edge(b, dep, i)) == multiset{}
    && data == WindowRows(s, Edge(b, dep, i), Edge(b, dep, i + 1))
    && multiset(data) == Within(All(s), b, next)
    && exists row :: row in data && row.blockNum == next
  }

  lemma WindowBounds(t: Tables, isEth: bool, b: int, current: nat, i: nat, next: int, data: seq<Row>)
    requires WindowAnswer(t, isEth, b, current, i, next, data)
    ensures InWindow(t, isEth, b, current, i, data)
    ensures next <= Edge(b, WindowOf(isEth), i + 1) && forall row :: row in data ==> row.blockNum <= next
  {
    var s, dep := Seen(t, isEth), WindowOf(isEth);
    var lo, hi := Edge(b, dep, i), Edge(b, dep, i + 1);
    EdgeNext(b, dep, i);
    WindowBegins(b, current, dep, i);
    NothingWithin(t, isEth, b, lo);
    WindowRowsAre(s, lo, hi);
    hide Within, All, WindowRows, Seen, NoneBetween, Windows, Edge;
    WithinBounds(All(s), lo, hi);
    WithinBounds(All(s), b, next);
    forall row | row in data ensures lo < row.blockNum <= hi && row.blockNum <= next {
      assert row in multiset(data);
    }
  }

  lemma WindowSections(t: Tables, isEth: bool, b: int, lo: int, hi: int, next: int, data: seq<Row>)
    requires b <= lo && NoneBetween(t, isEth, b, lo) && data == WindowRows(Seen(t, isEth), lo, hi)
    requires next <= hi && forall row :: row in data ==> row.blockNum <= next
    ensures IsData(t, isEth, b, next, data)
  {
    var guardcalls := Seen(t, isEth).guardcalls;
    var d, w, g := Query(t.deposits, lo, hi), Query(t.withdraws, lo, hi), Query(guardcalls, lo, hi);
    assert data == d + w + g;
    assert forall row :: row in d || row in w || row in g ==> row in data;
    hide Query, IsSection;
    assert forall row :: row in t.deposits || row in t.withdraws ==> InTables(t, isEth, row);
    QueryIsSection(t.deposits, b, lo, hi, next);
    QueryIsSection(t.withdraws, b, lo, hi, next);
    if isEth {
      assert forall row :: row in t.guardcalls ==> InTables(t, isEth, row);
      QueryIsSection(t.guardcalls, b, lo, hi, next);
    } else {
      EmptyQuery(lo, hi);
    }
  }

  /** The answer of a window with rows. */
  lemma WindowReply(t: Tables, isEth: bool, b: int, current: nat, i: nat, next: int, data: seq<Row>)
    requires WindowAnswer(t, isEth, b, current, i, next, data)
    ensures IsData(t, isEth, b, next, data) && InWindow(t, isEth, b, current, i, data)
  {
    var lo, hi := Edge(b, WindowOf(isEth), i), Edge(b, WindowOf(isEth), i + 1);
    WindowBounds(t, isEth, b, current, i, next, data);
    EdgeNext(b, WindowOf(isEth), i);
    NothingWithin(t, isEth, b, lo);
    hide Within, All, Seen, WindowRows, NoneBetween, InWindow, IsData;
    WindowSections(t, isEth, b, lo, hi, next, data);
  }

  lemma EmptyQuery(lo: int, hi: int)
    ensures Query([], lo, hi) == []
  {
  }

  lemma WindowBegins(b: int, current: nat, dep: nat, i: nat)
    requires dep > 0 && i < Windows(b, current, dep)
    ensures Edge(b, dep, i) <= current
  {
    var q := (current - b) / dep;
    assert q * dep <= current - b;
    assert i * dep <= q * dep;
  }

  lemma FullReply(t: Tables, isEth: bool, b: int, current: nat, r: Answer)
    requires var s, dep := Seen(t, isEth), WindowOf(isEth);
      Answers(s, b, current, dep, r) && FromFirstWindow(s, b, current, dep, r.data)
    requires r.data != []
    ensures r.blockNum.Some? && IsData(t, isEth, b, r.blockNum.value, r.data)
    ensures exists i :: InWindow(t, isEth, b, current, i, r.data)
  {
    hide Within, All, Seen, Windows, Edge, WindowRows;
    var s, dep := Seen(t, isEth), WindowOf(isEth);
    var i: nat :| i < Windows(b, current, dep)
      && r.data == WindowRows(s, Edge(b, dep, i), Edge(b, dep, i + 1))
      && Within(All(s), b, Edge(b, dep, i)) == multiset{};
    WindowReply(t, isEth, b, current, i, r.blockNum.value, r.data);
  }

  lemma EmptyReply(t: Tables, isEth: bool, b: int, current: nat, r: Answer)
    requires Answers(Seen(t, isEth), b, current, WindowOf(isEth), r) && r.data == []
    ensures NoneBetween(t, isEth, b, current)
    ensures r.blockNum.Some? ==> IsData(t, isEth, b, r.blockNum.value, [])
  {
    hide Within, All, Seen, Windows, Edge, NoneBetween, IsData;
    NothingWithin(t, isEth, b, current);
    if r.blockNum.Some? {
      NothingWithin(t, isEth, b, r.blockNum.value);
      NoSection(t, isEth, b, r.blockNum.value);
    }
  }

  lemma ReplyOfAnswer(t: Tables, isEth: bool, b: int, current: nat, r: Answer)
    requires Answers(Seen(t, isEth), b, current, WindowOf(isEth), r)
    requires FromFirstWindow(Seen(t, isEth), b, current, WindowOf(isEth), r.data)
    ensures ReplyFrom(t, isEth, b, current, r)
  {
    hide Within, All, Seen, InTables, Windows, Edge, FromFirstWindow, IsData, InWindow, NoneBetween;
    forall row ensures row in All(Seen(t, isEth)) <==> InTables(t, isEth, row) { SeenRows(t, isEth, row); }
    if r.data == [] {
      EmptyReply(t, isEth, b, current, r);
    } else {
      FullReply(t, isEth, b, current, r);
    }
  }

  method History(t0: Tables, isEth: bool, blockNum0: int, current: nat) returns (r: Answer)
    ensures Answers(Seen(t0, isEth), From(isEth, blockNum0), current, WindowOf(isEth), r)
    ensures FromFirstWindow(Seen(t0, isEth), From(isEth, blockNum0), current, WindowOf(isEth), r.data)
    ensures Reply(t0, isEth, blockNum0, current, r)
  {
    hide Answers, FromFirstWindow, ReplyFrom;
    r := AnswerOf(t0, isEth, blockNum0, current);
    ReplyOfAnswer(t0, isEth, From(isEth, blockNum0), current, r);
  }

  method AnswerOf(t0: Tables, isEth: bool, blockNum0: int, current: nat) returns (r: Answer)
    ensures Answers(Seen(t0, isEth), From(isEth, blockNum0), current, WindowOf(isEth), r)
    ensures FromFirstWindow(Seen(t0, isEth), From(isEth, blockNum0), current, WindowOf(isEth), r.data)
  {
    hide Answers, Within, All, WindowRows, Above, Edge, Windows;
    var t, b, dep := Seen(t0, isEth), From(isEth, blockNum0), WindowOf(isEth);
    if !Above(t.deposits, b) && !Above(t.withdraws, b) && !Above(t.guardcalls, b) {
      AnswersNone(t, b, current, dep);
      return Answer(Some(Max(b, 0)), []);
    }
    r := Answer(None, []);
    NoWindowYet(t, b, dep);
    var n := Windows(b, current, dep);
    var i := 0;
    while i < n
      invariant 0 <= i && (if n >= 0 then i <= n else i == 0)
      invariant Within(All(t), b, Edge(b, dep, i)) == multiset{} && r.data == []
      invariant r.blockNum == if i == 0 then None else Some(Max(b, 0))
      decreases n - i
    {
      EdgeNext(b, dep, i);
      var trxs, next := ReadWindow(t, Edge(b, dep, i), Edge(b, dep, i + 1), b);
      r := Answer(Some(next), trxs);
      if |trxs| > 0 {
        AnswersFull(t, b, current, dep, i, next);
        return;
      }
      EmptyWindow(t, b, dep, i);
      i := i + 1;
    }
    AnswersEmpty(t, b, current, dep, n, r.blockNum);
  }

  lemma NoWindowYet(t: Tables, b: int, dep: nat)
    ensures Within(All(t), b, Edge(b, dep, 0)) == multiset{}
  {
    WithinNone(All(t), b, b);
  }

  // ---- Polling ----

  /** One call: the tables and the sync height it saw, and the answer. */
  datatype Poll = Poll(t: Tables, current: nat, r: Answer)

  /** The cursor for the next call: the answer's, or the old one when the answer has none. */
  function Next(b: int, r: Answer): int { if r.blockNum.None? then b else r.blockNum.value }

  function CursorAfter(b: int, polls: seq<Poll>): int
  {
    if polls == [] then b else Next(CursorAfter(b, polls[..|polls| - 1]), polls[|polls| - 1].r)
  }

  function Delivered(polls: seq<Poll>): multiset<Row>
  {
    if polls == [] then multiset{} else Delivered(polls[..|polls| - 1]) + multiset(polls[|polls| - 1].r.data)
  }

  ghost predicate Polled(b: int, dep: nat, polls: seq<Poll>)
    requires dep > 0
  {
    polls != [] ==>
      var n := |polls| - 1;
      Polled(b, dep, polls[..n]) && Answers(polls[n].t, CursorAfter(b, polls[..n]), polls[n].current, dep, polls[n].r)
  }

  /** The tables are only added to, up to the final ones. */
  ghost predicate PartOf(polls: seq<Poll>, final: Tables)
  {
    forall k :: 0 <= k < |polls| ==> multiset(All(polls[k].t)) <= multiset(All(final))
  }

  /** No row appeared at or below a cursor after that cursor was handed out. */
  ghost predicate NoLateRows(b: int, polls: seq<Poll>, final: Tables)
  {
    polls != [] ==>
      var n := |polls| - 1;
      var lo, hi := CursorAfter(b, polls[..n]), CursorAfter(b, polls);
      NoLateRows(b, polls[..n], final) && Within(All(final), lo, hi) <= Within(All(polls[n].t), lo, hi)
  }

  lemma WithinMonotone(t1: seq<Row>, t2: seq<Row>, lo: int, hi: int)
    requires multiset(t1) <= multiset(t2)
    ensures Within(t1, lo, hi) <= Within(t2, lo, hi)
  {
    forall row ensures Within(t1, lo, hi)[row] <= Within(t2, lo, hi)[row] {
      WithinCount(t1, lo, hi, row);
      WithinCount(t2, lo, hi, row);
    }
  }

  /** A call delivers the rows between its cursor and the next one. */
  lemma OneCall(b: int, current: nat, dep: nat, t: Tables, r: Answer)
    requires dep > 0 && Answers(t, b, current, dep, r)
    ensures b <= Next(b, r) && multiset(r.data) == Within(All(t), b, Next(b, r))
  {
    WithinNone(All(t), b, b);
  }

  lemma SumOfParts(a: multiset<Row>, x: multiset<Row>, d: multiset<Row>, y: multiset<Row>)
    requires a <= x && d <= y
    ensures a + d <= x + y
    ensures a + d == x + y <==> a == x && d == y
  {
    if a + d == x + y {
      forall row ensures a[row] == x[row] && d[row] == y[row] {
        assert (a + d)[row] == (x + y)[row];
      }
    }
  }

  /** Every row is delivered at most once, and every row up to the last cursor is delivered exactly when none
      came late. */
  lemma {:induction false} ExactlyOnceUnlessLate(b: int, dep: nat, polls: seq<Poll>, final: Tables)
    requires dep > 0 && Polled(b, dep, polls) && PartOf(polls, final)
    ensures b <= CursorAfter(b, polls)
    ensures Delivered(polls) <= Within(All(final), b, CursorAfter(b, polls))
    ensures Delivered(polls) == Within(All(final), b, CursorAfter(b, polls)) <==> NoLateRows(b, polls, final)
    decreases |polls|
  {
    if polls == [] {
      WithinNone(All(final), b, b);
    } else {
      hide Within, Answers;
      var n := |polls| - 1;
      var c, d, t := CursorAfter(b, polls[..n]), CursorAfter(b, polls), polls[n].t;
      OneCall(c, polls[n].current, dep, t, polls[n].r);
      ExactlyOnceUnlessLate(b, dep, polls[..n], final);
      WithinSplit(All(final), b, c, d);
      WithinMonotone(All(t), All(final), c, d);
      SumOfParts(Delivered(polls[..n]), Within(All(final), b, c), Within(All(t), c, d), Within(All(final), c, d));
    }
  }

  // ---- Tables filled block by block ----

  /** Each call saw the final rows of the blocks up to some height, never lower than the call before. */
  ghost predicate BlockByBlock(polls: seq<Poll>, heights: seq<nat>, final: Tables)
  {
    && |heights| == |polls|
    && (forall k :: 0 <= k < |polls| ==> multiset(All(polls[k].t)) == Within(All(final), -1, heights[k]))
    && (forall j, k :: 0 <= j < k < |heights| ==> heights[j] <= heights[k])
  }

  lemma AtBoundary(t: Tables, final: Tables, height: nat, lo: int, hi: int)
    requires multiset(All(t)) == Within(All(final), -1, height)
    ensures multiset(All(t)) <= multiset(All(final))
    ensures hi <= Max(lo, height) ==> Within(All(final), lo, hi) == Within(All(t), lo, hi)
  {
    forall row ensures multiset(All(t))[row] == if row.blockNum <= height then multiset(All(final))[row] else 0 {
      WithinCount(All(final), -1, height, row);
    }
    if hi <= Max(lo, height) {
      forall row ensures Within(All(final), lo, hi)[row] == Within(All(t), lo, hi)[row] {
        WithinCount(All(final), lo, hi, row);
        WithinCount(All(t), lo, hi, row);
      }
    }
  }

  /** The cursor never leaves what the call has seen. */
  lemma CursorIsSeen(b: int, current: nat, dep: nat, t: Tables, r: Answer, final: Tables, height: nat)
    requires dep > 0 && Answers(t, b, current, dep, r) && multiset(All(t)) == Within(All(final), -1, height)
    ensures Next(b, r) <= Max(b, height)
  {
    if r.data != [] {
      var row :| row in r.data && row.blockNum == r.blockNum.value;
      assert row in multiset(r.data);
      WithinCount(All(t), b, r.blockNum.value, row);
      WithinBounds(All(final), -1, height);
    }
  }

  lemma BoundariesArePart(polls: seq<Poll>, heights: seq<nat>, final: Tables)
    requires BlockByBlock(polls, heights, final)
    ensures PartOf(polls, final)
  {
    forall k | 0 <= k < |polls| ensures multiset(All(polls[k].t)) <= multiset(All(final)) {
      AtBoundary(polls[k].t, final, heights[k], 0, 0);
    }
  }

  lemma BoundaryPrefix(polls: seq<Poll>, heights: seq<nat>, final: Tables)
    requires BlockByBlock(polls, heights, final) && polls != []
    ensures var n := |polls| - 1;
      |heights| == n + 1 && BlockByBlock(polls[..n], heights[..n], final)
      && multiset(All(polls[n].t)) == Within(All(final), -1, heights[n])
  {
  }

  lemma {:induction false} BoundariesHaveNoLateRows(b: int, dep: nat, polls: seq<Poll>, heights: seq<nat>,
      final: Tables)
    requires dep > 0 && Polled(b, dep, polls) && BlockByBlock(polls, heights, final)
    ensures NoLateRows(b, polls, final)
    decreases |polls|
  {
    if polls != [] {
      hide Within, Answers, BlockByBlock, All;
      var n := |polls| - 1;
      var c := CursorAfter(b, polls[..n]);
      BoundaryPrefix(polls, heights, final);
      BoundariesHaveNoLateRows(b, dep, polls[..n], heights[..n], final);
      CursorIsSeen(c, polls[n].current, dep, polls[n].t, polls[n].r, final, heights[n]);
      AtBoundary(polls[n].t, final, heights[n], c, CursorAfter(b, polls));
    }
  }

  /** Exactly once: with tables filled block by block the answers together are the rows above the first cursor
      up to the last one, and after an empty answer nothing up to the sync height is outstanding. */
  lemma PollingIsExactlyOnce(b: int, dep: nat, polls: seq<Poll>, heights: seq<nat>, final: Tables)
    requires dep > 0 && Polled(b, dep, polls) && BlockByBlock(polls, heights, final)
    ensures Delivered(polls) == Within(All(final), b, CursorAfter(b, polls))
    ensures polls != [] && polls[|polls| - 1].r.data == [] && polls[|polls| - 1].current <= heights[|polls| - 1] ==>
      Delivered(polls) == Within(All(final), b, Max(CursorAfter(b, polls), polls[|polls| - 1].current))
  {
    BoundariesArePart(polls, heights, final);
    BoundariesHaveNoLateRows(b, dep, polls, heights, final);
    ExactlyOnceUnlessLate(b, dep, polls, final);
    if polls != [] && polls[|polls| - 1].r.data == [] && polls[|polls| - 1].current <= heights[|polls| - 1] {
      NothingOutstanding(b, dep, polls, heights, final);
    }
  }

  lemma NothingOutstanding(b: int, dep: nat, polls: seq<Poll>, heights: seq<nat>, final: Tables)
    requires dep > 0 && Polled(b, dep, polls) && BlockByBlock(polls, heights, final)
    requires polls != [] && polls[|polls| - 1].r.data == [] && polls[|polls| - 1].current <= heights[|polls| - 1]
    requires b <= CursorAfter(b, polls)
    ensures var c, current := CursorAfter(b, polls), polls[|polls| - 1].current;
      Within(All(final), b, Max(c, current)) == Within(All(final), b, c)
  {
    var n := |polls| - 1;
    var c, d, current := CursorAfter(b, polls[..n]), CursorAfter(b, polls), polls[n].current;
    OneCall(c, current, dep, polls[n].t, polls[n].r);
    if d < current {
      AtBoundary(polls[n].t, final, heights[n], c, current);
      WithinSplit(All(final), c, d, current);
      WithinSplit(All(final), b, d, current);
    }
  }

  const HALF_WRITTEN := Tables([Row("d", 5)], [], [])
  const WRITTEN := Tables([Row("d", 5)], [Row("w", 5)], [])

  /** A call between the deposit and the withdraw of one block, whose sync height is still to come: the
      withdraw is never delivered. */
  lemma PolledInsideABlock(r1: Answer, r2: Answer)
    requires Polled(0, WINDOW, [Poll(HALF_WRITTEN, 4, r1), Poll(WRITTEN, 5, r2)])
    ensures Row("w", 5) !in Delivered([Poll(HALF_WRITTEN, 4, r1), Poll(WRITTEN, 5, r2)])
  {
    var polls := [Poll(HALF_WRITTEN, 4, r1), Poll(WRITTEN, 5, r2)];
    assert polls[..1] == [polls[0]] && polls[..1][..0] == [] && polls[..0] == [];
    assert Answers(HALF_WRITTEN, 0, 4, WINDOW, r1);
    FirstAnswerMovesOn(r1);
    assert Answers(WRITTEN, 5, 5, WINDOW, r2);
    OneCall(5, 5, WINDOW, WRITTEN, r2);
    WithinCount(All(WRITTEN), 5, Next(5, r2), Row("w", 5));
    WithinCount(All(HALF_WRITTEN), 0, 5, Row("w", 5));
    assert All(HALF_WRITTEN) == [Row("d", 5)];
    assert Delivered(polls[..0]) == multiset{};
    assert Delivered(polls[..1]) == multiset(r1.data);
  }

  lemma FirstAnswerMovesOn(r1: Answer)
    requires Answers(HALF_WRITTEN, 0, 4, WINDOW, r1)
    ensures Next(0, r1) == 5 && multiset(r1.data) == Within(All(HALF_WRITTEN), 0, 5)
  {
    assert All(HALF_WRITTEN) == [Row("d", 5)];
    assert Edge(0, WINDOW, Windows(0, 4, WINDOW)) == 1000;
    WithinCount(All(HALF_WRITTEN), 0, 1000, Row("d", 5));
    assert r1.data != [];
    var row :| row in r1.data && row.blockNum == r1.blockNum.value;
    assert row in multiset(r1.data);
    WithinCount(All(HALF_WRITTEN), 0, r1.blockNum.value, row);
  }

  // ---- Which chain's sync height ----

  predicate Contains(s: string, part: string)
    requires part != []
  {
    |part| <= |s| && (s[..|part|] == part || Contains(s[1..], part))
  }

  /** Ethereum and its tokens. */
  predicate IsEth(chain: string)
  {
    chain == "eth" || Contains(chain, "erc")
  }

  /** The other chains the call looks up. */
  const LOOKED_UP: set<string> := {"btc", "ltc", "hc", "usdt", "bch", "doge"}

  /** The number the collector of a chain stores its sync height under. */
  function CollectorKey(chain: string): string { if IsEth(chain) then "syncblocknum" else chain + "syncblocknum" }

  /** The sync height of a call: 0 for a chain that is not looked up, none when the number is not installed. */
  function SyncHeight(chain: string, config: map<string, nat>): Option<nat>
  {
    if IsEth(chain) || chain in LOOKED_UP then
      if CollectorKey(chain) in config then Some(config[CollectorKey(chain)]) else None
    else Some(0)
  }

  ghost predicate OccursAt(s: string, part: string, i: int) { 0 <= i <= |s| - |part| && s[i..i + |part|] == part }

  lemma {:induction false} ContainsAt(s: string, part: string)
    requires part != []
    ensures Contains(s, part) <==> exists i :: OccursAt(s, part, i)
  {
    if |part| <= |s| && s[..|part|] == part {
      assert OccursAt(s, part, 0);
    } else if |part| <= |s| {
      ContainsAt(s[1..], part);
      if i :| OccursAt(s, part, i) {
        assert s[1..][i - 1..i - 1 + |part|] == s[i..i + |part|];
        assert OccursAt(s[1..], part, i - 1);
      }
      if i :| OccursAt(s[1..], part, i) {
        assert s[1..][i..i + |part|] == s[i + 1..i + 1 + |part|];
        assert OccursAt(s, part, i + 1);
      }
    }
  }

  /** The name the call looks the sync height up under. */
  ghost function HeightKey(chain: string): Option<string>
  {
    if chain == "btc" then Some("btcsyncblocknum")
    else if chain == "ltc" then Some("ltcsyncblocknum")
    else if chain == "hc" then Some("hcsyncblocknum")
    else if chain == "usdt" then Some("usdtsyncblocknum")
    else if chain == "bch" then Some("bchsyncblocknum")
    else if chain == "doge" then Some("dogesyncblocknum")
    else None
  }

  lemma HeightKeyListed(chain: string)
    ensures HeightKey(chain).Some? <==> chain in LOOKED_UP
  {
  }

  lemma HeightKeyIs(chain: string)
    ensures HeightKey(chain) == if chain in LOOKED_UP then Some(chain + "syncblocknum") else None
  {
    HeightKeyListed(chain);
    JoinedNames();
  }

  lemma JoinedNames()
    ensures "btc" + "syncblocknum" == "btcsyncblocknum" && "ltc" + "syncblocknum" == "ltcsyncblocknum"
    ensures "hc" + "syncblocknum" == "hcsyncblocknum" && "usdt" + "syncblocknum" == "usdtsyncblocknum"
    ensures "bch" + "syncblocknum" == "bchsyncblocknum" && "doge" + "syncblocknum" == "dogesyncblocknum"
  {
  }

  /** The name has "erc" in it somewhere. */
  ghost predicate Erc(chain: string) { exists i :: OccursAt(chain, "erc", i) }

  /** The height is that installed under the key, and missing when the key is. */
  ghost predicate Installed(config: map<string, nat>, key: string, height: Option<nat>)
  {
    if key in config then height == Some(config[key]) else height == None
  }

  lemma SyncHeightIs(chain: string, config: map<string, nat>)
    ensures IsEth(chain) <==> chain == "eth" || Erc(chain)
    ensures var height := SyncHeight(chain, config);
      if IsEth(chain) then Installed(config, "syncblocknum", height)
      else if HeightKey(chain).Some? then Installed(config, HeightKey(chain).value, height)
      else height == Some(0)
  {
    ContainsAt(chain, "erc");
    HeightKeyIs(chain);
    hide HeightKey, Contains, OccursAt;
  }

  /** One item of the request; without an installed number it is left out of the reply. */
  method AllHistory(t: Tables, chain: string, blockNum: int, config: map<string, nat>) returns (r: Option<Answer>)
    ensures r.None? <==> SyncHeight(chain, config).None?
    ensures r.Some? ==> Answered(t, chain, blockNum, config, r.value)
    ensures r.Some? ==> FromFirstWindow(Seen(t, IsEth(chain)), From(IsEth(chain), blockNum),
        SyncHeight(chain, config).value, WindowOf(IsEth(chain)), r.value.data)
    ensures r.Some? ==> Reply(t, IsEth(chain), blockNum, SyncHeight(chain, config).value, r.value)
  {
    hide Answers, FromFirstWindow, Reply;
    var height := SyncHeight(chain, config);
    if height.None? {
      return None;
    }
    var answer := History(t, IsEth(chain), blockNum, height.value);
    r := Some(answer);
  }

  ghost predicate Answered(t: Tables, chain: string, blockNum: int, config: map<string, nat>, r: Answer)
  {
    SyncHeight(chain, config).Some?
    && Answers(Seen(t, IsEth(chain)), From(IsEth(chain), blockNum), SyncHeight(chain, config).value,
         WindowOf(IsEth(chain)), r)
  }

  /** An empty answer means that nothing is outstanding up to where the collector has got. */
  ghost predicate EmptyMeansDone(chain: string)
  {
    forall t, blockNum, config, r ::
      Answered(t, chain, blockNum, config, r) && r.data == [] && CollectorKey(chain) in config ==>
        Within(All(Seen(t, IsEth(chain))), From(IsEth(chain), blockNum), config[CollectorKey(chain)]) == multiset{}
  }

  /** That holds exactly for the chains whose sync height the call looks up. */
  lemma DoneWhenLookedUp(chain: string)
    ensures EmptyMeansDone(chain) <==> IsEth(chain) || chain in LOOKED_UP
  {
    if !IsEth(chain) && chain !in LOOKED_UP {
      NotLookedUp(chain);
    }
  }

  /** A row of block 5500 and a collector at 6000: from 5000 on no window is opened. */
  lemma NotLookedUp(chain: string)
    requires !IsEth(chain) && chain !in LOOKED_UP
    ensures !EmptyMeansDone(chain)
  {
    var t, config, r := Tables([Row("d", 5500)], [], []), map[CollectorKey(chain) := 6000], Answer(None, []);
    assert All(Seen(t, false)) == [Row("d", 5500)];
    WithinNone(All(Seen(t, false)), 5000, 0);
    assert Answered(t, chain, 5000, config, r) by { assert Row("d", 5500) in All(Seen(t, false)); }
    WithinCount(All(Seen(t, false)), 5000, 6000, Row("d", 5500));
  }

  lemma NoneShorter(s: string, part: string)
    requires 0 < |part| == |s| && s != part
    ensures !Contains(s, part)
  {
    assert s[..|part|] == s;
  }

  lemma BtmIsNotEth()
    ensures !IsEth("btm")
  {
    var btm, erc, eth := "btm", "erc", "eth";
    assert btm[0] != erc[0] && btm[0] != eth[0];
    NoneShorter(btm, erc);
  }

  lemma BtmIsNotListed()
    ensures "btm" !in LOOKED_UP
  {
    var btm := "btm";
    forall chain | chain in LOOKED_UP ensures |chain| != 3 || chain[1] != btm[1] || chain[2] != btm[2] {}
  }

  /** BTM is collected and installed but not looked up. */
  lemma BtmIsNotLookedUp()
    ensures CollectorKey("btm") == "btmsyncblocknum" && !EmptyMeansDone("btm")
  {
    hide IsEth, EmptyMeansDone;
    BtmIsNotEth();
    BtmIsNotListed();
    DoneWhenLookedUp("btm");
  }

  /** All calls saw a sync height of 0. */
  predicate NeverLookedUp(polls: seq<Poll>) { forall k :: 0 <= k < |polls| ==> polls[k].current == 0 }

  /** A client of such a chain never gets another row, from any cursor above 0. */
  lemma {:induction false} NothingEver(b: int, dep: nat, polls: seq<Poll>)
    requires dep > 0 && b > 0 && Polled(b, dep, polls) && NeverLookedUp(polls)
    ensures Delivered(polls) == multiset{} && CursorAfter(b, polls) == b
    decreases |polls|
  {
    if polls != [] { NothingEver(b, dep, polls[..|polls| - 1]); }
  }
}
