/** The database pump's paged queries (configure/cfgimpl/datapump.go) and the dump loop over a live table. */
module Pump {
  import opened ConfigTable
  import ServerModel

  const MAX_ROW_PER_QUERY: nat := 100

  type Table = map<RowKey, Row>

  predicate Keyed(rows: Table) {
    && (forall k :: k in rows ==> KeyOf(rows[k].cfg) == k)
    && (forall k, j :: k in rows && j in rows && k != j ==> rows[k].seqno != rows[j].seqno)
  }

  /** select max(sequence): zero on an empty table. */
  predicate IsMax(rows: Table, m: int) {
    && (forall k :: k in rows ==> rows[k].seqno <= m)
    && if rows.Keys == {} then m == 0 else exists k :: k in rows && rows[k].seqno == m
  }

  /** The rows a query may return: sequence > lo and sequence <= hi. */
  function Window(rows: Table, lo: int, hi: int): set<RowKey> {
    set k | k in rows && lo < rows[k].seqno <= hi
  }

  lemma {:induction false} LeastExists(rows: Table, ks: set<RowKey>)
    requires ks != {} && ks <= rows.Keys
    ensures exists k :: k in ks && forall j :: j in ks ==> rows[k].seqno <= rows[j].seqno
    decreases |ks|
  {
    var k :| k in ks;
    var rest := ks - {k};
    if rest != {} {
      LeastExists(rows, rest);
      var m :| m in rest && forall j :: j in rest ==> rows[m].seqno <= rows[j].seqno;
      var least := if rows[k].seqno <= rows[m].seqno then k else m;
      assert least in ks && forall j :: j in ks ==> j == k || j in rest;
      assert forall j :: j in ks ==> rows[least].seqno <= rows[j].seqno;
    } else {
      assert ks == {k};
    }
  }

  function Least(rows: Table, ks: set<RowKey>): (k: RowKey)
    requires Keyed(rows) && ks != {} && ks <= rows.Keys
    ensures k in ks && forall j :: j in ks ==> rows[k].seqno <= rows[j].seqno
  {
    LeastExists(rows, ks);
    var k :| k in ks && forall j :: j in ks ==> rows[k].seqno <= rows[j].seqno;
    k
  }

  /** The first n rows of the window, by sequence: order by sequence asc limit n. */
  function Page(rows: Table, lo: int, hi: int, n: nat): seq<Row>
    requires Keyed(rows)
    decreases n
  {
    if n == 0 || Window(rows, lo, hi) == {} then []
    else
      var r := rows[Least(rows, Window(rows, lo, hi))];
      [r] + Page(rows, r.seqno, hi, n - 1)
  }

  predicate Ascending(page: seq<Row>) {
    forall i, j :: 0 <= i < j < |page| ==> page[i].seqno < page[j].seqno
  }

  /** The cursor after a page: the last sequence seen. */
  function After(cursor: int, page: seq<Row>): int {
    if page == [] then cursor else page[|page| - 1].seqno
  }

  lemma {:induction false} PageIsCurrent(rows: Table, lo: int, hi: int, n: nat)
    requires Keyed(rows)
    ensures var page := Page(rows, lo, hi, n);
      && |page| <= n && (page == [] <==> n == 0 || Window(rows, lo, hi) == {})
      && Ascending(page)
      && (forall i :: 0 <= i < |page| ==>
            lo < page[i].seqno <= hi && KeyOf(page[i].cfg) in rows && rows[KeyOf(page[i].cfg)] == page[i])
    decreases n
  {
    if n > 0 && Window(rows, lo, hi) != {} {
      PageIsCurrent(rows, rows[Least(rows, Window(rows, lo, hi))].seqno, hi, n - 1);
    }
  }

  lemma {:induction false} PageSkipsNothing(rows: Table, lo: int, hi: int, n: nat, k: RowKey)
    requires Keyed(rows) && k in rows && lo < rows[k].seqno <= After(lo, Page(rows, lo, hi, n))
    ensures rows[k] in Page(rows, lo, hi, n)
    decreases n
  {
    var page := Page(rows, lo, hi, n);
    PageIsCurrent(rows, lo, hi, n);
    if page != [] {
      assert k in Window(rows, lo, hi);
      var m := Least(rows, Window(rows, lo, hi));
      assert page[0] == rows[m];
      if k != m {
        var rest := Page(rows, rows[m].seqno, hi, n - 1);
        assert After(lo, page) == After(rows[m].seqno, rest);
        PageSkipsNothing(rows, rows[m].seqno, hi, n - 1, k);
      }
    }
  }

  /** A page holds current rows in order, and skips nothing up to its last one. */
  lemma PageIsComplete(rows: Table, lo: int, hi: int, n: nat)
    requires Keyed(rows)
    ensures var page := Page(rows, lo, hi, n);
      && |page| <= n && (page == [] <==> n == 0 || Window(rows, lo, hi) == {})
      && Ascending(page)
      && (forall i :: 0 <= i < |page| ==>
            lo < page[i].seqno <= hi && KeyOf(page[i].cfg) in rows && rows[KeyOf(page[i].cfg)] == page[i])
      && (forall k :: k in rows && lo < rows[k].seqno <= After(lo, page) ==> rows[k] in page)
  {
    PageIsCurrent(rows, lo, hi, n);
    forall k | k in rows && lo < rows[k].seqno <= After(lo, Page(rows, lo, hi, n))
      ensures rows[k] in Page(rows, lo, hi, n)
    {
      PageSkipsNothing(rows, lo, hi, n, k);
    }
  }

  /** A page is as long as the limit and the window allow. */
  lemma {:induction false} PageIsFull(rows: Table, lo: int, hi: int, n: nat)
    requires Keyed(rows)
    ensures |Page(rows, lo, hi, n)| == if |Window(rows, lo, hi)| < n then |Window(rows, lo, hi)| else n
    decreases n
  {
    if n > 0 && Window(rows, lo, hi) != {} {
      var k := Least(rows, Window(rows, lo, hi));
      assert Window(rows, lo, hi) == Window(rows, rows[k].seqno, hi) + {k};
      PageIsFull(rows, rows[k].seqno, hi, n - 1);
    }
  }

  // ----- the table while writers keep committing

  /** now is was after some commits: every row is as before or carries a number above all earlier ones. */
  ghost predicate Later(was: Db, now: Db) {
    && High(was) <= High(now)
    && (forall k :: k in was.rows ==> k in now.rows)
    && (forall k :: k in now.rows ==>
          (k in was.rows && now.rows[k] == was.rows[k]) || now.rows[k].seqno > High(was))
  }

  lemma StepIsLater(db: Db, step: WriterStep)
    requires TableInv(db)
    ensures TableInv(Write(db, step)) && Later(db, Write(db, step))
  {
    WriteKeepsInv(db, step);
    StepIsOneCommit(db, step);
    var d := Write(db, step);
    if d.rows != db.rows {
      var k :| k in d.rows && d.rows == db.rows[k := d.rows[k]] && d.rows[k].seqno > High(db)
               && d.log == db.log + [d.rows[k].seqno];
    }
  }

  lemma LaterTransitive(a: Db, b: Db, c: Db)
    requires Later(a, b) && Later(b, c)
    ensures Later(a, c)
  {
  }

  /** Rows only ever leave a window whose top is already committed: this is the dump's measure. */
  lemma WindowShrinks(was: Db, now: Db, lo: int, hi: int)
    requires Later(was, now) && hi <= High(was)
    ensures Window(now.rows, lo, hi) <= Window(was.rows, lo, hi)
    ensures |Window(now.rows, lo, hi)| <= |Window(was.rows, lo, hi)|
  {
    var a := Window(now.rows, lo, hi);
    var b := Window(was.rows, lo, hi);
    assert b == a + (b - a);
    assert |b| == |a| + |b - a|;
  }

  lemma WindowAdvances(rows: Table, lo: int, hi: int, n: nat)
    requires Keyed(rows) && Page(rows, lo, hi, n) != []
    ensures |Window(rows, After(lo, Page(rows, lo, hi, n)), hi)| < |Window(rows, lo, hi)|
  {
    PageIsComplete(rows, lo, hi, n);
    var page := Page(rows, lo, hi, n);
    var a := Window(rows, After(lo, page), hi);
    var b := Window(rows, lo, hi);
    var k := KeyOf(page[|page| - 1].cfg);
    assert k in b - a && a <= b;
    assert b == a + (b - a);
    assert |b| == |a| + |b - a|;
  }

  /** A delivered row is in the table as it is now, or was replaced by one above the mark. */
  predicate IsCurrent(rows: Table, row: Row, top: int, mark: int) {
    && 0 < row.seqno <= top && KeyOf(row.cfg) in rows
    && (rows[KeyOf(row.cfg)] == row || rows[KeyOf(row.cfg)].seqno > mark)
  }

  /** What the dump has delivered so far, next to the table as it is now. */
  ghost predicate DumpOk(rows: Table, delivered: seq<Row>, start: int, mark: int) {
    && Ascending(delivered)
    && (forall i, j :: 0 <= i < j < |delivered| ==> KeyOf(delivered[i].cfg) != KeyOf(delivered[j].cfg))
    && (forall i :: 0 <= i < |delivered| ==> IsCurrent(rows, delivered[i], start, mark))
    && (forall k :: k in rows && rows[k].seqno <= start ==> rows[k] in delivered)
  }

  /** A complete dump: in sequence order, all at or below the mark, each configuration at most once, and every row of
      the table as it is now that is at or below the mark. */
  ghost predicate IsDump(rows: Table, delivered: seq<Row>, mark: int) {
    && Ascending(delivered) && (forall i :: 0 <= i < |delivered| ==> 0 < delivered[i].seqno <= mark)
    && (forall i, j :: 0 <= i < j < |delivered| ==> KeyOf(delivered[i].cfg) != KeyOf(delivered[j].cfg))
    && (forall k :: k in rows && rows[k].seqno <= mark ==> rows[k] in delivered)
  }

  /** Rows of the given table. */
  predicate AllFrom(rows: Table, delivered: seq<Row>) {
    forall i :: 0 <= i < |delivered| ==> KeyOf(delivered[i].cfg) in rows && rows[KeyOf(delivered[i].cfg)] == delivered[i]
  }

  /** A page below what was committed when the dump began holds rows of that table, whatever was written since. */
  lemma PageIsFrom(first: Db, now: Db, lo: int, hi: int, n: nat)
    requires Later(first, now) && Keyed(now.rows) && hi <= High(first)
    ensures AllFrom(first.rows, Page(now.rows, lo, hi, n))
  {
    PageIsCurrent(now.rows, lo, hi, n);
  }

  /** When nothing is left between the cursor and the mark, the dump is complete. */
  lemma NothingLeft(rows: Table, delivered: seq<Row>, start: int, mark: int)
    requires DumpOk(rows, delivered, start, mark) && Window(rows, start, mark) == {} && start <= mark
    ensures IsDump(rows, delivered, mark)
  {
    assert forall k :: k in rows && start < rows[k].seqno <= mark ==> k in Window(rows, start, mark);
  }

  lemma DumpOkLater(was: Db, now: Db, delivered: seq<Row>, start: int, mark: int)
    requires DumpOk(was.rows, delivered, start, mark) && Later(was, now) && start <= mark <= High(was)
    ensures DumpOk(now.rows, delivered, start, mark)
  {
  }

  /** No configuration is delivered twice. */
  lemma DeliveredOnce(rows: Table, delivered: seq<Row>, start: int, mark: int, page: seq<Row>, i: nat, j: nat)
    requires Keyed(rows) && DumpOk(rows, delivered, start, mark) && start <= mark
    requires page == Page(rows, start, mark, MAX_ROW_PER_QUERY) && i < |delivered| && j < |page|
    ensures KeyOf(delivered[i].cfg) != KeyOf(page[j].cfg)
  {
    PageIsComplete(rows, start, mark, MAX_ROW_PER_QUERY);
  }

  lemma DumpOkExtends(rows: Table, delivered: seq<Row>, start: int, mark: int)
    requires Keyed(rows) && DumpOk(rows, delivered, start, mark) && 0 <= start <= mark
    ensures var page := Page(rows, start, mark, MAX_ROW_PER_QUERY);
      DumpOk(rows, delivered + page, After(start, page), mark) && start <= After(start, page) <= mark
  {
    var page := Page(rows, start, mark, MAX_ROW_PER_QUERY);
    PageIsComplete(rows, start, mark, MAX_ROW_PER_QUERY);
    AllCurrent(rows, delivered, start, mark);
    AllDistinct(rows, delivered, start, mark);
    NoneMissed(rows, delivered, start, mark);
  }

  lemma AllDistinct(rows: Table, delivered: seq<Row>, start: int, mark: int)
    requires Keyed(rows) && DumpOk(rows, delivered, start, mark) && start <= mark
    ensures var all := delivered + Page(rows, start, mark, MAX_ROW_PER_QUERY);
      forall i, j :: 0 <= i < j < |all| ==> KeyOf(all[i].cfg) != KeyOf(all[j].cfg)
  {
    var page := Page(rows, start, mark, MAX_ROW_PER_QUERY);
    PageIsComplete(rows, start, mark, MAX_ROW_PER_QUERY);
    var all := delivered + page;
    forall i, j | 0 <= i < j < |all| ensures KeyOf(all[i].cfg) != KeyOf(all[j].cfg) {
      if i < |delivered| <= j {
        DeliveredOnce(rows, delivered, start, mark, page, i, j - |delivered|);
      }
    }
  }

  lemma AscendingConcat(a: seq<Row>, b: seq<Row>, middle: int)
    requires Ascending(a) && Ascending(b)
    requires forall i :: 0 <= i < |a| ==> a[i].seqno <= middle
    requires forall i :: 0 <= i < |b| ==> middle < b[i].seqno
    ensures Ascending(a + b)
  {
  }

  lemma PageAscends(rows: Table, start: int, mark: int)
    requires Keyed(rows) && 0 <= start <= mark
    ensures var page := Page(rows, start, mark, MAX_ROW_PER_QUERY);
      && start <= After(start, page) <= mark && Ascending(page)
      && (forall i :: 0 <= i < |page| ==> start < page[i].seqno && IsCurrent(rows, page[i], After(start, page), mark))
  {
    PageIsCurrent(rows, start, mark, MAX_ROW_PER_QUERY);
  }

  lemma AllCurrent(rows: Table, delivered: seq<Row>, start: int, mark: int)
    requires Keyed(rows) && DumpOk(rows, delivered, start, mark) && 0 <= start <= mark
    ensures var page := Page(rows, start, mark, MAX_ROW_PER_QUERY);
      var all := delivered + page;
      && Ascending(all) && start <= After(start, page) <= mark
      && forall i :: 0 <= i < |all| ==> IsCurrent(rows, all[i], After(start, page), mark)
  {
    var page := Page(rows, start, mark, MAX_ROW_PER_QUERY);
    PageAscends(rows, start, mark);
    AscendingConcat(delivered, page, start);
    assert forall i :: 0 <= i < |delivered| ==> IsCurrent(rows, delivered[i], start, mark);
  }

  lemma NoneMissed(rows: Table, delivered: seq<Row>, start: int, mark: int)
    requires Keyed(rows) && DumpOk(rows, delivered, start, mark)
    ensures var page := Page(rows, start, mark, MAX_ROW_PER_QUERY);
      forall k :: k in rows && rows[k].seqno <= After(start, page) ==> rows[k] in delivered + page
  {
    PageIsComplete(rows, start, mark, MAX_ROW_PER_QUERY);
  }

  /** A dump under way that began at the table first. */
  ghost predicate Dumps(first: Db, now: Db, delivered: seq<Row>, start: int, mark: int) {
    && Later(first, now) && 0 <= start <= mark <= High(first)
    && DumpOk(now.rows, delivered, start, mark) && AllFrom(first.rows, delivered)
  }

  lemma DumpsFromStart(first: Db, mark: int)
    requires TableInv(first) && 0 <= mark <= High(first)
    ensures Dumps(first, first, [], 0, mark)
  {
  }

  /** When nothing is left it has delivered every row that still stands. */
  lemma DumpsAll(first: Db, now: Db, delivered: seq<Row>, start: int, mark: int)
    requires Dumps(first, now, delivered, start, mark) && Window(now.rows, start, mark) == {} && IsMax(first.rows, mark)
    ensures IsDump(now.rows, delivered, mark)
    ensures forall k :: k in first.rows && k in now.rows && now.rows[k] == first.rows[k] ==> now.rows[k] in delivered
  {
    NothingLeft(now.rows, delivered, start, mark);
  }

  /** It stands while writers commit, and the rows left to deliver do not grow. */
  lemma DumpsLater(first: Db, was: Db, now: Db, delivered: seq<Row>, start: int, mark: int)
    requires Dumps(first, was, delivered, start, mark) && Later(was, now)
    ensures Dumps(first, now, delivered, start, mark)
    ensures |Window(now.rows, start, mark)| <= |Window(was.rows, start, mark)|
  {
    LaterTransitive(first, was, now);
    DumpOkLater(was, now, delivered, start, mark);
    WindowShrinks(was, now, start, mark);
  }

  /** One page more. */
  lemma DumpsOn(first: Db, now: Db, delivered: seq<Row>, start: int, mark: int)
    requires TableInv(now) && Dumps(first, now, delivered, start, mark)
    ensures var page := Page(now.rows, start, mark, MAX_ROW_PER_QUERY);
      && Dumps(first, now, delivered + page, After(start, page), mark) && start <= After(start, page)
      && if After(start, page) == start then Window(now.rows, start, mark) == {}
         else |Window(now.rows, After(start, page), mark)| < |Window(now.rows, start, mark)|
  {
    var page := Page(now.rows, start, mark, MAX_ROW_PER_QUERY);
    DumpOkExtends(now.rows, delivered, start, mark);
    PageIsFrom(first, now, start, mark, MAX_ROW_PER_QUERY);
    AllFromBoth(first.rows, delivered, page);
    PageMoves(now.rows, start, mark);
  }

  lemma AllFromBoth(rows: Table, a: seq<Row>, b: seq<Row>)
    requires AllFrom(rows, a) && AllFrom(rows, b)
    ensures AllFrom(rows, a + b)
  {
  }

  lemma PageMoves(rows: Table, start: int, mark: int)
    requires Keyed(rows)
    ensures var page := Page(rows, start, mark, MAX_ROW_PER_QUERY);
      if After(start, page) == start then Window(rows, start, mark) == {}
      else |Window(rows, After(start, page), mark)| < |Window(rows, start, mark)|
  {
    PageIsCurrent(rows, start, mark, MAX_ROW_PER_QUERY);
    if Page(rows, start, mark, MAX_ROW_PER_QUERY) != [] {
      WindowAdvances(rows, start, mark, MAX_ROW_PER_QUERY);
    }
  }

  /** The pump's side of the table: the database it reads, and the writers that go on meanwhile. */
  class DataPump {
    var db: Db
    var updateScanId: int

    constructor (db0: Db)
      requires TableInv(db0)
      ensures db == db0 && updateScanId == 0
    {
      db := db0;
      updateScanId := 0;
    }

    /** Any number of writer steps of any transactions. */
    method WritersRun()
      requires TableInv(db)
      modifies this`db
      ensures TableInv(db) && Later(old(db), db)
    {
      var n: nat :| 0 <= n;
      for i := 0 to n
        invariant TableInv(db) && Later(old(db), db)
      {
        var step: WriterStep := *;
        StepIsLater(db, step);
        LaterTransitive(old(db), db, Write(db, step));
        db := Write(db, step);
      }
    }

    method QueryMaxSequence() returns (m: int)
      requires TableInv(db)
      ensures 0 <= m <= High(db) && IsMax(db.rows, m)
    {
      m := 0;
      var todo := db.rows.Keys;
      while todo != {}
        invariant todo <= db.rows.Keys && 0 <= m <= High(db)
        invariant forall k :: k in db.rows && k !in todo ==> db.rows[k].seqno <= m
        invariant (todo == db.rows.Keys && m == 0) || exists k :: k in db.rows && db.rows[k].seqno == m
        decreases |todo|
      {
        var k :| k in todo;
        if m < db.rows[k].seqno {
          m := db.rows[k].seqno;
        }
        todo := todo - {k};
      }
    }

    /** One turn of the dump loop: writers commit, then one page is queried and delivered. */
    method DumpPage(ghost first: Db, delivered: seq<Row>, start: int, mark: int) returns (now: seq<Row>, next: int)
      requires TableInv(db) && Dumps(first, db, delivered, start, mark)
      modifies this`db
      ensures TableInv(db) && Dumps(first, db, now, next, mark) && start <= next
      ensures if next == start then Window(db.rows, start, mark) == {}
        else |Window(db.rows, next, mark)| < |Window(old(db).rows, start, mark)|
    {
      WritersRun();
      DumpsLater(first, old(db), db, delivered, start, mark);
      DumpsOn(first, db, delivered, start, mark);
      var page := Page(db.rows, start, mark, MAX_ROW_PER_QUERY);
      return delivered + page, After(start, page);
    }

    /** The dump loop. The mark is the maximum sequence at the start. Writers commit between all queries; the loop still
        ends, and delivers in sequence order rows of the table as it was at the start, each at most once, among them every
        one that still stands. */
    method TriggerDump() returns (delivered: seq<Row>, mark: int)
      requires TableInv(db)
      modifies this
      ensures TableInv(db) && Later(old(db), db) && updateScanId == mark && IsMax(old(db).rows, mark)
      ensures IsDump(db.rows, delivered, mark) && AllFrom(old(db).rows, delivered)
      ensures forall k :: k in old(db).rows && k in db.rows && db.rows[k] == old(db).rows[k] ==> db.rows[k] in delivered
    {
      mark := QueryMaxSequence();
      DumpsFromStart(db, mark);
      var start, before := 0, -1;
      delivered := [];
      while before < start
        invariant TableInv(db) && Dumps(old(db), db, delivered, start, mark) && before <= start
        invariant before == start ==> Window(db.rows, start, mark) == {}
        decreases before < start, |Window(db.rows, start, mark)|
      {
        before := start;
        delivered, start := DumpPage(old(db), delivered, start, mark);
      }
      DumpsAll(old(db), db, delivered, start, mark);
      updateScanId := mark;
    }

    /** One round of the scan loop: the next page after the cursor, pushed as events; then the cursor moves. */
    method ScanRound() returns (events: seq<ServerModel.Event>)
      requires TableInv(db)
      modifies this`updateScanId
      ensures var page := Page(db.rows, old(updateScanId), MAX_INT64, MAX_ROW_PER_QUERY);
        PagePushed(page, events) && updateScanId == After(old(updateScanId), page)
    {
      var page := Page(db.rows, updateScanId, MAX_INT64, MAX_ROW_PER_QUERY);
      events := PushEvents(page);
      if page != [] {
        updateScanId := page[|page| - 1].seqno;
      }
    }
  }

  /** The events of a page, row by row. */
  predicate PagePushed(page: seq<Row>, events: seq<ServerModel.Event>) {
    |events| == |page| && forall i :: 0 <= i < |page| ==> events[i] == RowEvent(page[i])
  }

  method PushEvents(page: seq<Row>) returns (events: seq<ServerModel.Event>)
    ensures PagePushed(page, events)
  {
    events := [];
    for i := 0 to |page|
      invariant PagePushed(page[..i], events)
    {
      events := events + [RowEvent(page[i])];
    }
  }

  /** The event a fetched row becomes: created when its status is valid, deleted otherwise. */
  function RowEvent(row: Row): ServerModel.Event {
    ServerModel.Event(row.cfg, !row.deleted, false, row.deleted)
  }
}
