/**
 The whole path of a configuration: writer transactions, dump pages, scan pages, and the server applying what was
 fetched, in any interleaving. The server's cache agrees with every row it has caught up with.
 */
module Delivery {
  import opened ConfigTable
  import opened Pump
  import opened ServerHistory
  import S = ServerModel

  datatype Phase = Idle | Dumping | Scanning

  /** A fetched row on its way to the server; dumped rows are saved whatever their status. */
  datatype Fetched = Fetched(row: Row, dumped: bool)

  /** cursor: last sequence fetched. queue: fetched, not yet applied. applied: last sequence applied. */
  datatype System = System(db: Db, phase: Phase, mark: int, cursor: int, queue: seq<Fetched>, applied: int, srv: S.State)

  const BATCH_LIMIT: nat := 50

  // ----- slots and row keys

  function SlotOfKey(k: RowKey): S.Slot {
    S.Slot(S.StoreId(k.sel, k.opt), S.CfgKey(k.group, k.key))
  }

  lemma SlotsDiffer(a: RowKey, b: RowKey)
    requires PipeFree(a.group) && PipeFree(b.group)
    ensures SlotOfKey(a) == SlotOfKey(b) <==> a == b
  {
    CfgKeyInjective(a.group, a.key, b.group, b.key);
  }

  // ----- the cache as the events change it

  type Cache = map<S.Slot, S.Configuration>

  /** The effect of one fetched row on the cache. */
  function Put(data: Cache, f: Fetched): Cache {
    var slot := SlotOfKey(KeyOf(f.row.cfg));
    if f.dumped || !f.row.deleted then data[slot := f.row.cfg] else data - {slot}
  }

  function PutAll(data: Cache, fs: seq<Fetched>): Cache
    decreases |fs|
  {
    if fs == [] then data else PutAll(Put(data, fs[0]), fs[1..])
  }

  function Events(fs: seq<Fetched>): (evs: seq<S.Event>)
    ensures |evs| == |fs| && forall i :: 0 <= i < |fs| ==> evs[i] == RowEvent(fs[i].row)
  {
    seq(|fs|, i requires 0 <= i < |fs| => RowEvent(fs[i].row))
  }

  lemma {:induction false} BatchPutsAll(s: S.State, fs: seq<Fetched>)
    requires forall i :: 0 <= i < |fs| ==> !fs[i].dumped
    ensures S.ApplyEvents(s, Events(fs)).data == PutAll(s.data, fs)
    decreases |fs|
  {
    if fs != [] {
      assert Events(fs)[1..] == Events(fs[1..]);
      BatchPutsAll(S.ApplyEvent(s, RowEvent(fs[0].row)), fs[1..]);
    }
  }

  // ----- steps

  datatype Step = WriterStep(w: ConfigTable.WriterStep)   // one step of one writer transaction
                | StartDump(max: int)                      // the maximum sequence is read
                | FetchDump                                // one dump page, or the end of the dump
                | FetchScan                                // one scan page
                | TakeDumped                               // the server saves one dumped row
                | TakeBatch(n: nat)                        // the server applies up to fifty scanned rows
                | ServeStep(s: S.Step)                     // a request arrives, waits, is cancelled, reads

  predicate Enabled(y: System, step: Step) {
    match step
    case WriterStep(w) => w.BeginStep? ==> PipeFree(w.cfg.group)
    case StartDump(max) => y.phase == Idle && IsMax(y.db.rows, max)
    case FetchDump => y.phase == Dumping && Keyed(y.db.rows)
    case FetchScan => y.phase == Scanning && Keyed(y.db.rows)
    case TakeDumped => y.queue != [] && y.queue[0].dumped
    case TakeBatch(n) => n <= |y.queue| && n <= BATCH_LIMIT && forall i :: 0 <= i < n ==> !y.queue[i].dumped
    case ServeStep(s) => !s.BatchStep?
  }

  function Tag(page: seq<Row>, dumped: bool): (fs: seq<Fetched>)
    ensures |fs| == |page| && forall i :: 0 <= i < |page| ==> fs[i] == Fetched(page[i], dumped)
  {
    seq(|page|, i requires 0 <= i < |page| => Fetched(page[i], dumped))
  }

  function Do(y: System, step: Step): System
    requires Enabled(y, step)
  {
    match step
    case WriterStep(w) => y.(db := Write(y.db, w))
    case StartDump(max) => y.(phase := Dumping, mark := max)
    case FetchDump =>
      var page := Page(y.db.rows, y.cursor, y.mark, MAX_ROW_PER_QUERY);
      if page == [] then y.(phase := Scanning, cursor := y.mark)
      else y.(cursor := After(y.cursor, page), queue := y.queue + Tag(page, true))
    case FetchScan =>
      var page := Page(y.db.rows, y.cursor, MAX_INT64, MAX_ROW_PER_QUERY);
      y.(cursor := After(y.cursor, page), queue := y.queue + Tag(page, false))
    case TakeDumped =>
      y.(queue := y.queue[1..], applied := y.queue[0].row.seqno, srv := S.Save(y.srv, y.queue[0].row.cfg))
    case TakeBatch(n) =>
      y.(queue := y.queue[n..], applied := Done(y.queue, y.applied, n),
         srv := S.Batch(y.srv, Events(y.queue[..n])))
    case ServeStep(s) => y.(srv := S.Do(y.srv, s))
  }

  // ----- the invariant

  /** What the cache must hold for a row it has caught up with: a row deleted after the dump mark is gone, every
      other row is there, including one that was already deleted when the dump read it. */
  predicate Agrees(data: Cache, row: Row, mark: int) {
    var slot := SlotOfKey(KeyOf(row.cfg));
    if row.deleted && row.seqno > mark then slot !in data else slot in data && data[slot] == row.cfg
  }

  predicate QueueOk(rows: Table, mark: int, cursor: int, queue: seq<Fetched>, applied: int) {
    && (forall i, j :: 0 <= i < j < |queue| ==> queue[i].row.seqno < queue[j].row.seqno)
    && (forall i :: 0 <= i < |queue| ==>
          && applied < queue[i].row.seqno <= cursor
          && (queue[i].dumped <==> queue[i].row.seqno <= mark)
          && KeyOf(queue[i].row.cfg) in rows
          && (rows[KeyOf(queue[i].row.cfg)] == queue[i].row || rows[KeyOf(queue[i].row.cfg)].seqno > queue[i].row.seqno))
  }

  predicate Queued(queue: seq<Fetched>, row: Row) {
    exists i :: 0 <= i < |queue| && queue[i].row == row
  }

  predicate CacheOk(rows: Table, mark: int, applied: int, data: Cache) {
    && (forall k :: k in rows && rows[k].seqno <= applied ==> Agrees(data, rows[k], mark))
    && (forall sl :: sl in data ==> KeyOf(data[sl]) in rows && SlotOfKey(KeyOf(data[sl])) == sl)
  }

  predicate NothingSkipped(rows: Table, cursor: int, queue: seq<Fetched>, applied: int) {
    forall k :: k in rows && applied < rows[k].seqno <= cursor ==> Queued(queue, rows[k])
  }

  predicate GroupsOk(db: Db) {
    && (forall k :: k in db.rows ==> PipeFree(k.group))
    && (forall t :: t in db.txs ==> PipeFree(db.txs[t].key.group))
  }

  predicate Consistent(y: System) {
    && QueueOk(y.db.rows, y.mark, y.cursor, y.queue, y.applied)
    && NothingSkipped(y.db.rows, y.cursor, y.queue, y.applied)
    && CacheOk(y.db.rows, y.mark, y.applied, y.srv.data)
  }

  predicate SysInv(y: System) {
    && TableInv(y.db) && GroupsOk(y.db) && Consistent(y)
    && 0 <= y.applied <= y.cursor <= High(y.db) && 0 <= y.mark <= High(y.db)
    && (y.phase == Idle ==> y.cursor == 0)
    && (y.phase == Dumping ==> y.cursor <= y.mark)
    && (y.phase == Scanning ==> y.mark <= y.cursor)
  }

  const START := System(EMPTY, Idle, 0, 0, [], 0, S.INIT)

  // ----- writers

  lemma RowSlot(db: Db, k: RowKey)
    requires TableInv(db) && k in db.rows
    ensures SlotOfKey(KeyOf(db.rows[k].cfg)) == SlotOfKey(k)
  {
  }

  /** A commit moves one row beyond everything fetched, so nothing the pump or the cache relies on changes. */
  lemma CommitKeepsConsistent(y: System, db: Db)
    requires SysInv(y) && Later(y.db, db)
    ensures Consistent(y.(db := db))
  {
  }

  lemma WriterKeepsInv(y: System, w: ConfigTable.WriterStep)
    requires SysInv(y) && Enabled(y, WriterStep(w))
    ensures SysInv(Do(y, WriterStep(w)))
  {
    StepIsLater(y.db, w);
    CommitKeepsConsistent(y, Write(y.db, w));
    GroupsStayOk(y.db, w);
  }

  lemma GroupsStayOk(db: Db, w: ConfigTable.WriterStep)
    requires TableInv(db) && GroupsOk(db) && (w.BeginStep? ==> PipeFree(w.cfg.group))
    ensures GroupsOk(Write(db, w))
  {
  }

  // ----- fetching

  /** A fetched page: current rows beyond the cursor, in order, none skipped. */
  ghost predicate IsPage(y: System, page: seq<Row>, dumped: bool) {
    && page != [] && Ascending(page)
    && (forall i :: 0 <= i < |page| ==>
          y.cursor < page[i].seqno && KeyOf(page[i].cfg) in y.db.rows && y.db.rows[KeyOf(page[i].cfg)] == page[i]
          && (dumped <==> page[i].seqno <= y.mark))
    && (forall k :: k in y.db.rows && y.cursor < y.db.rows[k].seqno <= After(y.cursor, page) ==> y.db.rows[k] in page)
  }

  lemma FetchKeepsConsistent(y: System, page: seq<Row>, dumped: bool)
    requires Consistent(y) && y.applied <= y.cursor && IsPage(y, page, dumped)
    ensures Consistent(y.(cursor := After(y.cursor, page), queue := y.queue + Tag(page, dumped)))
    ensures y.cursor <= After(y.cursor, page)
  {
    FetchSkipsNothing(y.db.rows, y.cursor, y.queue, y.applied, page, dumped);
    FetchKeepsQueue(y, page, dumped);
    assert y.cursor < page[|page| - 1].seqno;
  }

  lemma FetchSkipsNothing(rows: Table, cursor: int, queue: seq<Fetched>, applied: int, page: seq<Row>, dumped: bool)
    requires NothingSkipped(rows, cursor, queue, applied)
    requires forall k :: k in rows && cursor < rows[k].seqno <= After(cursor, page) ==> rows[k] in page
    ensures NothingSkipped(rows, After(cursor, page), queue + Tag(page, dumped), applied)
  {
    var more := queue + Tag(page, dumped);
    forall k | k in rows && applied < rows[k].seqno <= After(cursor, page) ensures Queued(more, rows[k]) {
      if rows[k].seqno <= cursor {
        var i :| 0 <= i < |queue| && queue[i].row == rows[k];
        assert more[i].row == rows[k];
      } else {
        var i :| 0 <= i < |page| && page[i] == rows[k];
        assert more[|queue| + i].row == rows[k];
      }
    }
  }

  lemma FetchKeepsQueue(y: System, page: seq<Row>, dumped: bool)
    requires QueueOk(y.db.rows, y.mark, y.cursor, y.queue, y.applied) && y.applied <= y.cursor && IsPage(y, page, dumped)
    ensures QueueOk(y.db.rows, y.mark, After(y.cursor, page), y.queue + Tag(page, dumped), y.applied)
  {
    assert y.cursor < After(y.cursor, page);
    assert forall i :: 0 <= i < |page| ==> page[i].seqno <= After(y.cursor, page);
  }

  lemma FetchKeepsInv(y: System, page: seq<Row>, dumped: bool)
    requires SysInv(y) && y.phase != Idle && IsPage(y, page, dumped) && After(y.cursor, page) <= High(y.db)
    requires if dumped then y.phase == Dumping && After(y.cursor, page) <= y.mark else y.phase == Scanning
    ensures SysInv(y.(cursor := After(y.cursor, page), queue := y.queue + Tag(page, dumped)))
  {
    FetchKeepsConsistent(y, page, dumped);
  }

  lemma DumpPageIs(y: System)
    requires Keyed(y.db.rows) && Page(y.db.rows, y.cursor, y.mark, MAX_ROW_PER_QUERY) != []
    ensures var page := Page(y.db.rows, y.cursor, y.mark, MAX_ROW_PER_QUERY);
      IsPage(y, page, true) && After(y.cursor, page) <= y.mark
  {
    PageIsComplete(y.db.rows, y.cursor, y.mark, MAX_ROW_PER_QUERY);
  }

  lemma ScanPageIs(y: System, high: int)
    requires Keyed(y.db.rows) && y.mark <= y.cursor && Page(y.db.rows, y.cursor, MAX_INT64, MAX_ROW_PER_QUERY) != []
    requires forall k :: k in y.db.rows ==> y.db.rows[k].seqno <= high
    ensures var page := Page(y.db.rows, y.cursor, MAX_INT64, MAX_ROW_PER_QUERY);
      IsPage(y, page, false) && After(y.cursor, page) <= high
  {
    PageIsComplete(y.db.rows, y.cursor, MAX_INT64, MAX_ROW_PER_QUERY);
  }

  /** The end of the dump: nothing is left between the cursor and the mark. */
  lemma DumpEndKeepsInv(y: System)
    requires SysInv(y) && y.phase == Dumping && Window(y.db.rows, y.cursor, y.mark) == {}
    ensures SysInv(y.(phase := Scanning, cursor := y.mark))
  {
    assert forall k :: k in y.db.rows && y.cursor < y.db.rows[k].seqno <= y.mark ==>
      k in Window(y.db.rows, y.cursor, y.mark);
  }

  lemma DumpPageKeepsInv(y: System)
    requires SysInv(y) && Enabled(y, FetchDump)
    ensures SysInv(Do(y, FetchDump))
  {
    var page := Page(y.db.rows, y.cursor, y.mark, MAX_ROW_PER_QUERY);
    if page == [] {
      PageIsCurrent(y.db.rows, y.cursor, y.mark, MAX_ROW_PER_QUERY);
      DumpEndKeepsInv(y);
    } else {
      DumpPageIs(y);
      FetchKeepsInv(y, page, true);
    }
  }

  lemma ScanPageKeepsInv(y: System)
    requires SysInv(y) && Enabled(y, FetchScan)
    ensures SysInv(Do(y, FetchScan))
  {
    var page := Page(y.db.rows, y.cursor, MAX_INT64, MAX_ROW_PER_QUERY);
    if page == [] {
      assert y.queue + Tag(page, false) == y.queue;
    } else {
      ScanPageIs(y, High(y.db));
      FetchKeepsInv(y, page, false);
    }
  }

  // ----- applying

  lemma PutKeepsCache(rows: Table, mark: int, cursor: int, queue: seq<Fetched>, applied: int, data: Cache)
    requires queue != [] && QueueOk(rows, mark, cursor, queue, applied) && CacheOk(rows, mark, applied, data)
    requires NothingSkipped(rows, cursor, queue, applied)
    requires forall k :: k in rows ==> PipeFree(k.group) && KeyOf(rows[k].cfg) == k
    ensures CacheOk(rows, mark, queue[0].row.seqno, Put(data, queue[0]))
  {
    var f := queue[0];
    var now := Put(data, f);
    forall k | k in rows && rows[k].seqno <= f.row.seqno ensures Agrees(now, rows[k], mark) {
      SlotsDiffer(k, KeyOf(f.row.cfg));
      if rows[k].seqno > applied {
        var i :| 0 <= i < |queue| && queue[i].row == rows[k];
        assert i == 0;
      }
    }
  }

  lemma PopKeepsQueue(rows: Table, mark: int, cursor: int, queue: seq<Fetched>, applied: int)
    requires queue != [] && QueueOk(rows, mark, cursor, queue, applied) && NothingSkipped(rows, cursor, queue, applied)
    ensures QueueOk(rows, mark, cursor, queue[1..], queue[0].row.seqno)
    ensures NothingSkipped(rows, cursor, queue[1..], queue[0].row.seqno)
  {
    forall k | k in rows && queue[0].row.seqno < rows[k].seqno <= cursor ensures Queued(queue[1..], rows[k]) {
      var i :| 0 <= i < |queue| && queue[i].row == rows[k];
      assert queue[1..][i - 1].row == rows[k];
    }
  }

  predicate InStep(rows: Table, mark: int, cursor: int, queue: seq<Fetched>, applied: int, data: Cache) {
    && (forall k :: k in rows ==> PipeFree(k.group) && KeyOf(rows[k].cfg) == k)
    && QueueOk(rows, mark, cursor, queue, applied)
    && NothingSkipped(rows, cursor, queue, applied)
    && CacheOk(rows, mark, applied, data)
  }

  lemma PopKeepsInStep(rows: Table, mark: int, cursor: int, queue: seq<Fetched>, applied: int, data: Cache)
    requires queue != [] && InStep(rows, mark, cursor, queue, applied, data)
    ensures InStep(rows, mark, cursor, queue[1..], queue[0].row.seqno, Put(data, queue[0]))
    ensures applied < queue[0].row.seqno <= cursor
  {
    PutKeepsCache(rows, mark, cursor, queue, applied, data);
    PopKeepsQueue(rows, mark, cursor, queue, applied);
  }

  function Done(queue: seq<Fetched>, applied: int, n: nat): int
    requires n <= |queue|
  {
    if n == 0 then applied else queue[n - 1].row.seqno
  }

  /** What applying fetched rows works on. */
  datatype Replay = Replay(queue: seq<Fetched>, applied: int, data: Cache)

  function Pop(r: Replay): Replay
    requires r.queue != []
  {
    Replay(r.queue[1..], r.queue[0].row.seqno, Put(r.data, r.queue[0]))
  }

  function Popped(r: Replay, n: nat): Replay
    requires n <= |r.queue|
  {
    Replay(r.queue[n..], Done(r.queue, r.applied, n), PutAll(r.data, r.queue[..n]))
  }

  lemma PopThenMore(r: Replay, n: nat)
    requires 0 < n <= |r.queue|
    ensures Popped(Pop(r), n - 1) == Popped(r, n)
  {
    assert r.queue[1..][n - 1..] == r.queue[n..];
    assert r.queue[1..][..n - 1] == r.queue[..n][1..];
  }

  /** What every single row keeps, the first n fetched rows keep. */
  lemma {:induction false} PopsKeep(inv: Replay -> bool, r: Replay, n: nat)
    requires n <= |r.queue| && inv(r)
    requires forall s: Replay {:trigger Pop(s)} :: s.queue != [] && inv(s) ==> inv(Pop(s))
    ensures inv(Popped(r, n))
    decreases n
  {
    if n == 0 {
      assert r.queue[0..] == r.queue && r.queue[..0] == [];
    } else {
      PopsKeep(inv, Pop(r), n - 1);
      PopThenMore(r, n);
    }
  }

  /** Applying the first n fetched rows, one after the other. */
  lemma PopsKeepInStep(rows: Table, mark: int, cursor: int, queue: seq<Fetched>, applied: int, data: Cache, n: nat)
    requires n <= |queue| && InStep(rows, mark, cursor, queue, applied, data) && applied <= cursor
    ensures InStep(rows, mark, cursor, queue[n..], Done(queue, applied, n), PutAll(data, queue[..n]))
    ensures applied <= Done(queue, applied, n) <= cursor
  {
    var inv := (r: Replay) => InStep(rows, mark, cursor, r.queue, r.applied, r.data) && applied <= r.applied <= cursor;
    forall s: Replay | s.queue != [] && inv(s) ensures inv(Pop(s)) {
      PopKeepsInStep(rows, mark, cursor, s.queue, s.applied, s.data);
    }
    PopsKeep(inv, Replay(queue, applied, data), n);
  }

  lemma TakeDumpedKeepsInv(y: System)
    requires SysInv(y) && Enabled(y, TakeDumped)
    ensures SysInv(Do(y, TakeDumped))
  {
    PopKeepsInStep(y.db.rows, y.mark, y.cursor, y.queue, y.applied, y.srv.data);
  }

  lemma TakeBatchKeepsInv(y: System, n: nat)
    requires SysInv(y) && Enabled(y, TakeBatch(n))
    ensures SysInv(Do(y, TakeBatch(n)))
  {
    PopsKeepInStep(y.db.rows, y.mark, y.cursor, y.queue, y.applied, y.srv.data, n);
    BatchPutsAll(y.srv, y.queue[..n]);
  }

  // ----- the theorems

  /** Every step of writers, pump and server keeps the agreement of cache and table. */
  lemma StepKeepsInv(y: System, step: Step)
    requires SysInv(y) && Enabled(y, step)
    ensures SysInv(Do(y, step))
  {
    match step
    case WriterStep(w) => WriterKeepsInv(y, w);
    case StartDump(max) =>
    case FetchDump => DumpPageKeepsInv(y);
    case FetchScan => ScanPageKeepsInv(y);
    case TakeDumped => TakeDumpedKeepsInv(y);
    case TakeBatch(n) => TakeBatchKeepsInv(y, n);
    case ServeStep(s) => ServingKeepsData(y.srv, s);
  }

  lemma ServingKeepsData(s: S.State, step: S.Step)
    requires !step.BatchStep?
    ensures S.Do(s, step).data == s.data
  {
    match step
    case ArriveStep(req) => AnswerKeepsData(s, req, S.Check(s, req));
    case WaitStep(rid) => WaitKeepsData(s, rid);
    case CancelStep(_) =>
    case ReceiveStep(_) =>
  }

  lemma AnswerKeepsData(s: S.State, req: S.Request, answer: S.Answer)
    ensures S.ArriveWith(s, req, answer).data == s.data
  {
  }

  lemma WaitKeepsData(s: S.State, rid: S.ReqId)
    ensures S.Wait(s, rid).data == s.data
  {
  }

  /** y is reachable by the given steps, each enabled when it is taken. */
  predicate Follows(y: System, steps: seq<Step>)
    decreases |steps|
  {
    steps == [] || (Enabled(y, steps[0]) && Follows(Do(y, steps[0]), steps[1..]))
  }

  function Run(y: System, steps: seq<Step>): System
    requires Follows(y, steps)
    decreases |steps|
  {
    if steps == [] then y else Run(Do(y, steps[0]), steps[1..])
  }

  lemma {:induction false} RunKeepsInv(y: System, steps: seq<Step>)
    requires SysInv(y) && Follows(y, steps)
    ensures SysInv(Run(y, steps))
    decreases |steps|
  {
    if steps != [] {
      StepKeepsInv(y, steps[0]);
      RunKeepsInv(Do(y, steps[0]), steps[1..]);
    }
  }

  /** For every interleaving: each row at or below the last applied sequence has an agreeing cache entry. */
  lemma CacheAgreesWithTable(steps: seq<Step>, k: RowKey)
    requires Follows(START, steps)
    requires var y := Run(START, steps); k in y.db.rows && y.db.rows[k].seqno <= y.applied
    ensures var y := Run(START, steps);
      var slot := SlotOfKey(k);
      if y.db.rows[k].deleted && y.db.rows[k].seqno > y.mark then slot !in y.srv.data
      else slot in y.srv.data && y.srv.data[slot] == y.db.rows[k].cfg
  {
    RunKeepsInv(START, steps);
    RowSlot(Run(START, steps).db, k);
  }

  /** The rows that must be cached once all is applied: the live ones, and those the dump already found deleted. */
  function Cached(rows: Table, mark: int): set<RowKey> {
    set k | k in rows && (!rows[k].deleted || rows[k].seqno <= mark)
  }

  /** Once a scan finds nothing new and nothing is in flight, the cache is exactly those rows. */
  lemma Converged(steps: seq<Step>)
    requires Follows(START, steps)
    requires CaughtUp(Run(START, steps))
    ensures var y := Run(START, steps);
      && (forall k :: k in Cached(y.db.rows, y.mark) ==>
            SlotOfKey(k) in y.srv.data && y.srv.data[SlotOfKey(k)] == y.db.rows[k].cfg)
      && (forall sl :: sl in y.srv.data ==> exists k :: k in Cached(y.db.rows, y.mark) && SlotOfKey(k) == sl)
  {
    RunKeepsInv(START, steps);
    var y := Run(START, steps);
    forall k | k in y.db.rows ensures y.db.rows[k].seqno <= y.applied {
      assert k !in Window(y.db.rows, y.cursor, MAX_INT64);
    }
    forall k | k in y.db.rows ensures Agrees(y.srv.data, y.db.rows[k], y.mark) && KeyOf(y.db.rows[k].cfg) == k {
    }
    forall sl | sl in y.srv.data ensures exists k :: k in Cached(y.db.rows, y.mark) && SlotOfKey(k) == sl {
      assert KeyOf(y.srv.data[sl]) in Cached(y.db.rows, y.mark);
    }
  }

  // ----- a row already deleted at the dump

  /** A row is saved and deleted. */
  lemma SavedAndDeleted(cfg: S.Configuration) returns (dbs: seq<Db>)
    ensures |dbs| == 5 && dbs[0] == EMPTY && dbs[1] == Write(dbs[0], BeginStep(0, cfg))
    ensures dbs[2] == Write(dbs[1], TryStep(0)) && dbs[3] == Write(dbs[2], CommitStep(0))
    ensures dbs[4] == Write(dbs[3], DeleteStep(KeyOf(cfg))) && dbs[4].rows == map[KeyOf(cfg) := Row(17, true, cfg)]
  {
    var k := KeyOf(cfg);
    var begun := Write(EMPTY, BeginStep(0, cfg));
    assert begun.txs == map[0 := Tx(k, cfg, true, 0)];
    var tried := Write(begun, TryStep(0));
    assert tried.txs[0] == Tx(k, cfg, true, 1) && tried.counter == 1;
    var committed := Write(tried, CommitStep(0));
    assert committed.rows == map[k := Row(1, false, cfg)] && committed.holder.None?;
    dbs := [EMPTY, begun, tried, committed, Write(committed, DeleteStep(k))];
  }

  lemma PageOfOne(rows: Table, k: RowKey)
    requires rows.Keys == {k} && 0 < rows[k].seqno && KeyOf(rows[k].cfg) == k
    ensures Page(rows, 0, rows[k].seqno, MAX_ROW_PER_QUERY) == [rows[k]]
  {
    var hi := rows[k].seqno;
    assert Window(rows, 0, hi) == {k} && Least(rows, {k}) == k;
    assert Window(rows, hi, hi) == {};
  }

  /** A run listed with its states. */
  predicate Passes(states: seq<System>, steps: seq<Step>) {
    |states| == |steps| + 1
    && forall i :: 0 <= i < |steps| ==> Enabled(states[i], steps[i]) && states[i + 1] == Do(states[i], steps[i])
  }

  lemma {:induction false} PassesIsRun(states: seq<System>, steps: seq<Step>)
    requires Passes(states, steps)
    ensures Follows(states[0], steps) && Run(states[0], steps) == states[|steps|]
    decreases |steps|
  {
    if steps != [] {
      PassesIsRun(states[1..], steps[1..]);
    }
  }

  /** The run: save, delete, dump, and the server takes what was dumped. */
  function DumpDeleted(cfg: S.Configuration): seq<Step> {
    [WriterStep(BeginStep(0, cfg)), WriterStep(TryStep(0)), WriterStep(CommitStep(0)), WriterStep(DeleteStep(KeyOf(cfg))),
     StartDump(17), FetchDump, TakeDumped]
  }

  lemma DumpOfOne(y: System, cfg: S.Configuration) returns (ys: seq<System>)
    requires y == START.(db := y.db) && y.db.rows == map[KeyOf(cfg) := Row(17, true, cfg)]
    ensures Passes(ys, [StartDump(17), FetchDump, TakeDumped]) && ys[0] == y
    ensures ys[3].db == y.db && ys[3].srv.data == map[SlotOfKey(KeyOf(cfg)) := cfg]
  {
    assert KeyOf(cfg) in y.db.rows;
    var y1 := Do(y, StartDump(17));
    PageOfOne(y.db.rows, KeyOf(cfg));
    var y2 := Do(y1, FetchDump);
    assert y2.queue == [Fetched(Row(17, true, cfg), true)];
    ys := [y, y1, y2, Do(y2, TakeDumped)];
  }

  /** Any configuration that was deleted before the dump started is in the cache all the same. */
  lemma DeletedAtDumpIsCached(cfg: S.Configuration)
    requires PipeFree(cfg.group)
    ensures Follows(START, DumpDeleted(cfg))
    ensures var y := Run(START, DumpDeleted(cfg));
      IsDeleted(y.db, KeyOf(cfg)) && y.srv.data == map[SlotOfKey(KeyOf(cfg)) := cfg]
  {
    var dbs := SavedAndDeleted(cfg);
    var ys := DumpOfOne(START.(db := dbs[4]), cfg);
    var states := [START, START.(db := dbs[1]), START.(db := dbs[2]), START.(db := dbs[3])] + ys;
    PassesTogether(cfg, dbs, ys, states);
    PassesIsRun(states, DumpDeleted(cfg));
  }

  lemma PassesTogether(cfg: S.Configuration, dbs: seq<Db>, ys: seq<System>, states: seq<System>)
    requires PipeFree(cfg.group) && |dbs| == 5 && dbs[0] == EMPTY && dbs[1] == Write(dbs[0], BeginStep(0, cfg))
    requires dbs[2] == Write(dbs[1], TryStep(0)) && dbs[3] == Write(dbs[2], CommitStep(0))
    requires dbs[4] == Write(dbs[3], DeleteStep(KeyOf(cfg)))
    requires Passes(ys, [StartDump(17), FetchDump, TakeDumped]) && ys[0] == START.(db := dbs[4])
    requires states == [START, START.(db := dbs[1]), START.(db := dbs[2]), START.(db := dbs[3])] + ys
    ensures Passes(states, DumpDeleted(cfg))
  {
    var steps := DumpDeleted(cfg);
    var last := [StartDump(17), FetchDump, TakeDumped];
    forall i | 0 <= i < |steps| ensures Enabled(states[i], steps[i]) && states[i + 1] == Do(states[i], steps[i]) {
      if i < 4 {
        assert states[i] == START.(db := dbs[i]) && states[i + 1] == START.(db := dbs[i + 1]);
      } else {
        assert steps[i] == last[i - 4] && states[i] == ys[i - 4] && states[i + 1] == ys[i - 3];
      }
    }
  }

  // ----- catching up

  predicate CaughtUp(y: System) {
    y.phase == Scanning && y.queue == [] && Window(y.db.rows, y.cursor, MAX_INT64) == {}
  }

  /** What is left to do: rows to be fetched count twice, fetched rows once, and so does the end of the dump. */
  function Work(y: System): nat {
    2 * |Window(y.db.rows, y.cursor, MAX_INT64)| + |y.queue| + if y.phase == Dumping then 1 else 0
  }

  /** Steps of pump and server that get on: a dump query, a scan query that finds rows, rows taken by the server. */
  predicate Productive(y: System, step: Step) {
    match step
    case FetchDump => true
    case FetchScan => Window(y.db.rows, y.cursor, MAX_INT64) != {}
    case TakeDumped => true
    case TakeBatch(n) => n > 0
    case _ => false
  }

  lemma WindowSubset(rows: Table, lo: int, hi: int, top: int)
    requires lo <= hi
    ensures |Window(rows, hi, top)| <= |Window(rows, lo, top)|
  {
    var a, b := Window(rows, hi, top), Window(rows, lo, top);
    assert b == a + (b - a);
    assert |b| == |a| + |b - a|;
  }

  lemma OneLess(rows: Table, lo: int, top: int, k: RowKey)
    requires k in Window(rows, lo, top)
    ensures |Window(rows, rows[k].seqno, top)| + 1 <= |Window(rows, lo, top)|
  {
    var a, b := Window(rows, rows[k].seqno, top), Window(rows, lo, top);
    assert b == a + (b - a) && k in b - a;
    assert |b| == |a| + |b - a|;
  }

  /** A page takes at least its length out of the rows left. */
  lemma {:induction false} PageTakes(rows: Table, lo: int, hi: int, n: nat, top: int)
    requires Keyed(rows) && hi <= top
    ensures |Window(rows, After(lo, Page(rows, lo, hi, n)), top)| + |Page(rows, lo, hi, n)| <= |Window(rows, lo, top)|
    decreases n
  {
    if n > 0 && Window(rows, lo, hi) != {} {
      var k := Least(rows, Window(rows, lo, hi));
      var rest := Page(rows, rows[k].seqno, hi, n - 1);
      PageTakes(rows, rows[k].seqno, hi, n - 1, top);
      OneLess(rows, lo, top, k);
      assert Page(rows, lo, hi, n) == [rows[k]] + rest;
      assert After(lo, Page(rows, lo, hi, n)) == After(rows[k].seqno, rest);
    }
  }

  lemma DumpLowersWork(y: System)
    requires SysInv(y) && Enabled(y, FetchDump)
    ensures Do(y, FetchDump).phase != Idle && Work(Do(y, FetchDump)) + 1 <= Work(y)
  {
    PageTakes(y.db.rows, y.cursor, y.mark, MAX_ROW_PER_QUERY, MAX_INT64);
    if Page(y.db.rows, y.cursor, y.mark, MAX_ROW_PER_QUERY) == [] {
      WindowSubset(y.db.rows, y.cursor, y.mark, MAX_INT64);
    }
  }

  lemma ScanLowersWork(y: System)
    requires SysInv(y) && Enabled(y, FetchScan)
    ensures Do(y, FetchScan).phase != Idle
    ensures Work(Do(y, FetchScan)) + (if Productive(y, FetchScan) then 1 else 0) <= Work(y)
  {
    PageIsCurrent(y.db.rows, y.cursor, MAX_INT64, MAX_ROW_PER_QUERY);
    PageTakes(y.db.rows, y.cursor, MAX_INT64, MAX_ROW_PER_QUERY, MAX_INT64);
  }

  /** Without writers every step leaves no more to do, and a productive one leaves less. */
  lemma StepLowersWork(y: System, step: Step)
    requires SysInv(y) && Enabled(y, step) && y.phase != Idle && !step.WriterStep?
    ensures Do(y, step).phase != Idle && Do(y, step).db == y.db
    ensures Work(Do(y, step)) + (if Productive(y, step) then 1 else 0) <= Work(y)
  {
    match step
    case FetchDump => DumpLowersWork(y);
    case FetchScan => ScanLowersWork(y);
    case TakeDumped =>
    case TakeBatch(n) =>
    case ServeStep(s) =>
    case StartDump(_) =>
  }

  /** How many steps of a schedule are productive. */
  function Progress(y: System, steps: seq<Step>): nat
    requires Follows(y, steps)
    decreases |steps|
  {
    if steps == [] then 0
    else (if Productive(y, steps[0]) then 1 else 0) + Progress(Do(y, steps[0]), steps[1..])
  }

  predicate NoWriters(steps: seq<Step>) {
    forall i :: 0 <= i < |steps| ==> !steps[i].WriterStep?
  }

  /** Left alone by the writers, every schedule of pump, server and requests catches up: none has more productive steps
      than there is work, and once one has had that many, cache and table agree completely. */
  lemma {:induction false} EveryScheduleCatchesUp(y: System, steps: seq<Step>)
    requires SysInv(y) && y.phase != Idle && Follows(y, steps) && NoWriters(steps)
    ensures Run(y, steps).db == y.db && Run(y, steps).phase != Idle && SysInv(Run(y, steps))
    ensures Progress(y, steps) + Work(Run(y, steps)) <= Work(y)
    ensures Progress(y, steps) == Work(y) ==> CaughtUp(Run(y, steps))
    decreases |steps|
  {
    if steps != [] {
      StepKeepsInv(y, steps[0]);
      StepLowersWork(y, steps[0]);
      EveryScheduleCatchesUp(Do(y, steps[0]), steps[1..]);
    }
    NoWorkIsCaughtUp(Run(y, steps));
  }

  lemma NoWorkIsCaughtUp(y: System)
    requires y.phase != Idle
    ensures Work(y) == 0 <==> CaughtUp(y)
  {
  }

  /** As long as it has not caught up, some productive step can be taken; so a schedule that never passes over such a
      step for good does catch up. */
  lemma ProductiveUntilCaughtUp(y: System) returns (step: Step)
    requires SysInv(y) && y.phase != Idle && !CaughtUp(y)
    ensures Enabled(y, step) && Productive(y, step) && !step.WriterStep?
  {
    if y.queue != [] {
      step := if y.queue[0].dumped then TakeDumped else TakeBatch(1);
    } else if y.phase == Dumping {
      step := FetchDump;
    } else {
      step := FetchScan;
    }
  }
}
