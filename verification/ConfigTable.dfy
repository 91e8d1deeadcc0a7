/**
 The configuration table and its writers (configure/cfgimpl/datawriter.go). Transactions interleave; each assigns
 its sequence number while it holds the advisory lock, which it keeps until it commits or rolls back.
 */
module ConfigTable {
  import opened Wrappers
  import ServerModel

  type Configuration = ServerModel.Configuration

  datatype RowKey = RowKey(sel: string, opt: string, group: string, key: string)

  datatype Row = Row(seqno: int, deleted: bool, cfg: Configuration)

  type TxId = nat

  /** An open save: inserted when it added the row itself (with sequence 0), seqno once it was assigned. */
  datatype Tx = Tx(key: RowKey, cfg: Configuration, inserted: bool, seqno: int)

  /** log lists the sequence numbers in commit order. */
  datatype Db = Db(rows: map<RowKey, Row>, counter: int, holder: Option<TxId>, txs: map<TxId, Tx>, log: seq<int>)

  const STEP_16 := 16

  const MAX_INT64 := 0x7fff_ffff_ffff_ffff

  const RETRY_LIMIT: nat := 10

  const EMPTY := Db(map[], 1 - STEP_16, None, map[], [])

  function KeyOf(cfg: Configuration): RowKey {
    RowKey(cfg.selectors, cfg.optionalSelectors, cfg.group, cfg.key)
  }

  /** The highest committed sequence number. */
  function High(db: Db): int {
    if db.log == [] then 0 else db.log[|db.log| - 1]
  }

  // ----- the steps of a save

  /** A second insert of the same key waits for the first transaction to finish. */
  predicate CanBegin(db: Db, t: TxId, cfg: Configuration) {
    t !in db.txs &&
    (KeyOf(cfg) in db.rows || forall u :: u in db.txs && db.txs[u].inserted ==> db.txs[u].key != KeyOf(cfg))
  }

  /** Look the row up and insert it with sequence 0 when it is missing; invisible to others until commit. */
  function Begin(db: Db, t: TxId, cfg: Configuration): Db
    requires CanBegin(db, t, cfg)
  {
    db.(txs := db.txs[t := Tx(KeyOf(cfg), cfg, KeyOf(cfg) !in db.rows, 0)])
  }

  predicate LockFree(db: Db, t: TxId) {
    db.holder == None || db.holder == Some(t)
  }

  /** One update attempt: it changes the row only when the advisory lock can be taken at once. */
  function TryUpdate(db: Db, t: TxId): Db
    requires t in db.txs
  {
    if LockFree(db, t) && db.counter + STEP_16 <= MAX_INT64 then
      var n := db.counter + STEP_16;
      db.(counter := n, holder := Some(t), txs := db.txs[t := db.txs[t].(seqno := n)])
    else db
  }

  predicate Updated(db: Db, t: TxId) {
    t in db.txs && db.txs[t].seqno > 0
  }

  function Release(db: Db, t: TxId): Db {
    db.(holder := if db.holder == Some(t) then None else db.holder, txs := db.txs - {t})
  }

  /** Commit makes the new version visible; an existing row keeps its status, deleted or not. */
  function Commit(db: Db, t: TxId): Db
    requires Updated(db, t)
  {
    var tx := db.txs[t];
    var was := tx.key in db.rows && db.rows[tx.key].deleted;
    Release(db, t).(rows := db.rows[tx.key := Row(tx.seqno, was, tx.cfg)], log := db.log + [tx.seqno])
  }

  // ----- delete: one statement, its own transaction

  predicate DeleteHits(db: Db, key: RowKey) {
    key in db.rows && db.holder == None && db.counter + STEP_16 <= MAX_INT64
  }

  function DeleteRow(db: Db, key: RowKey): Db {
    if DeleteHits(db, key) then
      var n := db.counter + STEP_16;
      db.(counter := n, rows := db.rows[key := db.rows[key].(seqno := n, deleted := true)], log := db.log + [n])
    else db
  }

  datatype WriterStep = BeginStep(t: TxId, cfg: Configuration) | TryStep(t: TxId) | CommitStep(t: TxId)
                      | RollbackStep(t: TxId) | DeleteStep(key: RowKey)

  function Write(db: Db, step: WriterStep): Db {
    match step
    case BeginStep(t, cfg) => if CanBegin(db, t, cfg) then Begin(db, t, cfg) else db
    case TryStep(t) => if t in db.txs then TryUpdate(db, t) else db
    case CommitStep(t) => if Updated(db, t) then Commit(db, t) else db
    case RollbackStep(t) => Release(db, t)
    case DeleteStep(key) => DeleteRow(db, key)
  }

  function Writes(db: Db, steps: seq<WriterStep>): Db
    decreases |steps|
  {
    if steps == [] then db else Writes(Write(db, steps[0]), steps[1..])
  }

  // ----- the invariant

  predicate Increasing(log: seq<int>) {
    forall i, j :: 0 <= i < j < |log| ==> log[i] < log[j]
  }

  predicate RowsOk(db: Db) {
    && (forall k :: k in db.rows ==> 0 < db.rows[k].seqno <= High(db) && KeyOf(db.rows[k].cfg) == k)
    && (forall k, j :: k in db.rows && j in db.rows && k != j ==> db.rows[k].seqno != db.rows[j].seqno)
  }

  predicate LogOk(db: Db) {
    Increasing(db.log) && 0 <= High(db) && 1 - STEP_16 <= db.counter <= MAX_INT64 && (db.log != [] ==> High(db) <= db.counter)
    && (forall i :: 0 <= i < |db.log| ==> 0 < db.log[i])
  }

  /** Only the lock holder has a number, and it is above all committed ones. */
  predicate NumbersOk(db: Db) {
    && (db.holder.Some? ==> db.holder.value in db.txs)
    && (forall t :: t in db.txs && db.txs[t].seqno != 0 ==>
          db.holder == Some(t) && High(db) < db.txs[t].seqno <= db.counter)
  }

  /** Open inserts add missing rows, each its own; the other transactions change rows that exist. */
  predicate InsertsOk(db: Db) {
    && (forall t :: t in db.txs ==> db.txs[t].key == KeyOf(db.txs[t].cfg))
    && (forall t :: t in db.txs && db.txs[t].inserted ==> db.txs[t].key !in db.rows)
    && (forall t, u :: t in db.txs && u in db.txs && t != u && db.txs[t].inserted && db.txs[u].inserted ==>
          db.txs[t].key != db.txs[u].key)
    && (forall t :: t in db.txs && !db.txs[t].inserted ==> db.txs[t].key in db.rows)
  }

  predicate TxsOk(db: Db) {
    NumbersOk(db) && InsertsOk(db)
  }

  predicate TableInv(db: Db) {
    RowsOk(db) && LogOk(db) && TxsOk(db)
  }

  lemma CommitKeepsLog(db: Db, t: TxId)
    requires LogOk(db) && NumbersOk(db) && Updated(db, t)
    ensures LogOk(Commit(db, t)) && NumbersOk(Commit(db, t)) && High(Commit(db, t)) == db.txs[t].seqno > High(db)
  {
  }

  lemma CommitKeepsRows(db: Db, t: TxId)
    requires RowsOk(db) && InsertsOk(db) && Updated(db, t) && High(Commit(db, t)) == db.txs[t].seqno > High(db) >= 0
    ensures RowsOk(Commit(db, t)) && InsertsOk(Commit(db, t))
  {
  }

  lemma CommitKeepsInv(db: Db, t: TxId)
    requires TableInv(db) && Updated(db, t)
    ensures TableInv(Commit(db, t)) && High(Commit(db, t)) == db.txs[t].seqno > High(db)
  {
    CommitKeepsLog(db, t);
    CommitKeepsRows(db, t);
  }

  /** What a commit leaves in its row. */
  lemma CommitWrites(db: Db, t: TxId)
    requires TableInv(db) && Updated(db, t)
    ensures var d := Commit(db, t);
      var key := KeyOf(db.txs[t].cfg);
      t !in d.txs && key in d.rows && d.rows[key].cfg == db.txs[t].cfg && d.rows[key].seqno == db.txs[t].seqno
  {
  }

  lemma DeleteKeepsInv(db: Db, key: RowKey)
    requires TableInv(db)
    ensures TableInv(DeleteRow(db, key))
  {
  }

  lemma BeginKeepsInv(db: Db, t: TxId, cfg: Configuration)
    requires TableInv(db) && CanBegin(db, t, cfg)
    ensures TableInv(Begin(db, t, cfg))
  {
    BeginKeepsTxs(db, t, cfg);
  }

  lemma BeginKeepsTxs(db: Db, t: TxId, cfg: Configuration)
    requires TxsOk(db) && CanBegin(db, t, cfg)
    ensures TxsOk(Begin(db, t, cfg))
  {
  }

  lemma TryKeepsInv(db: Db, t: TxId)
    requires TableInv(db) && t in db.txs
    ensures TableInv(TryUpdate(db, t))
  {
    TryKeepsNumbers(db, t);
    TryKeepsInserts(db, t);
  }

  lemma TryKeepsNumbers(db: Db, t: TxId)
    requires LogOk(db) && NumbersOk(db) && t in db.txs
    ensures NumbersOk(TryUpdate(db, t))
  {
  }

  lemma TryKeepsInserts(db: Db, t: TxId)
    requires InsertsOk(db) && t in db.txs
    ensures InsertsOk(TryUpdate(db, t))
  {
  }

  lemma RollbackKeepsInv(db: Db, t: TxId)
    requires TableInv(db)
    ensures TableInv(Release(db, t))
  {
  }

  /** Under any interleaving: committed sequence numbers are positive, distinct, and ordered by commit. */
  lemma WriteKeepsInv(db: Db, step: WriterStep)
    requires TableInv(db)
    ensures TableInv(Write(db, step))
  {
    match step
    case BeginStep(t, cfg) => if CanBegin(db, t, cfg) { BeginKeepsInv(db, t, cfg); }
    case TryStep(t) => if t in db.txs { TryKeepsInv(db, t); }
    case CommitStep(t) => if Updated(db, t) { CommitKeepsInv(db, t); }
    case RollbackStep(t) => RollbackKeepsInv(db, t);
    case DeleteStep(key) => DeleteKeepsInv(db, key);
  }

  lemma {:induction false} WritesKeepInv(db: Db, steps: seq<WriterStep>)
    requires TableInv(db)
    ensures TableInv(Writes(db, steps))
    decreases |steps|
  {
    if steps != [] {
      WriteKeepsInv(db, steps[0]);
      WritesKeepInv(Write(db, steps[0]), steps[1..]);
    }
  }

  /** What a reader sees of one writer step: nothing, or one row with a number above all committed ones. */
  lemma StepIsOneCommit(db: Db, step: WriterStep)
    requires TableInv(db)
    ensures var d := Write(db, step);
      || (d.rows == db.rows && d.log == db.log)
      || (exists k :: k in d.rows && d.rows == db.rows[k := d.rows[k]] && d.rows[k].seqno > High(db)
                      && d.log == db.log + [d.rows[k].seqno])
  {
    var d := Write(db, step);
    match step
    case BeginStep(t, cfg) =>
    case TryStep(t) =>
    case CommitStep(t) =>
      if Updated(db, t) {
        var k := db.txs[t].key;
        assert k in d.rows && d.rows == db.rows[k := d.rows[k]];
      }
    case RollbackStep(t) =>
    case DeleteStep(key) =>
      if DeleteHits(db, key) {
        assert key in d.rows && d.rows == db.rows[key := d.rows[key]];
        assert db.log != [];
      }
  }

  /** Some delete of the run found the row and the lock free. */
  predicate DeletedBy(db: Db, steps: seq<WriterStep>, key: RowKey)
    decreases |steps|
  {
    steps != [] &&
    ((steps[0] == DeleteStep(key) && DeleteHits(db, key)) || DeletedBy(Write(db, steps[0]), steps[1..], key))
  }

  predicate IsDeleted(db: Db, key: RowKey) {
    key in db.rows && db.rows[key].deleted
  }

  /** After any run a row is deleted exactly when it was before or a delete of the run hit it: a save over a deleted
      row never brings it back. */
  lemma {:induction false} DeletedIff(db: Db, steps: seq<WriterStep>, key: RowKey)
    ensures IsDeleted(Writes(db, steps), key) <==> IsDeleted(db, key) || DeletedBy(db, steps, key)
    decreases |steps|
  {
    if steps != [] {
      DeletedIff(Write(db, steps[0]), steps[1..], key);
    }
  }

  /** Rows change only by a commit of an updated transaction or by a delete that hits. */
  lemma OnlyCommitsChangeRows(db: Db, step: WriterStep)
    ensures Write(db, step).rows != db.rows ==>
      (step.CommitStep? && Updated(db, step.t)) || (step.DeleteStep? && DeleteHits(db, step.key))
  {
  }

  lemma {:induction false} WritesConcat(db: Db, a: seq<WriterStep>, b: seq<WriterStep>)
    ensures Writes(db, a + b) == Writes(Writes(db, a), b)
    decreases |a|
  {
    if a == [] {
      assert a + b == b;
    } else {
      assert (a + b)[0] == a[0] && (a + b)[1..] == a[1..] + b;
      WritesConcat(Write(db, a[0]), a[1..], b);
    }
  }

  // ----- what one transaction can count on while others run

  /** The transaction a step belongs to; a delete runs on its own. */
  predicate ByOther(step: WriterStep, t: TxId) {
    match step
    case BeginStep(u, _) => u != t
    case TryStep(u) => u != t
    case CommitStep(u) => u != t
    case RollbackStep(u) => u != t
    case DeleteStep(_) => true
  }

  /** The rely condition of transaction t between two states. */
  predicate Stable(was: Db, now: Db, t: TxId) {
    && (t in now.txs <==> t in was.txs)
    && (t in was.txs ==> now.txs[t] == was.txs[t])
    && (was.holder == Some(t) ==> now.holder == Some(t) && now.rows == was.rows && now.log == was.log)
    && High(was) <= High(now)
    && was.rows.Keys <= now.rows.Keys
  }

  /** While t holds the lock nobody else can commit or delete. */
  lemma OthersAreStable(db: Db, step: WriterStep, t: TxId)
    requires TableInv(db) && ByOther(step, t)
    ensures Stable(db, Write(db, step), t)
  {
    if step.CommitStep? && Updated(db, step.t) {
      CommitKeepsInv(db, step.t);
    }
  }

  /** now continues was without a commit of transaction t. */
  predicate NoCommit(was: seq<WriterStep>, now: seq<WriterStep>, t: TxId) {
    was <= now && CommitStep(t) !in now[|was|..]
  }

  lemma NoCommitTransitive(a: seq<WriterStep>, b: seq<WriterStep>, c: seq<WriterStep>, t: TxId)
    requires NoCommit(a, b, t) && NoCommit(b, c, t)
    ensures NoCommit(a, c, t)
  {
    assert c[|a|..] == b[|a|..] + c[|b|..];
  }

  // ----- why a save fails

  /** now continues was with steps of other transactions only. */
  predicate OnlyOthers(was: seq<WriterStep>, now: seq<WriterStep>, t: TxId) {
    was <= now && forall i :: |was| <= i < |now| ==> ByOther(now[i], t)
  }

  /** How many update attempts of transaction t are among the steps. */
  function Tries(steps: seq<WriterStep>, t: TxId): nat {
    if steps == [] then 0
    else Tries(steps[..|steps| - 1], t) + if steps[|steps| - 1] == TryStep(t) then 1 else 0
  }

  /** Another transaction holds the advisory lock, or the sequence is used up. */
  predicate Blocked(db: Db, t: TxId) {
    (db.holder.Some? && db.holder.value != t) || db.counter > 0x7fff_ffff_ffff_ffff - 16
  }

  /** Every attempt of t after the first from steps met a held lock or a used up sequence. */
  ghost predicate AllBlocked(h: seq<WriterStep>, from: nat, t: TxId) {
    forall i :: from <= i < |h| && h[i] == TryStep(t) ==> Blocked(Writes(EMPTY, h[..i]), t)
  }

  /** Ten attempts, all of them in vain. */
  ghost predicate GaveUp(was: seq<WriterStep>, now: seq<WriterStep>, t: TxId) {
    was <= now && Tries(now[|was|..], t) == 10 && AllBlocked(now, |was|, t)
  }

  /** The row was missing at the lookup, and at the insert another transaction had inserted it, committed or not. */
  ghost predicate InsertRefused(was: seq<WriterStep>, now: seq<WriterStep>, t: TxId, cfg: Configuration) {
    && OnlyOthers(was, now, t) && KeyOf(cfg) !in Writes(EMPTY, was).rows
    && var db := Writes(EMPTY, now);
      KeyOf(cfg) in db.rows || exists u :: u in db.txs && u != t && db.txs[u].inserted && db.txs[u].key == KeyOf(cfg)
  }

  /** An attempt leaves the row as it was exactly when it is blocked. */
  lemma TryFailsIff(db: Db, t: TxId)
    requires TableInv(db) && t in db.txs && db.txs[t].seqno == 0
    ensures t in Write(db, TryStep(t)).txs && (Write(db, TryStep(t)).txs[t].seqno == 0 <==> Blocked(db, t))
  {
  }

  lemma TryOnly(db: Db, t: TxId)
    requires t in db.txs
    ensures t in Write(db, TryStep(t)).txs && Write(db, TryStep(t)).txs[t].cfg == db.txs[t].cfg
    ensures High(Write(db, TryStep(t))) == High(db)
  {
  }

  lemma TriesLonger(from: nat, h: seq<WriterStep>, step: WriterStep, t: TxId)
    requires from <= |h|
    ensures Tries((h + [step])[from..], t) == Tries(h[from..], t) + if step == TryStep(t) then 1 else 0
    ensures AllBlocked(h + [step], from, t) <==> AllBlocked(h, from, t) && (step == TryStep(t) ==> Blocked(Writes(EMPTY, h), t))
  {
    var longer := h + [step];
    assert longer[from..] == h[from..] + [step] && longer[from..][..|h| - from] == h[from..];
    assert longer[..|h|] == h;
    forall i | from <= i < |h| ensures longer[..i] == h[..i] && longer[i] == h[i] {
    }
  }

  lemma {:induction false} OthersDoNotTry(from: nat, was: seq<WriterStep>, now: seq<WriterStep>, t: TxId)
    requires from <= |was| && OnlyOthers(was, now, t)
    ensures Tries(now[from..], t) == Tries(was[from..], t) && (AllBlocked(now, from, t) <==> AllBlocked(was, from, t))
    decreases |now|
  {
    if |was| < |now| {
      var n := |now| - 1;
      assert now == now[..n] + [now[n]];
      OthersDoNotTry(from, was, now[..n], t);
      TriesLonger(from, now[..n], now[n], t);
    } else {
      assert now == was;
    }
  }

  // ----- a save that nobody disturbs

  /** Steps of transaction t before its first attempt take no lock and no number. */
  predicate Untouched(was: Db, now: Db, t: TxId) {
    now.holder == was.holder && now.counter == was.counter && (t in now.txs ==> now.txs[t].seqno == 0)
  }

  lemma OwnStepTouchesNothing(was: Db, now: Db, step: WriterStep, t: TxId)
    requires was.holder == None && Untouched(was, now, t) && !ByOther(step, t) && step != TryStep(t)
    ensures Untouched(was, Write(now, step), t)
  {
  }

  lemma {:induction false} FirstAttempt(was: seq<WriterStep>, now: seq<WriterStep>, t: TxId)
    requires was <= now && (forall i :: |was| <= i < |now| ==> !ByOther(now[i], t))
    requires t !in Writes(EMPTY, was).txs && Writes(EMPTY, was).holder == None
    requires AllBlocked(now, |was|, t) && !Blocked(Writes(EMPTY, was), t)
    ensures Tries(now[|was|..], t) == 0 && Untouched(Writes(EMPTY, was), Writes(EMPTY, now), t)
    decreases |now|
  {
    if |was| < |now| {
      var n := |now| - 1;
      var front, last := now[..n], now[n];
      assert now == front + [last];
      TriesLonger(|was|, front, last, t);
      FirstAttempt(was, front, t);
      WritesConcat(EMPTY, front, [last]);
      OwnStepTouchesNothing(Writes(EMPTY, was), Writes(EMPTY, front), last, t);
      assert [last][1..] == [];
    } else {
      assert now == was;
    }
  }

  /** Neither reason for a failed save applies when nobody else takes a step, nobody holds the advisory lock, no other
      transaction has inserted the row and a sequence number is left: then a signed save succeeds. */
  lemma UndisturbedSaves(was: seq<WriterStep>, now: seq<WriterStep>, t: TxId, cfg: Configuration)
    requires was <= now && forall i :: |was| <= i < |now| ==> !ByOther(now[i], t)
    requires var db := Writes(EMPTY, was);
      CanBegin(db, t, cfg) && db.holder == None && db.counter <= 0x7fff_ffff_ffff_ffff - 16
    ensures !InsertRefused(was, now, t, cfg) && !GaveUp(was, now, t)
  {
    if AllBlocked(now, |was|, t) {
      FirstAttempt(was, now, t);
    }
    if |was| < |now| {
      assert !ByOther(now[|was|], t);
    } else {
      assert now == was;
    }
  }

  lemma OthersDoNotCommit(was: seq<WriterStep>, now: seq<WriterStep>, t: TxId)
    requires OnlyOthers(was, now, t)
    ensures NoCommit(was, now, t)
  {
    forall i | |was| <= i < |now| ensures now[i] != CommitStep(t) {
      assert ByOther(now[i], t);
    }
  }

  /** What was deleted when the history was shorter is deleted now. */
  lemma DeletedSince(was: seq<WriterStep>, now: seq<WriterStep>, key: RowKey)
    requires was <= now && IsDeleted(Writes(EMPTY, was), key)
    ensures IsDeleted(Writes(EMPTY, now), key)
  {
    assert now == was + now[|was|..];
    WritesConcat(EMPTY, was, now[|was|..]);
    DeletedIff(Writes(EMPTY, was), now[|was|..], key);
  }

  /** history lists the steps of all transactions so far, this writer's and the others'. */
  class DataWriter {
    var db: Db
    ghost var history: seq<WriterStep>

    ghost predicate Valid()
      reads this
    {
      db == Writes(EMPTY, history) && TableInv(db)
    }

    constructor ()
      ensures Valid() && history == []
    {
      db := EMPTY;
      history := [];
    }

    /** One step of some transaction. */
    method Take(step: WriterStep)
      requires Valid()
      modifies this
      ensures Valid() && db == Write(old(db), step) && history == old(history) + [step]
    {
      WriteKeepsInv(db, step);
      WritesConcat(EMPTY, history, [step]);
      assert [step][1..] == [];
      db := Write(db, step);
      history := history + [step];
    }

    /** Any number of steps of other transactions. */
    method Interfere(t: TxId)
      requires Valid()
      modifies this
      ensures Valid() && Stable(old(db), db, t) && OnlyOthers(old(history), history, t)
    {
      var n: nat :| 0 <= n;
      for i := 0 to n
        invariant Valid() && Stable(old(db), db, t) && OnlyOthers(old(history), history, t)
      {
        var step: WriterStep := *;
        if ByOther(step, t) {
          OthersAreStable(db, step, t);
          Take(step);
        }
      }
    }

    /** The lookup and the insert of a missing row; the steps in between include those it waits for. False where the
        unique index refuses the insert, or another transaction's insert of the row stays open. */
    method OpenRow(t: TxId, cfg: Configuration) returns (ok: bool)
      requires Valid() && t !in db.txs
      modifies this
      ensures Valid() && High(old(db)) <= High(db) && (t in db.txs <==> ok) && NoCommit(old(history), history, t)
      ensures ok ==> db.txs[t].cfg == cfg && db.txs[t].seqno == 0
      ensures ok ==> Tries(history[|old(history)|..], t) == 0 && AllBlocked(history, |old(history)|, t)
      ensures !ok ==> InsertRefused(old(history), history, t, cfg)
    {
      var exists0 := KeyOf(cfg) in db.rows;
      Interfere(t);
      OthersDoNotCommit(old(history), history, t);
      if (!exists0 && KeyOf(cfg) in db.rows) || !CanBegin(db, t, cfg) {
        return false;
      }
      ghost var before := history;
      OthersDoNotTry(|old(history)|, old(history), history, t);
      TriesLonger(|old(history)|, history, BeginStep(t, cfg), t);
      Take(BeginStep(t, cfg));
      NoCommitTransitive(old(history), before, history, t);
      return true;
    }

    /** What the compare-and-set loop has done: so many attempts, all blocked unless the row is updated. */
    ghost predicate Tried(was: seq<WriterStep>, t: TxId, attempts: nat)
      reads this
    {
      && NoCommit(was, history, t) && t in db.txs && Tries(history[|was|..], t) == attempts
      && (db.txs[t].seqno == 0 ==> AllBlocked(history, |was|, t))
    }

    /** The compare-and-set loop: it ends with the row updated under the lock or after ten attempts. */
    method TryRepeatedly(ghost was: seq<WriterStep>, t: TxId, cfg: Configuration)
      requires Valid() && t in db.txs && db.txs[t].cfg == cfg && db.txs[t].seqno == 0 && Tried(was, t, 0)
      modifies this
      ensures Valid() && t in db.txs && db.txs[t].cfg == cfg && High(old(db)) <= High(db)
      ensures NoCommit(was, history, t) && (db.txs[t].seqno == 0 ==> GaveUp(was, history, t))
    {
      var attempts := 0;
      while attempts < RETRY_LIMIT && db.txs[t].seqno == 0
        invariant Valid() && t in db.txs && db.txs[t].cfg == cfg && High(old(db)) <= High(db)
        invariant Tried(was, t, attempts) && attempts <= RETRY_LIMIT
      {
        TryOnce(was, t, attempts);
        attempts := attempts + 1;
      }
    }

    /** Steps of others while transaction t is open: it stays as it is. */
    method InterfereWith(t: TxId)
      requires Valid() && t in db.txs
      modifies this
      ensures Valid() && t in db.txs && db.txs[t] == old(db).txs[t] && High(old(db)) <= High(db)
      ensures OnlyOthers(old(history), history, t)
    {
      Interfere(t);
    }

    method TryOnce(ghost was: seq<WriterStep>, t: TxId, ghost attempts: nat)
      requires Valid() && t in db.txs && db.txs[t].seqno == 0 && Tried(was, t, attempts)
      modifies this
      ensures Valid() && t in db.txs && db.txs[t].cfg == old(db).txs[t].cfg && High(old(db)) <= High(db)
      ensures Tried(was, t, attempts + 1)
    {
      InterfereWith(t);
      OthersDoNotTry(|was|, old(history), history, t);
      OthersDoNotCommit(old(history), history, t);
      NoCommitTransitive(was, old(history), history, t);
      Attempt(was, t, attempts);
    }

    method Attempt(ghost was: seq<WriterStep>, t: TxId, ghost attempts: nat)
      requires Valid() && t in db.txs && db.txs[t].seqno == 0 && Tried(was, t, attempts)
      modifies this
      ensures Valid() && t in db.txs && db.txs[t].cfg == old(db).txs[t].cfg && High(old(db)) == High(db)
      ensures Tried(was, t, attempts + 1)
    {
      ghost var before := history;
      TryFailsIff(db, t);
      TriesLonger(|was|, history, TryStep(t), t);
      TryOnly(db, t);
      Take(TryStep(t));
      NoCommitTransitive(was, before, history, t);
    }

    /** The end of the transaction: commit what was updated, roll back otherwise. */
    method Finish(ghost was: seq<WriterStep>, t: TxId, cfg: Configuration) returns (ok: bool)
      requires Valid() && t in db.txs && db.txs[t].cfg == cfg && NoCommit(was, history, t)
      requires db.txs[t].seqno == 0 ==> GaveUp(was, history, t)
      modifies this
      ensures Valid() && t !in db.txs && High(old(db)) <= High(db) && old(history) <= history
      ensures ok <==> old(db).txs[t].seqno > 0
      ensures ok ==> KeyOf(cfg) in db.rows && db.rows[KeyOf(cfg)].cfg == cfg
      ensures ok ==> db.rows[KeyOf(cfg)].seqno == High(db) > High(old(db))
      ensures !ok ==> NoCommit(was, history, t) && GaveUp(was, history, t)
    {
      InterfereWith(t);
      ok := db.txs[t].seqno > 0;
      if ok {
        CommitNow(t, cfg);
      } else {
        OthersDoNotTry(|was|, old(history), history, t);
        OthersDoNotCommit(old(history), history, t);
        NoCommitTransitive(was, old(history), history, t);
        RollbackNow(was, t);
      }
    }

    method RollbackNow(ghost was: seq<WriterStep>, t: TxId)
      requires Valid() && GaveUp(was, history, t) && NoCommit(was, history, t)
      modifies this
      ensures Valid() && t !in db.txs && High(db) == High(old(db)) && old(history) <= history
      ensures GaveUp(was, history, t) && NoCommit(was, history, t)
    {
      TriesLonger(|was|, history, RollbackStep(t), t);
      ghost var before := history;
      Take(RollbackStep(t));
      NoCommitTransitive(was, before, history, t);
    }

    method CommitNow(t: TxId, cfg: Configuration)
      requires Valid() && Updated(db, t) && db.txs[t].cfg == cfg
      modifies this
      ensures Valid() && t !in db.txs && history == old(history) + [CommitStep(t)]
      ensures KeyOf(cfg) in db.rows && db.rows[KeyOf(cfg)].cfg == cfg
      ensures db.rows[KeyOf(cfg)].seqno == High(db) > High(old(db))
    {
      CommitKeepsInv(db, t);
      CommitWrites(db, t);
      Take(CommitStep(t));
    }

    /** SaveConfiguration: up to ten attempts to update under the advisory lock, then commit, else roll back. On
        success the row holds the configuration, still deleted if it was. A failed save commits nothing, so the rows
        are as the others left them; it fails only on a bad signature, when another transaction inserted the row first,
        or when all ten attempts met a held lock or a used up sequence. */
    method SaveConfiguration(t: TxId, cfg: Configuration, signatureValid: bool) returns (ok: bool)
      requires Valid() && t !in db.txs
      modifies this
      ensures Valid() && t !in db.txs && High(old(db)) <= High(db) && old(history) <= history
      ensures ok ==> signatureValid && KeyOf(cfg) in db.rows && db.rows[KeyOf(cfg)].cfg == cfg
      ensures ok ==> db.rows[KeyOf(cfg)].seqno == High(db) > High(old(db))
      ensures IsDeleted(old(db), KeyOf(cfg)) ==> IsDeleted(db, KeyOf(cfg))
      ensures !ok ==> NoCommit(old(history), history, t)
      ensures !ok && signatureValid ==>
        InsertRefused(old(history), history, t, cfg) || GaveUp(old(history), history, t)
    {
      ok := false;
      if signatureValid {
        ok := SaveSigned(t, cfg);
      }
      if IsDeleted(old(db), KeyOf(cfg)) {
        DeletedSince(old(history), history, KeyOf(cfg));
      }
    }

    method SaveSigned(t: TxId, cfg: Configuration) returns (ok: bool)
      requires Valid() && t !in db.txs
      modifies this
      ensures Valid() && t !in db.txs && High(old(db)) <= High(db) && old(history) <= history
      ensures ok ==> KeyOf(cfg) in db.rows && db.rows[KeyOf(cfg)].cfg == cfg
      ensures ok ==> db.rows[KeyOf(cfg)].seqno == High(db) > High(old(db))
      ensures !ok ==> NoCommit(old(history), history, t)
      ensures !ok ==> InsertRefused(old(history), history, t, cfg) || GaveUp(old(history), history, t)
    {
      ok := OpenRow(t, cfg);
      if ok {
        TryRepeatedly(old(history), t, cfg);
        ok := Finish(old(history), t, cfg);
      }
    }

    /** DeleteConfiguration: true exactly when the row exists, the lock is free and the sequence is not used up. */
    method DeleteConfiguration(key: RowKey) returns (ok: bool)
      requires Valid()
      modifies this
      ensures Valid() && (ok <==> key in old(db).rows && old(db).holder == None && old(db).counter <= 0x7fff_ffff_ffff_ffff - 16)
      ensures if ok then key in db.rows && db.rows[key].deleted && db.rows[key].seqno == High(db) > High(old(db))
        && db.rows[key].cfg == old(db).rows[key].cfg
        && forall k :: k != key ==> (k in db.rows <==> k in old(db).rows) && (k in db.rows ==> db.rows[k] == old(db).rows[k])
        else db == old(db)
    {
      ok := DeleteHits(db, key);
      Take(DeleteStep(key));
    }
  }
}
