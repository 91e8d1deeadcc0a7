/**
 Saves of certificates that overlap (configure/secretimpl/secret.pg.cert.go:15-95): each statement of a save sees what is
 committed when it runs, and the unique index on type, name and version decides.
 */
module CertSaves {
  import opened Wrappers
  import opened Certs
  import opened CertWalks

  type TxId = int

  /** A save under way: the version it will insert, how many saves were committed when it read that, and the rows its
      update has archived. */
  datatype Plan = Plan(call: SaveCall, version: int, at: nat, marked: Option<set<string>>)

  datatype Commit = Commit(t: TxId, call: SaveCall)

  /** log is history: the saves that were committed, in order. */
  datatype Db = Db(table: Table, plans: map<TxId, Plan>, log: seq<Commit>)

  datatype SaveStep = ReadStep(t: TxId, call: SaveCall) | ArchiveStep(t: TxId) | InsertStep(t: TxId) | RollbackStep(t: TxId)

  const EMPTY_DB := Db(map[], map[], [])

  function Named(t: Table, kind: int, name: string): (ids: set<string>) {
    set id | id in t && t[id].kind == kind && t[id].name == name
  }

  function Archive(t: Table, marked: set<string>): Table {
    map o | o in t :: if o in marked then t[o].(active := false) else t[o]
  }

  /** The primary key and the unique index let the row in. */
  predicate Allowed(t: Table, p: Plan) {
    Sn(p.call.cert) !in t && p.version !in Versions(t, p.call.kind, p.call.name)
  }

  function Insert(t: Table, p: Plan): Table
    requires p.marked.Some?
  {
    Archive(t, p.marked.value)[Sn(p.call.cert) :=
      Row(p.call.kind, p.call.name, p.version, true, ParentFor(p.call.kind, p.call.caSn), p.call.cert, |t|)]
  }

  predicate Enabled(db: Db, step: SaveStep) {
    match step
    case ReadStep(t, _) => t !in db.plans
    case ArchiveStep(t) => t in db.plans && db.plans[t].marked == None
    case InsertStep(t) => t in db.plans && db.plans[t].marked.Some?
    case RollbackStep(t) => t in db.plans
  }

  /** A refused insert rolls the transaction back. */
  function InsertAndEnd(db: Db, t: TxId): Db
    requires Enabled(db, InsertStep(t))
  {
    var p := db.plans[t];
    if Allowed(db.table, p) then Db(Insert(db.table, p), db.plans - {t}, db.log + [Commit(t, p.call)])
    else db.(plans := db.plans - {t})
  }

  function Do(db: Db, step: SaveStep): Db
    requires Enabled(db, step)
  {
    match step
    case ReadStep(t, call) =>
      db.(plans := db.plans[t := Plan(call, MaxVersion(db.table, call.kind, call.name) + 1, |db.log|, None)])
    case ArchiveStep(t) =>
      var p := db.plans[t];
      db.(plans := db.plans[t := p.(marked := Some(Named(db.table, p.call.kind, p.call.name)))])
    case InsertStep(t) => InsertAndEnd(db, t)
    case RollbackStep(t) => db.(plans := db.plans - {t})
  }

  function Run(db: Db, steps: seq<SaveStep>): Db
    decreases |steps|
  {
    if steps == [] then db
    else Run(if Enabled(db, steps[0]) then Do(db, steps[0]) else db, steps[1..])
  }

  // ----- the invariant

  function Calls(log: seq<Commit>): (calls: seq<SaveCall>)
    ensures |calls| == |log| && forall i :: 0 <= i < |log| ==> calls[i] == log[i].call
  {
    seq(|log|, i requires 0 <= i < |log| => log[i].call)
  }

  ghost predicate DenseAt(t: Table, kind: int, name: string) {
    forall v :: v in Versions(t, kind, name) <==> 1 <= v <= MaxVersion(t, kind, name)
  }

  ghost predicate Dense(t: Table) {
    forall kind, name {:trigger DenseAt(t, kind, name)} :: DenseAt(t, kind, name)
  }

  ghost predicate TableOk(t: Table) {
    IdsOk(t) && VersionsOk(t) && Dense(t)
  }

  predicate OfName(c: Commit, kind: int, name: string) {
    c.call.kind == kind && c.call.name == name
  }

  /** Since the plan read the version, no save of its type and name was committed. */
  predicate Undisturbed(log: seq<Commit>, p: Plan) {
    forall i :: p.at <= i < |log| ==> !OfName(log[i], p.call.kind, p.call.name)
  }

  predicate PlanOk(t: Table, log: seq<Commit>, p: Plan) {
    var high := MaxVersion(t, p.call.kind, p.call.name);
    && p.at <= |log| && 1 <= p.version <= high + 1
    && (Undisturbed(log, p) <==> p.version == high + 1)
    && (p.marked.Some? && p.version == high + 1 ==> p.marked.value == Named(t, p.call.kind, p.call.name))
  }

  predicate PlansOk(db: Db) {
    forall t :: t in db.plans ==> PlanOk(db.table, db.log, db.plans[t])
  }

  ghost predicate Inv(db: Db) {
    TableOk(db.table) && PlansOk(db) && db.table == After(map[], Calls(db.log))
  }

  lemma EmptyInv()
    ensures Inv(EMPTY_DB)
  {
    forall kind, name ensures DenseAt(EMPTY_DB.table, kind, name) {
    }
  }

  lemma AddsDense(t: Table, id: string, row: Row, z: Table, kind: int, name: string)
    requires Adds(t, id, row, z) && row.version == MaxVersion(t, row.kind, row.name) + 1 && DenseAt(t, kind, name)
    ensures DenseAt(z, kind, name)
  {
    AddsVersions(t, id, row, z, kind, name);
    AddsMax(t, id, row, z, kind, name);
  }

  lemma SaveKeepsDense(t: Table, call: SaveCall)
    requires Dense(t) && Save(t, call.kind, call.name, call.caSn, call.cert).Some?
    ensures Dense(Save(t, call.kind, call.name, call.caSn, call.cert).value)
  {
    SaveAdds(t, call.kind, call.name, call.caSn, call.cert);
    var z := Save(t, call.kind, call.name, call.caSn, call.cert).value;
    forall kind, name ensures DenseAt(z, kind, name) {
      assert DenseAt(t, kind, name);
      AddsDense(t, Sn(call.cert), z[Sn(call.cert)], z, kind, name);
    }
  }

  lemma SaveKeepsTable(t: Table, call: SaveCall)
    requires TableOk(t) && Save(t, call.kind, call.name, call.caSn, call.cert).Some?
    ensures TableOk(Save(t, call.kind, call.name, call.caSn, call.cert).value)
  {
    var z := Save(t, call.kind, call.name, call.caSn, call.cert).value;
    SaveAdds(t, call.kind, call.name, call.caSn, call.cert);
    AddsIds(t, Sn(call.cert), z[Sn(call.cert)], z);
    SaveKeepsVersions(t, call.kind, call.name, call.caSn, call.cert);
    SaveKeepsDense(t, call);
  }

  lemma AllowedIff(t: Table, log: seq<Commit>, p: Plan)
    requires PlanOk(t, log, p) && DenseAt(t, p.call.kind, p.call.name)
    ensures Allowed(t, p) <==> Sn(p.call.cert) !in t && Undisturbed(log, p)
  {
  }

  lemma InsertIsSave(t: Table, log: seq<Commit>, p: Plan)
    requires PlanOk(t, log, p) && Sn(p.call.cert) !in t && Undisturbed(log, p) && p.marked.Some?
    ensures Save(t, p.call.kind, p.call.name, p.call.caSn, p.call.cert) == Some(Insert(t, p))
  {
    assert Archive(t, p.marked.value) == map o | o in t ::
      if t[o].kind == p.call.kind && t[o].name == p.call.name then t[o].(active := false) else t[o];
  }

  /** An insert is let in exactly when the serial number is free and no save of the same type and name was committed since
      the version was read; what it commits then is one undivided save into the table as it is now. */
  lemma OverlapIff(db: Db, t: TxId)
    requires Inv(db) && Enabled(db, InsertStep(t))
    ensures var p := db.plans[t];
      && (Allowed(db.table, p) <==> Sn(p.call.cert) !in db.table && Undisturbed(db.log, p))
      && (Allowed(db.table, p) ==>
           Save(db.table, p.call.kind, p.call.name, p.call.caSn, p.call.cert) == Some(Do(db, InsertStep(t)).table))
  {
    var p := db.plans[t];
    assert PlanOk(db.table, db.log, p) && DenseAt(db.table, p.call.kind, p.call.name);
    AllowedIff(db.table, db.log, p);
    if Allowed(db.table, p) {
      InsertIsSave(db.table, db.log, p);
    }
  }

  lemma AddsNamed(t: Table, id: string, row: Row, z: Table, kind: int, name: string)
    requires Adds(t, id, row, z) && !(row.kind == kind && row.name == name)
    ensures Named(z, kind, name) == Named(t, kind, name)
  {
    forall o ensures o in Named(z, kind, name) <==> o in Named(t, kind, name) {
      assert o in z <==> o == id || o in t;
    }
  }

  lemma Disturb(log: seq<Commit>, c: Commit, p: Plan)
    requires p.at <= |log|
    ensures Undisturbed(log + [c], p) <==> Undisturbed(log, p) && !OfName(c, p.call.kind, p.call.name)
  {
    assert (log + [c])[|log|] == c && forall i :: 0 <= i < |log| ==> (log + [c])[i] == log[i];
  }

  /** What a new row does to a plan. */
  lemma AddsPlan(t: Table, log: seq<Commit>, id: string, row: Row, z: Table, c: Commit, p: Plan)
    requires PlanOk(t, log, p) && Adds(t, id, row, z) && row.version == MaxVersion(t, row.kind, row.name) + 1
    requires row.kind == c.call.kind && row.name == c.call.name
    ensures PlanOk(z, log + [c], p)
  {
    AddsMax(t, id, row, z, p.call.kind, p.call.name);
    Disturb(log, c, p);
    if !OfName(c, p.call.kind, p.call.name) {
      AddsNamed(t, id, row, z, p.call.kind, p.call.name);
    }
  }

  lemma CommitKeepsPlan(t: Table, log: seq<Commit>, c: Commit, p: Plan)
    requires PlanOk(t, log, p) && Save(t, c.call.kind, c.call.name, c.call.caSn, c.call.cert).Some?
    ensures PlanOk(Save(t, c.call.kind, c.call.name, c.call.caSn, c.call.cert).value, log + [c], p)
  {
    SaveAdds(t, c.call.kind, c.call.name, c.call.caSn, c.call.cert);
    var z := Save(t, c.call.kind, c.call.name, c.call.caSn, c.call.cert).value;
    AddsPlan(t, log, Sn(c.call.cert), z[Sn(c.call.cert)], z, c, p);
  }

  lemma CommitIsAfter(log: seq<Commit>, c: Commit)
    requires var t := After(map[], Calls(log)); Save(t, c.call.kind, c.call.name, c.call.caSn, c.call.cert).Some?
    ensures var t := After(map[], Calls(log));
      After(map[], Calls(log + [c])) == Save(t, c.call.kind, c.call.name, c.call.caSn, c.call.cert).value
  {
    var calls := Calls(log + [c]);
    assert calls[..|log|] == Calls(log);
  }

  lemma InsertKeepsInv(db: Db, t: TxId)
    requires Inv(db) && Enabled(db, InsertStep(t))
    ensures Inv(Do(db, InsertStep(t)))
  {
    var p := db.plans[t];
    OverlapIff(db, t);
    if Allowed(db.table, p) {
      var c := Commit(t, p.call);
      SaveKeepsTable(db.table, p.call);
      CommitIsAfter(db.log, c);
      forall o | o in db.plans ensures PlanOk(Do(db, InsertStep(t)).table, db.log + [c], db.plans[o]) {
        CommitKeepsPlan(db.table, db.log, c, db.plans[o]);
      }
    }
  }

  lemma StepKeepsInv(db: Db, step: SaveStep)
    requires Inv(db) && Enabled(db, step)
    ensures Inv(Do(db, step))
  {
    match step
    case InsertStep(t) => InsertKeepsInv(db, t);
    case ReadStep(t, call) =>
      assert DenseAt(db.table, call.kind, call.name);
      assert PlanOk(db.table, db.log, Do(db, step).plans[t]);
    case _ =>
  }

  lemma {:induction false} RunKeepsInv(db: Db, steps: seq<SaveStep>)
    requires Inv(db)
    ensures Inv(Run(db, steps))
    decreases |steps|
  {
    if steps != [] {
      if Enabled(db, steps[0]) {
        StepKeepsInv(db, steps[0]);
        RunKeepsInv(Do(db, steps[0]), steps[1..]);
      } else {
        RunKeepsInv(db, steps[1..]);
      }
    }
  }

  /** However saves overlap, the table is what the committed ones make of the empty table one after the other, and every
      walk in it ends if and only if none of those closed a cycle. */
  lemma Serializable(steps: seq<SaveStep>)
    ensures var db := Run(EMPTY_DB, steps);
      && TableOk(db.table) && db.table == After(map[], Calls(db.log))
      && (AllWalksEnd(db.table) <==> AllHarmless(map[], Calls(db.log)))
  {
    EmptyInv();
    RunKeepsInv(EMPTY_DB, steps);
    EveryWalkEndsIff(Calls(Run(EMPTY_DB, steps).log));
  }

  // ----- the object

  predicate ByOther(step: SaveStep, t: TxId) {
    step.t != t
  }

  /** Others only add to the log, and leave the plan of save t alone. */
  predicate Stable(was: Db, now: Db, t: TxId) {
    && was.log <= now.log && (forall i :: |was.log| <= i < |now.log| ==> now.log[i].t != t)
    && (t in was.plans <==> t in now.plans) && (t in was.plans ==> now.plans[t] == was.plans[t])
  }

  lemma OthersAreStable(db: Db, step: SaveStep, t: TxId)
    requires Enabled(db, step) && ByOther(step, t)
    ensures Stable(db, Do(db, step), t)
  {
  }

  /** The save went in last, into the table as the others had left it, and none of them was of its type and name. */
  predicate WentIn(was: Db, now: Db, t: TxId, call: SaveCall) {
    var last := |now.log| - 1;
    && |was.log| <= last && now.log[last] == Commit(t, call)
    && (forall i :: |was.log| <= i < last ==> now.log[i].t != t && !OfName(now.log[i], call.kind, call.name))
    && Save(After(map[], Calls(now.log[..last])), call.kind, call.name, call.caSn, call.cert) == Some(now.table)
  }

  /** The save committed nothing, and its serial number is taken or another save of its type and name came first. */
  predicate TurnedAway(was: Db, now: Db, t: TxId, call: SaveCall) {
    && |was.log| <= |now.log| && (forall i :: |was.log| <= i < |now.log| ==> now.log[i].t != t)
    && (Sn(call.cert) in now.table || exists i :: |was.log| <= i < |now.log| && OfName(now.log[i], call.kind, call.name))
  }

  lemma EndsOneWay(was: Db, now: Db, t: TxId, call: SaveCall)
    requires Inv(now) && Enabled(now, InsertStep(t)) && was.log <= now.log
    requires now.plans[t].call == call && now.plans[t].at == |was.log|
    requires forall i :: |was.log| <= i < |now.log| ==> now.log[i].t != t
    ensures var end := Do(now, InsertStep(t));
      if Allowed(now.table, now.plans[t]) then WentIn(was, end, t, call) else TurnedAway(was, end, t, call)
  {
    OverlapIff(now, t);
    if Allowed(now.table, now.plans[t]) {
      assert (now.log + [Commit(t, call)])[..|now.log|] == now.log;
    }
  }

  class CertStorage {
    var db: Db

    ghost predicate Valid()
      reads this
    {
      Inv(db)
    }

    constructor ()
      ensures Valid() && db == EMPTY_DB
    {
      db := EMPTY_DB;
      EmptyInv();
    }

    /** One statement of some save. */
    method Take(step: SaveStep)
      requires Valid() && Enabled(db, step)
      modifies this
      ensures Valid() && db == Do(old(db), step)
    {
      StepKeepsInv(db, step);
      db := Do(db, step);
    }

    /** Any number of statements of other saves. */
    method Interfere(t: TxId)
      requires Valid()
      modifies this
      ensures Valid() && Stable(old(db), db, t)
    {
      var n: nat :| 0 <= n;
      for i := 0 to n
        invariant Valid() && Stable(old(db), db, t)
      {
        var step: SaveStep := *;
        if Enabled(db, step) && ByOther(step, t) {
          OthersAreStable(db, step, t);
          Take(step);
        }
      }
    }

    /** Statements of others while save t is under way. */
    method InterfereWith(t: TxId)
      requires Valid() && t in db.plans
      modifies this
      ensures Valid() && t in db.plans && db.plans[t] == old(db).plans[t] && old(db).log <= db.log
      ensures forall i :: |old(db).log| <= i < |db.log| ==> db.log[i].t != t
    {
      Interfere(t);
    }

    method ReadVersion(t: TxId, call: SaveCall)
      requires Valid() && t !in db.plans
      modifies this
      ensures Valid() && t in db.plans && db.log == old(db).log
      ensures db.plans[t] == Plan(call, MaxVersion(old(db).table, call.kind, call.name) + 1, |db.log|, None)
    {
      Take(ReadStep(t, call));
    }

    method ArchiveRows(t: TxId)
      requires Valid() && Enabled(db, ArchiveStep(t))
      modifies this
      ensures Valid() && Enabled(db, InsertStep(t)) && db.log == old(db).log
      ensures db.plans[t].call == old(db).plans[t].call && db.plans[t].at == old(db).plans[t].at
    {
      Take(ArchiveStep(t));
    }

    /** All of a save but the insert. */
    method ReadAndArchive(t: TxId, call: SaveCall)
      requires Valid() && t !in db.plans
      modifies this
      ensures Valid() && Enabled(db, InsertStep(t)) && old(db).log <= db.log
      ensures db.plans[t].call == call && db.plans[t].at == |old(db).log|
      ensures forall i :: |old(db).log| <= i < |db.log| ==> db.log[i].t != t
    {
      ReadVersion(t, call);
      InterfereWith(t);
      ArchiveRows(t);
      InterfereWith(t);
    }

    /** saveInternal, other saves running between its statements; None is the error. */
    method SaveInternal(t: TxId, kind: int, name: string, caSn: string, cert: Cert) returns (sn: Option<string>)
      requires Valid() && t !in db.plans
      modifies this
      ensures Valid() && t !in db.plans && old(db).log <= db.log
      ensures var call := SaveCall(kind, name, caSn, cert);
        if sn.Some? then sn == Some(Sn(cert)) && WentIn(old(db), db, t, call) else TurnedAway(old(db), db, t, call)
    {
      ReadAndArchive(t, SaveCall(kind, name, caSn, cert));
      EndsOneWay(old(db), db, t, SaveCall(kind, name, caSn, cert));
      sn := if Allowed(db.table, db.plans[t]) then Some(Sn(cert)) else None;
      Take(InsertStep(t));
    }

    /** LoadCertChainByName, on any table: the newest certificate of the type and name, then up from it. */
    method LoadCertChainByName(kind: int, name: string) returns (r: Loaded<seq<Cert>>)
      ensures Versions(db.table, kind, name) == {} ==> r.Err?
      ensures Versions(db.table, kind, name) != {} ==>
        exists id :: IsNewest(db.table, kind, name, id) && r == Climb(db.table, db.table[id].cert, MAX_LEVELS)
    {
      NewestExists(db.table, kind, name);
      if id :| id in db.table && IsNewest(db.table, kind, name, id) {
        r := WalkUp(db.table[id].cert, MAX_LEVELS);
      } else {
        r := Err("no rows in result set");
      }
    }

    /** The bounded loop: one more parent each time round, at most so many times. */
    method WalkUp(cert: Cert, levels: nat) returns (r: Loaded<seq<Cert>>)
      ensures r == Climb(db.table, cert, levels)
    {
      var prevCert := cert;
      var certs := [cert];
      BelowNothing(Climb(db.table, cert, levels));
      assert certs[..0] == [];
      for i := 0 to levels
        invariant |certs| == i + 1 && certs[i] == prevCert
        invariant Climb(db.table, cert, levels) == Below(certs[..i], Climb(db.table, prevCert, levels - i))
      {
        var parent := LoadParent(db.table, Sn(prevCert));
        if parent.Err? {
          return Err(parent.error);
        }
        if parent.value == None {
          assert certs[..i] + [prevCert] == certs;
          return Ok(certs);
        }
        BelowBelow(certs[..i], prevCert, Climb(db.table, parent.value.value, levels - i - 1));
        assert certs[..i] + [prevCert] == certs;
        prevCert := parent.value.value;
        certs := certs + [prevCert];
        assert certs[..i + 1] == certs[..i] + [certs[i]];
      }
      r := Err("reaching max cert level");
    }
  }
}
