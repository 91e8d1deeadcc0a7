/** Key rotations that overlap: exactly when the next version of a key is let in. */
module KeyOverlap {
  import opened Wrappers
  import opened KeyMaterial
  import opened VersionTable
  import opened KeyStore
  import opened KeyRotation
  import Decimal

  // ----- what steps of other calls leave alone

  /** A step of some other call. */
  predicate ByOther(step: Step, op: OpId) {
    match step
    case Restart => false
    case _ => step.op != op
  }

  predicate SamePlan(y: Sys, z: Sys, op: OpId) {
    && (op in y.pending <==> op in z.pending) && (op in y.pending ==> z.pending[op] == y.pending[op])
    && (y.root.Some? ==> z.root.Some?)
  }

  lemma FinishTokenPlan(y: Sys, o: OpId, p: Pending)
    requires p.Token?
    ensures FinishToken(y, o, p).pending == y.pending - {o} && (y.root.Some? ==> FinishToken(y, o, p).root.Some?)
  {
  }

  lemma Finish1Plan(y: Sys, o: OpId, p: Pending)
    requires p.Ready1?
    ensures Finish1(y, o, p).pending == y.pending - {o} && Finish1(y, o, p).root == y.root
  {
  }

  lemma Finish2Plan(y: Sys, o: OpId, p: Pending)
    requires p.Ready2?
    ensures Finish2(y, o, p).pending == y.pending - {o} && Finish2(y, o, p).root == y.root
  {
  }

  lemma FinishKeepsPlan(y: Sys, o: OpId, op: OpId)
    requires o in y.pending && o != op
    ensures SamePlan(y, DoFinish(y, o), op)
  {
    var p := y.pending[o];
    match p
    case Token(_, _, _) => FinishTokenPlan(y, o, p);
    case Ready1(_, _, _, _, _) => Finish1Plan(y, o, p);
    case Ready2(_, _, _, _, _, _) => Finish2Plan(y, o, p);
    case _ =>
  }

  lemma OthersKeepPlan(c: Crypto, y: Sys, step: Step, op: OpId)
    requires Enabled(y, step) && ByOther(step, op)
    ensures SamePlan(y, Do(c, y, step), op)
  {
    if step.Finish? {
      FinishKeepsPlan(y, step.op, op);
    } else {
      PlanningOnly(c, y, step);
    }
  }

  // ----- the version a call has read

  /** A version read, with the level of the table and the name. */
  datatype Seen = Seen(level: int, name: string, version: int)

  function SeenIn(p: Pending): Option<Seen> {
    match p
    case Planned1(name, _, seen) => Some(Seen(1, name, seen))
    case Ready1(name, _, seen, _, _) => Some(Seen(1, name, seen))
    case Typed(_, name, _, _, seen) => Some(Seen(2, name, seen))
    case Ready2(name, _, _, seen, _, _) => Some(Seen(2, name, seen))
    case _ => None
  }

  function SeenBy(y: Sys, op: OpId): Option<Seen> {
    if op in y.pending then SeenIn(y.pending[op]) else None
  }

  /** The step in which a call reads the version it will continue. */
  predicate ReadsVersion(step: Step, op: OpId) {
    match step
    case Plan1(o, _, _) => o == op
    case See(o, _, _) => o == op
    case PlanData(o, _, _, _, _, _, _) => o == op
    case _ => false
  }

  predicate NoReads(steps: seq<Step>, op: OpId) {
    forall i :: 0 <= i < |steps| ==> !ReadsVersion(steps[i], op)
  }

  lemma OwnFinishForgets(y: Sys, op: OpId)
    requires op in y.pending
    ensures SeenBy(DoFinish(y, op), op) == SeenBy(y, op) || SeenBy(DoFinish(y, op), op) == None
  {
  }

  lemma SealKeepsSeen(c: Crypto, y: Sys, op: OpId, nonce: Binary)
    requires op in y.pending && y.pending[op].Planned1?
    ensures SeenBy(DoSeal1(c, y, op, nonce), op) == SeenBy(y, op) || SeenBy(DoSeal1(c, y, op, nonce), op) == None
  {
  }

  lemma BindSeesNothing(c: Crypto, y: Sys, op: OpId, l1: int, name: string, key: KeySet, nonce: Binary)
    requires op !in y.pending
    ensures SeenBy(DoBind(c, y, op, l1, name, key, nonce), op) == None
  {
  }

  lemma BindDataKeepsSeen(c: Crypto, y: Sys, op: OpId, l1: int, nonce: Binary)
    requires op in y.pending && y.pending[op].Typed?
    ensures SeenBy(DoBindData(c, y, op, l1, nonce), op) == SeenBy(y, op) || SeenBy(DoBindData(c, y, op, l1, nonce), op) == None
  {
  }

  lemma SetupSeesNothing(c: Crypto, y: Sys, op: OpId, p: Provider, nonce: Binary)
    requires op !in y.pending && p.latest in p.keySets
    ensures SeenBy(DoSetup(c, y, op, p, nonce), op) == None
  {
    SetupShape(c, y, op, p, nonce);
  }

  lemma OwnStepKeepsSeen(c: Crypto, y: Sys, step: Step)
    requires Enabled(y, step) && !step.Restart? && !ReadsVersion(step, step.op)
    ensures SeenBy(Do(c, y, step), step.op) == SeenBy(y, step.op) || SeenBy(Do(c, y, step), step.op) == None
  {
    match step
    case Finish(op) => OwnFinishForgets(y, op);
    case Setup(op, p, nonce) => SetupSeesNothing(c, y, op, p, nonce);
    case Seal1(op, nonce) => SealKeepsSeen(c, y, op, nonce);
    case Bind(op, _, l1, name, key, nonce) => BindSeesNothing(c, y, op, l1, name, key, nonce);
    case BindData(op, l1, nonce) => BindDataKeepsSeen(c, y, op, l1, nonce);
    case Abandon(_) =>
  }

  lemma StepKeepsSeen(c: Crypto, y: Sys, step: Step, op: OpId)
    requires Enabled(y, step) && !ReadsVersion(step, op)
    ensures SeenBy(Do(c, y, step), op) == SeenBy(y, op) || SeenBy(Do(c, y, step), op) == None
  {
    if ByOther(step, op) {
      OthersKeepPlan(c, y, step, op);
    } else if !step.Restart? {
      OwnStepKeepsSeen(c, y, step);
    }
  }

  // ----- rows stay

  predicate TablesStay(y: Sys, z: Sys) {
    RowsStay(y.l1.rows, z.l1.rows) && RowsStay(y.l2.rows, z.l2.rows)
  }

  lemma FinishTokenKeepsRows(y: Sys, op: OpId, p: Pending)
    requires p.Token? && IdsOk(y.l1)
    ensures TablesStay(y, FinishToken(y, op, p))
  {
  }

  lemma Finish1KeepsRows(y: Sys, op: OpId, p: Pending)
    requires p.Ready1? && IdsOk(y.l1)
    ensures TablesStay(y, Finish1(y, op, p))
  {
    RotateStays(y.l1, p.name, p.seen + 1, Body1(p.useKeyId, p.text));
  }

  lemma Finish2KeepsRows(y: Sys, op: OpId, p: Pending)
    requires p.Ready2? && IdsOk(y.l2)
    ensures TablesStay(y, Finish2(y, op, p))
  {
    RotateStays(y.l2, p.name, p.seen + 1, Body2(p.l1, p.kt, p.text));
  }

  lemma FinishKeepsRows(y: Sys, op: OpId)
    requires op in y.pending && IdsOk(y.l1) && IdsOk(y.l2)
    ensures TablesStay(y, DoFinish(y, op))
  {
    var p := y.pending[op];
    match p
    case Token(_, _, _) => FinishTokenKeepsRows(y, op, p);
    case Ready1(_, _, _, _, _) => Finish1KeepsRows(y, op, p);
    case Ready2(_, _, _, _, _, _) => Finish2KeepsRows(y, op, p);
    case _ =>
  }

  lemma StepKeepsRows(c: Crypto, y: Sys, step: Step)
    requires SysInv(c, y) && Enabled(y, step)
    ensures TablesStay(y, Do(c, y, step))
  {
    if step.Finish? {
      FinishKeepsRows(y, step.op);
    } else {
      OnlyFinishStores(c, y, step);
    }
  }

  /** Rows stay, and so does the version read, unless the call is over. */
  predicate KeepsRead(y: Sys, z: Sys, op: OpId) {
    TablesStay(y, z) && (SeenBy(z, op) == SeenBy(y, op) || SeenBy(z, op) == None)
  }

  lemma KeepsReadTransitive(x: Sys, y: Sys, z: Sys, op: OpId)
    requires KeepsRead(x, y, op) && KeepsRead(y, z, op)
    ensures KeepsRead(x, z, op)
  {
  }

  lemma StepKeepsRead(c: Crypto, y: Sys, step: Step, op: OpId)
    requires SysInv(c, y) && Enabled(y, step) && !ReadsVersion(step, op)
    ensures KeepsRead(y, Do(c, y, step), op)
  {
    StepKeepsSeen(c, y, step, op);
    StepKeepsRows(c, y, step);
  }

  lemma {:induction false} RunKeepsSeen(c: Crypto, y: Sys, steps: seq<Step>, op: OpId)
    requires Lawful(c) && SysInv(c, y) && Follows(c, y, steps) && NoReads(steps, op)
    ensures SysInv(c, Run(c, y, steps)) && KeepsRead(y, Run(c, y, steps), op)
    decreases |steps|
  {
    if steps != [] {
      var z := Do(c, y, steps[0]);
      StepKeepsInv(c, y, steps[0]);
      StepKeepsRead(c, y, steps[0], op);
      RunKeepsSeen(c, z, steps[1..], op);
      KeepsReadTransitive(y, z, Run(c, z, steps[1..]), op);
    }
  }

  // ----- when a rotation is let in

  /** The finish step of a level-1 rotation adds its row exactly when the unique index and the serial ids let it. */
  lemma Finish1Adds(y: Sys, op: OpId)
    requires IdsOk(y.l1) && op in y.pending && y.pending[op].Ready1?
    ensures y.l1.next in DoFinish(y, op).l1.rows <==> CanInsert(y.l1, y.pending[op].name, y.pending[op].seen + 1)
  {
  }

  lemma Finish2Adds(y: Sys, op: OpId)
    requires IdsOk(y.l2) && op in y.pending && y.pending[op].Ready2?
    ensures y.l2.next in DoFinish(y, op).l2.rows <==>
      Named(y.pending[op].kt) && CanInsert(y.l2, y.pending[op].name, y.pending[op].seen + 1)
  {
  }

  lemma Plan1Sees(c: Crypto, y: Sys, op: OpId, name: string, key: KeySet)
    requires op !in y.pending
    ensures var z := DoPlan1(c, y, op, name, key);
      SeenBy(z, op) == None || SeenBy(z, op) == Some(Seen(1, name, MaxVersion(y.l1.rows, name)))
  {
  }

  /** The insert of a call that read the version of a table as it was then. */
  lemma LetIn1(was: Table<Body1>, z: Sys, op: OpId, name: string)
    requires TableOk(was) && TableOk(z.l1) && RowsStay(was.rows, z.l1.rows)
    requires op in z.pending && z.pending[op].Ready1? && SeenBy(z, op) == Some(Seen(1, name, MaxVersion(was.rows, name)))
    ensures z.l1.next in DoFinish(z, op).l1.rows <==>
      z.l1.next <= Decimal.MAX_INT64 && NamedIds(z.l1.rows, name) == NamedIds(was.rows, name)
  {
    NextIsLetInIff(was, z.l1, name);
    Finish1Adds(z, op);
  }

  lemma LetIn2(was: Table<Body2>, z: Sys, op: OpId, name: string)
    requires TableOk(was) && TableOk(z.l2) && RowsStay(was.rows, z.l2.rows)
    requires op in z.pending && z.pending[op].Ready2? && SeenBy(z, op) == Some(Seen(2, name, MaxVersion(was.rows, name)))
    ensures z.l2.next in DoFinish(z, op).l2.rows <==>
      Named(z.pending[op].kt) && z.l2.next <= Decimal.MAX_INT64 && NamedIds(z.l2.rows, name) == NamedIds(was.rows, name)
  {
    NextIsLetInIff(was, z.l2, name);
    Finish2Adds(z, op);
  }

  /** A level-1 rotation, from reading the version to its insert, with any steps of others in between: the insert is let
      in if and only if a serial id is left and no row of the name was added since the version was read. */
  lemma Rotation1LetInIff(c: Crypto, y: Sys, op: OpId, name: string, key: KeySet, steps: seq<Step>)
    requires Lawful(c) && SysInv(c, y) && op !in y.pending && NoReads(steps, op)
    requires Follows(c, DoPlan1(c, y, op, name, key), steps)
    requires var z := Run(c, DoPlan1(c, y, op, name, key), steps); op in z.pending && z.pending[op].Ready1?
    ensures var z := Run(c, DoPlan1(c, y, op, name, key), steps);
      z.l1.next in DoFinish(z, op).l1.rows <==>
        z.l1.next <= Decimal.MAX_INT64 && NamedIds(z.l1.rows, name) == NamedIds(y.l1.rows, name)
  {
    var planned := DoPlan1(c, y, op, name, key);
    Plan1KeepsInv(c, y, op, name, key);
    Plan1Sees(c, y, op, name, key);
    Plan1Plans(c, y, op, name, key);
    RunKeepsSeen(c, planned, steps, op);
    LetIn1(y.l1, Run(c, planned, steps), op, name);
  }

  /** What a call is about to read the version of. */
  function NameRead(y: Sys, read: Step): string
    requires Enabled(y, read) && (read.See? || read.PlanData?)
  {
    match read
    case See(op, _, _) => y.pending[op].name
    case PlanData(_, _, name, _, _, _, _) => name
  }

  lemma ReadSees(c: Crypto, y: Sys, read: Step)
    requires Enabled(y, read) && (read.See? || read.PlanData?)
    ensures var seen := SeenBy(Do(c, y, read), read.op);
      seen == None || seen == Some(Seen(2, NameRead(y, read), MaxVersion(y.l2.rows, NameRead(y, read))))
  {
  }

  /** A call reads the version, then any steps but another read of its own follow. */
  predicate ReadsThenRuns(c: Crypto, y: Sys, read: Step, steps: seq<Step>, z: Sys) {
    && Enabled(y, read) && (read.See? || read.PlanData?) && NoReads(steps, read.op)
    && Follows(c, Do(c, y, read), steps) && z == Run(c, Do(c, y, read), steps)
  }

  /** From the read to the insert the call keeps the version it read, and rows stay. */
  lemma WhatWasRead(c: Crypto, y: Sys, read: Step, steps: seq<Step>, z: Sys)
    requires Lawful(c) && SysInv(c, y) && ReadsThenRuns(c, y, read, steps, z)
    ensures TableOk(y.l2) && TableOk(z.l2) && RowsStay(y.l2.rows, z.l2.rows)
    ensures SeenBy(z, read.op) == None
      || SeenBy(z, read.op) == Some(Seen(2, NameRead(y, read), MaxVersion(y.l2.rows, NameRead(y, read))))
  {
    StepKeepsInv(c, y, read);
    ReadSees(c, y, read);
    OnlyFinishStores(c, y, read);
    RunKeepsSeen(c, Do(c, y, read), steps, read.op);
  }

  lemma ReadyHasSeen(z: Sys, op: OpId, was: Option<Seen>)
    requires op in z.pending && z.pending[op].Ready2? && (SeenBy(z, op) == None || SeenBy(z, op) == was)
    ensures SeenBy(z, op) == was
  {
  }

  lemma LetIn2Iff(was: Table<Body2>, z: Sys, op: OpId, name: string)
    requires TableOk(was) && TableOk(z.l2) && RowsStay(was.rows, z.l2.rows)
    requires op in z.pending && z.pending[op].Ready2?
    requires SeenBy(z, op) == None || SeenBy(z, op) == Some(Seen(2, name, MaxVersion(was.rows, name)))
    ensures z.l2.next in DoFinish(z, op).l2.rows <==>
      Named(z.pending[op].kt) && z.l2.next <= Decimal.MAX_INT64 && NamedIds(z.l2.rows, name) == NamedIds(was.rows, name)
  {
    ReadyHasSeen(z, op, Some(Seen(2, name, MaxVersion(was.rows, name))));
    LetIn2(was, z, op, name);
  }

  /** The same for a level-2 key set or data key, whose type must have a name too. */
  lemma Rotation2LetInIff(c: Crypto, y: Sys, read: Step, steps: seq<Step>, z: Sys, op: OpId, name: string)
    requires Lawful(c) && SysInv(c, y) && ReadsThenRuns(c, y, read, steps, z) && op == read.op && name == NameRead(y, read)
    requires op in z.pending && z.pending[op].Ready2?
    ensures z.l2.next in DoFinish(z, op).l2.rows <==>
      Named(z.pending[op].kt) && z.l2.next <= Decimal.MAX_INT64 && NamedIds(z.l2.rows, name) == NamedIds(y.l2.rows, name)
  {
    WhatWasRead(c, y, read, steps, z);
    LetIn2Iff(y.l2, z, op, name);
  }
}
