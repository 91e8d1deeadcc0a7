/** From the table to the client: what a caught-up server gives a client in one poll round. */
module EndToEnd {
  import opened Wrappers
  import opened ConfigTable
  import opened Pump
  import opened Delivery
  import opened ServerHistory
  import S = ServerModel
  import I = ServerInvariant
  import C = Client
  import opened ClientCore
  import Order

  // ----- requests are served once the dump is taken

  /** The dump has ended and the server has taken all of it. */
  predicate DumpTaken(y: System) {
    y.phase == Scanning && forall i :: 0 <= i < |y.queue| ==> !y.queue[i].dumped
  }

  /** The server starts to serve requests when it has taken the dump. */
  predicate ServesAfterDump(y: System, steps: seq<Step>)
    requires Follows(y, steps)
    decreases |steps|
  {
    steps != [] ==> (steps[0].ServeStep? ==> DumpTaken(y)) && ServesAfterDump(Do(y, steps[0]), steps[1..])
  }

  /** Until then nobody is registered. */
  predicate ServerOk(y: System) {
    S.Inv(y.srv) && (y.srv.listening == {} || DumpTaken(y))
  }

  lemma SaveUnheard(s: S.State, cfg: S.Configuration)
    requires S.Inv(s) && s.listening == {}
    ensures S.Inv(S.Save(s, cfg)) && S.Save(s, cfg).listening == {}
  {
    I.SaveKeepsCore(s, cfg);
    assert S.Hit(s.listening, S.SlotOf(cfg)) == {};
  }

  lemma {:induction false} EventsUnheard(s: S.State, evs: seq<S.Event>)
    requires s.listening == {}
    ensures S.ApplyEvents(s, evs).listening == {}
    decreases |evs|
  {
    if evs != [] {
      EventsUnheard(S.ApplyEvent(s, evs[0]), evs[1..]);
    }
  }

  lemma TakenStays(y: System, step: Step)
    requires Enabled(y, step) && DumpTaken(y)
    ensures DumpTaken(Do(y, step))
  {
  }

  lemma StepKeepsServerOk(y: System, step: Step)
    requires ServerOk(y) && Enabled(y, step) && (step.ServeStep? ==> DumpTaken(y))
    ensures ServerOk(Do(y, step))
  {
    if DumpTaken(y) {
      TakenStays(y, step);
    }
    match step
    case TakeDumped =>
      assert !DumpTaken(y);
      SaveUnheard(y.srv, y.queue[0].row.cfg);
    case TakeBatch(n) =>
      I.BatchKeepsInv(y.srv, Events(y.queue[..n]));
      if y.srv.listening == {} {
        EventsUnheard(y.srv, Events(y.queue[..n]));
      }
    case ServeStep(s) => I.StepKeepsInv(y.srv, s);
    case _ =>
  }

  lemma {:induction false} RunKeepsServerOk(y: System, steps: seq<Step>)
    requires ServerOk(y) && Follows(y, steps) && ServesAfterDump(y, steps)
    ensures ServerOk(Run(y, steps))
    decreases |steps|
  {
    if steps != [] {
      StepKeepsServerOk(y, steps[0]);
      RunKeepsServerOk(Do(y, steps[0]), steps[1..]);
    }
  }

  // ----- one poll round

  /** The row of an entry in the store the client's selectors lead to. */
  function RowOf(id: S.StoreId, k: S.RequestedKey): RowKey {
    RowKey(id.sel, id.opt, k.group, k.key)
  }

  lemma CaughtUpServes(z: System, id: S.StoreId, k: S.RequestedKey)
    requires SysInv(z) && CaughtUp(z) && RowOf(id, k) in Cached(z.db.rows, z.mark)
    ensures var slot := S.KeySlot(id, k);
      slot in z.srv.data && z.srv.data[slot] == z.db.rows[RowOf(id, k)].cfg
  {
    RowSlot(z.db, RowOf(id, k));
    assert RowOf(id, k) !in Window(z.db.rows, z.cursor, MAX_INT64);
  }

  /** Next to a server that has caught up, one poll round gives any client in the invariant the versions of the table. */
  lemma PollGivesTable(z: System, w: C.World, i: nat)
    requires SysInv(z) && CaughtUp(z) && C.WorldInv(w) && w.srv == z.srv && w.inflight == None && i < |w.requested|
    requires forall j :: 0 <= j < |w.requested| ==> RowOf(w.id, w.requested[j]) in Cached(z.db.rows, z.mark)
    ensures |C.PollRound(w).requested| == |w.requested| && RowOf(w.id, w.requested[i]) in z.db.rows
    ensures C.PollRound(w).requested[i].version == z.db.rows[RowOf(w.id, w.requested[i])].cfg.version
  {
    forall j | 0 <= j < |w.requested| ensures S.KeySlot(w.id, w.requested[j]) in w.srv.data {
      CaughtUpServes(z, w.id, w.requested[j]);
    }
    CaughtUpServes(z, w.id, w.requested[i]);
    C.FreshRoundEqualizes(w, i);
  }

  // ----- end to end

  /** A schedule without writers that gets all the work done. */
  predicate Finishes(y: System, after: seq<Step>) {
    y.phase != Idle && Follows(y, after) && ServesAfterDump(y, after) && NoWriters(after) && Progress(y, after) == Work(y)
  }

  /** A client that asks for cached rows of the store its selectors lead to, and is not ahead of them. */
  predicate Asks(z: System, requested: seq<S.RequestedKey>, sel: string, opt: string, id: S.StoreId) {
    && S.Resolve(z.srv.known, sel, opt) == Some(id) && Distinct(requested)
    && forall i :: 0 <= i < |requested| ==>
         && RowOf(id, requested[i]) in Cached(z.db.rows, z.mark)
         && Order.AtMost(requested[i].version, z.db.rows[RowOf(id, requested[i])].cfg.version)
  }

  lemma AsksIsNotAhead(z: System, requested: seq<S.RequestedKey>, sel: string, opt: string, id: S.StoreId)
    requires SysInv(z) && CaughtUp(z) && Asks(z, requested, sel, opt, id)
    ensures C.NotAhead(z.srv, id, requested)
  {
    forall i | 0 <= i < |requested|
      ensures PipeFree(requested[i].group) && Order.AtMost(requested[i].version, C.VersionAt(z.srv, S.KeySlot(id, requested[i])))
    {
      CaughtUpServes(z, id, requested[i]);
    }
  }

  lemma StoredGroups(z: System)
    requires SysInv(z)
    ensures C.StoredPipeFree(z.srv)
  {
    forall sl | sl in z.srv.data ensures PipeFree(z.srv.data[sl].group) {
      assert KeyOf(z.srv.data[sl]) in z.db.rows;
    }
  }

  lemma StartServerOk()
    ensures ServerOk(START)
  {
  }

  lemma BeforeTheWork(before: seq<Step>)
    requires Follows(START, before) && ServesAfterDump(START, before)
    ensures SysInv(Run(START, before)) && ServerOk(Run(START, before))
  {
    StartServerOk();
    RunKeepsInv(START, before);
    RunKeepsServerOk(START, before);
  }

  lemma AfterTheWork(y: System, after: seq<Step>)
    requires SysInv(y) && ServerOk(y) && Finishes(y, after)
    ensures SysInv(Run(y, after)) && CaughtUp(Run(y, after)) && S.Inv(Run(y, after).srv) && Run(y, after).db == y.db
  {
    EveryScheduleCatchesUp(y, after);
    RunKeepsServerOk(y, after);
  }

  lemma FreshClientGetsTable(z: System, requested: seq<S.RequestedKey>, sel: string, opt: string, id: S.StoreId, i: nat)
    requires SysInv(z) && CaughtUp(z) && S.Inv(z.srv) && Asks(z, requested, sel, opt, id) && i < |requested|
    ensures var v := C.PollRound(C.FreshWorld(z.srv, requested, sel, opt, id));
      && |v.requested| == |requested| && RowOf(id, requested[i]) in z.db.rows
      && v.requested[i].version == z.db.rows[RowOf(id, requested[i])].cfg.version
  {
    StoredGroups(z);
    AsksIsNotAhead(z, requested, sel, opt, id);
    C.FreshWorldInvAt(z.srv, requested, sel, opt, id);
    PollGivesTable(z, C.FreshWorld(z.srv, requested, sel, opt, id), i);
  }

  /** After any run of writers, pump, server and requests: once the writers stop and a schedule has done all the work, one
      poll round gives every such client exactly the version the table has of each key. */
  lemma ClientGetsTable(before: seq<Step>, after: seq<Step>, requested: seq<S.RequestedKey>, sel: string, opt: string,
                        id: S.StoreId, i: nat)
    requires Follows(START, before) && ServesAfterDump(START, before) && Finishes(Run(START, before), after)
    requires Asks(Run(Run(START, before), after), requested, sel, opt, id) && i < |requested|
    ensures var table := Run(START, before).db.rows;
      var v := C.PollRound(C.FreshWorld(Run(Run(START, before), after).srv, requested, sel, opt, id));
      && |v.requested| == |requested| && RowOf(id, requested[i]) in table
      && v.requested[i].version == table[RowOf(id, requested[i])].cfg.version
  {
    BeforeTheWork(before);
    AfterTheWork(Run(START, before), after);
    FreshClientGetsTable(Run(Run(START, before), after), requested, sel, opt, id, i);
  }
}
