/** Every step of the configuration server keeps its invariant. */
module ServerInvariant {
  import opened ServerModel

  // ----- counting registrations

  lemma SubsetSize<T>(a: set<T>, b: set<T>)
    requires a <= b
    ensures |a| <= |b|
  {
    assert b == a + (b - a);
    assert |b| == |a| + |b - a|;
  }

  /** A set of keys drawn from a sequence is no larger than the sequence, however many entries repeat. */
  lemma {:induction false} DistinctKeys(rid: ReqId, id: StoreId, keys: seq<string>)
    ensures |Registrations(rid, id, keys)| <= |keys|
  {
    if keys == [] {
      assert Registrations(rid, id, keys) == {};
    } else {
      DistinctKeys(rid, id, keys[1..]);
      var first := {Registration(Slot(id, keys[0]), rid)};
      assert Registrations(rid, id, keys) == first + Registrations(rid, id, keys[1..]) by {
        assert keys == [keys[0]] + keys[1..];
      }
    }
  }

  /** A save uses up one registration of each request it notifies. */
  lemma SaveSpendsOne(s: State, cfg: Configuration, r: ReqId)
    requires ListenersOk(s)
    requires r in Hit(s.listening, SlotOf(cfg))
    ensures |Regs(Save(s, cfg), r)| == |Regs(s, r)| - 1
  {
    var l := Registration(SlotOf(cfg), r);
    assert l in Regs(s, r);
    assert Regs(Save(s, cfg), r) == Regs(s, r) - {l};
  }

  lemma SaveSparesOthers(s: State, cfg: Configuration, r: ReqId)
    requires r !in Hit(s.listening, SlotOf(cfg))
    ensures Regs(Save(s, cfg), r) == Regs(s, r)
  {
    assert forall l :: l in Regs(s, r) ==> l == Registration(l.slot, r);
  }

  // ----- events

  lemma SaveKeepsConserved(s: State, cfg: Configuration)
    requires Core(s)
    ensures Conserved(Save(s, cfg))
  {
    var t := Save(s, cfg);
    forall r | r in t.chans
      ensures |t.chans[r].sent| + |Regs(t, r)| <= t.chans[r].cap && t.chans[r].received <= |t.chans[r].sent|
    {
      if r in Hit(s.listening, SlotOf(cfg)) {
        SaveSpendsOne(s, cfg, r);
      } else {
        SaveSparesOthers(s, cfg, r);
      }
    }
  }

  lemma SaveKeepsCore(s: State, cfg: Configuration)
    requires Core(s)
    ensures Core(Save(s, cfg))
  {
    SaveKeepsConserved(s, cfg);
  }

  lemma DeleteKeepsConserved(s: State, cfg: Configuration)
    requires Conserved(s)
    ensures Conserved(Delete(s, cfg))
  {
    var t := Delete(s, cfg);
    forall r | r in t.chans ensures |Regs(t, r)| <= |Regs(s, r)| {
      SubsetSize(Regs(t, r), Regs(s, r));
    }
  }

  lemma DeleteKeepsCore(s: State, cfg: Configuration)
    requires Core(s)
    ensures Core(Delete(s, cfg))
  {
    DeleteKeepsConserved(s, cfg);
  }

  lemma EventKeepsOnlyCore(s: State, ev: Event)
    requires Core(s)
    ensures Core(ApplyEvent(s, ev))
  {
    if IsSave(ev) {
      SaveKeepsCore(s, ev.cfg);
    } else if IsDelete(ev) {
      DeleteKeepsCore(s, ev.cfg);
    }
  }

  lemma EventKeepsCore(s: State, ev: Event, open: set<ReqId>)
    requires Core(s) && ClosedOk(s, open)
    ensures Core(ApplyEvent(s, ev)) && ClosedOk(ApplyEvent(s, ev), open + HitBy(s, ev))
  {
    EventKeepsOnlyCore(s, ev);
  }

  lemma {:induction false} EventsKeepCore(s: State, evs: seq<Event>, open: set<ReqId>)
    requires Core(s) && ClosedOk(s, open)
    ensures Core(ApplyEvents(s, evs)) && ClosedOk(ApplyEvents(s, evs), open + Notified(s, evs))
    decreases |evs|
  {
    if evs == [] {
      assert open + Notified(s, evs) == open;
    } else {
      var t := ApplyEvent(s, evs[0]);
      EventKeepsCore(s, evs[0], open);
      EventsKeepCore(t, evs[1..], open + HitBy(s, evs[0]));
      assert open + HitBy(s, evs[0]) + Notified(t, evs[1..]) == open + Notified(s, evs);
    }
  }

  lemma {:induction false} NotifiedCarried(s: State, evs: seq<Event>, r: ReqId)
    requires Core(s) && r in s.chans
    requires r in Notified(s, evs) || s.chans[r].sent != []
    ensures r in ApplyEvents(s, evs).chans && ApplyEvents(s, evs).chans[r].sent != []
    decreases |evs|
  {
    if evs != [] {
      EventKeepsOnlyCore(s, evs[0]);
      NotifiedCarried(ApplyEvent(s, evs[0]), evs[1..], r);
    }
  }

  lemma CloseKeepsCore(s: State, rs: set<ReqId>)
    requires Core(s)
    ensures Core(s.(chans := CloseAll(s.chans, rs)))
  {
    var t := s.(chans := CloseAll(s.chans, rs));
    assert forall r :: Regs(t, r) == Regs(s, r);
  }

  lemma {:induction false} EventsKeepChans(s: State, evs: seq<Event>)
    ensures ApplyEvents(s, evs).chans.Keys == s.chans.Keys
    decreases |evs|
  {
    if evs != [] {
      EventsKeepChans(ApplyEvent(s, evs[0]), evs[1..]);
    }
  }

  /** Closing exactly the channels that may still be open restores the invariant. */
  lemma CloseRestores(s: State, rs: set<ReqId>)
    requires Core(s) && ClosedOk(s, rs)
    requires forall r :: r in s.chans && r in rs ==> s.chans[r].sent != []
    ensures Inv(s.(chans := CloseAll(s.chans, rs)))
  {
    CloseKeepsCore(s, rs);
  }

  lemma BatchKeepsInv(s: State, evs: seq<Event>)
    requires Inv(s)
    ensures Inv(Batch(s, evs))
  {
    var t := ApplyEvents(s, evs);
    var rs := Notified(s, evs);
    EventsKeepCore(s, evs, {});
    assert {} + rs == rs;
    EventsKeepChans(s, evs);
    forall r | r in t.chans && r in rs ensures t.chans[r].sent != [] {
      NotifiedCarried(s, evs, r);
    }
    CloseRestores(t, rs);
  }

  // ----- requests

  lemma NoRegs(s: State, rid: ReqId)
    requires ListenersOk(s) && rid !in s.waits
    ensures Regs(s, rid) == {}
  {
  }

  /** A direct answer is a closed, non-empty channel nobody is registered for. */
  lemma DirectKeepsConserved(s: State, rid: ReqId, cfgs: seq<Configuration>)
    requires Conserved(s) && ListenersOk(s) && rid !in s.chans
    ensures Conserved(s.(chans := s.chans[rid := DirectChan(cfgs)]))
  {
    var t := s.(chans := s.chans[rid := DirectChan(cfgs)]);
    assert forall r :: Regs(t, r) == Regs(s, r);
    assert Regs(s, rid) == {} by {
      assert forall l :: l in Regs(s, rid) ==> l.req in s.chans;
    }
  }

  lemma DirectKeepsInv(s: State, rid: ReqId, cfgs: seq<Configuration>)
    requires Inv(s) && rid !in s.chans && rid !in s.arrived && rid <= s.lastId && cfgs != []
    ensures Inv(s.(chans := s.chans[rid := DirectChan(cfgs)]))
  {
    DirectKeepsConserved(s, rid, cfgs);
  }

  /** Requests between the checks have ids below the last and no channel yet. */
  predicate ArrivedFit(s: State, id: nat, arrived: map<ReqId, Request>) {
    forall r :: r in arrived ==> r <= id && r !in s.chans && r !in s.waits
  }

  lemma ArrivedFits(s: State, id: nat, rid: ReqId, req: Request)
    requires IdsOk(s) && s.lastId <= id
    ensures ArrivedFit(s, id, s.arrived) && ArrivedFit(s, id, s.arrived - {rid})
    ensures s.lastId < rid <= id ==> ArrivedFit(s, id, s.arrived[rid := req])
  {
  }

  lemma BumpKeepsInv(s: State, id: nat, arrived: map<ReqId, Request>)
    requires Inv(s) && s.lastId <= id && ArrivedFit(s, id, arrived)
    ensures Inv(s.(lastId := id, arrived := arrived))
  {
    var t := s.(lastId := id, arrived := arrived);
    assert forall r :: Regs(t, r) == Regs(s, r);
  }

  lemma AnsweredKeepsInv(s: State, rid: ReqId, cfgs: seq<Configuration>)
    requires Inv(s) && s.lastId < rid && cfgs != []
    ensures Inv(s.(lastId := rid, chans := s.chans[rid := DirectChan(cfgs)]))
  {
    ArrivedFits(s, rid, rid, Request([], "", ""));
    BumpKeepsInv(s, rid, s.arrived);
    var t := s.(lastId := rid, arrived := s.arrived);
    DirectKeepsInv(t, rid, cfgs);
  }

  lemma ArriveKeepsInv(s: State, req: Request)
    requires Inv(s)
    ensures Inv(Arrive(s, req))
  {
    ArriveWithKeepsInv(s, req, Check(s, req));
  }

  lemma ArriveShape(s: State, req: Request, answer: Answer)
    ensures var rid := s.lastId + 1;
      ArriveWith(s, req, answer) ==
        match answer
        case Unknown => s.(lastId := rid, arrived := s.arrived)
        case Updates(cfgs) => s.(lastId := rid, chans := s.chans[rid := DirectChan(cfgs)])
        case UpToDate(_) => s.(lastId := rid, arrived := s.arrived[rid := req])
  {
  }

  lemma ArriveWithKeepsInv(s: State, req: Request, answer: Answer)
    requires Inv(s) && (answer.Updates? ==> answer.cfgs != [])
    ensures Inv(ArriveWith(s, req, answer))
  {
    ArriveShape(s, req, answer);
    ArrivedFits(s, s.lastId + 1, s.lastId + 1, req);
    match answer
    case Unknown => BumpKeepsInv(s, s.lastId + 1, s.arrived);
    case Updates(cfgs) => AnsweredKeepsInv(s, s.lastId + 1, cfgs);
    case UpToDate(_) => BumpKeepsInv(s, s.lastId + 1, s.arrived[s.lastId + 1 := req]);
  }

  lemma RegisterAddsRegs(s: State, rid: ReqId, id: StoreId, req: Request)
    requires ListenersOk(s) && rid !in s.waits
    ensures Regs(Register(s, rid, id, req), rid) == Registrations(rid, id, Keys(req.requested))
    ensures forall r :: r != rid ==> Regs(Register(s, rid, id, req), r) == Regs(s, r)
  {
    NoRegs(s, rid);
  }

  lemma RegisterKeepsCounts(s: State, rid: ReqId, id: StoreId, req: Request)
    requires Conserved(s) && ListenersOk(s) && rid !in s.chans && rid !in s.waits
    ensures Conserved(Register(s, rid, id, req))
  {
    RegisterAddsRegs(s, rid, id, req);
    DistinctKeys(rid, id, Keys(req.requested));
  }

  lemma RegisterKeepsListeners(s: State, rid: ReqId, id: StoreId, req: Request)
    requires ListenersOk(s) && rid !in s.chans && rid !in s.waits && AllKnown(s.data, id, req.requested)
    ensures ListenersOk(Register(s, rid, id, req))
  {
    var keys := Keys(req.requested);
    forall l | l in Registrations(rid, id, keys) ensures l.slot in s.data {
      var i :| 0 <= i < |keys| && keys[i] == l.slot.key;
      assert KeySlot(id, req.requested[i]) == l.slot;
    }
  }

  lemma RegisterKeepsInv(s: State, rid: ReqId, id: StoreId, req: Request)
    requires Inv(s) && rid !in s.chans && rid !in s.waits && rid !in s.arrived && rid <= s.lastId
    requires id in s.known && AllKnown(s.data, id, req.requested)
    ensures Inv(Register(s, rid, id, req))
  {
    RegisterKeepsCounts(s, rid, id, req);
    RegisterKeepsListeners(s, rid, id, req);
  }

  lemma WaitKeepsInv(s: State, rid: ReqId)
    requires Inv(s)
    ensures Inv(Wait(s, rid))
  {
    if rid in s.arrived {
      var req := s.arrived[rid];
      ArrivedFits(s, s.lastId, rid, req);
      BumpKeepsInv(s, s.lastId, s.arrived - {rid});
      var t := s.(arrived := s.arrived - {rid});
      match Check(s, req)
      case Unknown =>
      case Updates(cfgs) => DirectKeepsInv(t, rid, cfgs);
      case UpToDate(id) => RegisterKeepsInv(t, rid, id, req);
    }
  }

  lemma CancelClears(s: State, rid: ReqId)
    requires ListenersOk(s) && rid in s.waits
    ensures Regs(Cancel(s, rid), rid) == {}
    ensures forall r :: r != rid ==> Regs(Cancel(s, rid), r) == Regs(s, r)
  {
  }

  lemma CancelKeepsCounts(s: State, rid: ReqId)
    requires Core(s) && rid in s.waits
    ensures Conserved(Cancel(s, rid))
  {
    CancelClears(s, rid);
  }

  lemma CancelKeepsListeners(s: State, rid: ReqId)
    requires ListenersOk(s) && rid in s.waits
    ensures ListenersOk(Cancel(s, rid))
  {
    CancelClears(s, rid);
    var t := Cancel(s, rid);
    assert forall l :: l in t.listening && l.req == rid ==> l in Regs(t, rid);
  }

  lemma CancelKeepsInv(s: State, rid: ReqId)
    requires Inv(s)
    ensures Inv(Cancel(s, rid))
  {
    if rid in s.waits {
      CancelKeepsCounts(s, rid);
      CancelKeepsListeners(s, rid);
    }
  }

  lemma ReceiveKeepsInv(s: State, rid: ReqId)
    requires Inv(s)
    ensures Inv(Receive(s, rid))
  {
    assert forall r :: Regs(Receive(s, rid), r) == Regs(s, r);
  }

  /** The step theorem: conservation, unique ids, live registrations and closed-iff-carried survive every step. */
  lemma StepKeepsInv(s: State, step: Step)
    requires Inv(s)
    ensures Inv(Do(s, step))
  {
    match step
    case BatchStep(evs) => BatchKeepsInv(s, evs);
    case ArriveStep(req) => ArriveKeepsInv(s, req);
    case WaitStep(rid) => WaitKeepsInv(s, rid);
    case CancelStep(rid) => CancelKeepsInv(s, rid);
    case ReceiveStep(rid) => ReceiveKeepsInv(s, rid);
  }

  lemma {:induction false} RunKeepsInv(s: State, steps: seq<Step>)
    requires Inv(s)
    ensures Inv(Run(s, steps))
    decreases |steps|
  {
    if steps != [] {
      StepKeepsInv(s, steps[0]);
      RunKeepsInv(Do(s, steps[0]), steps[1..]);
    }
  }

  lemma InitInv()
    ensures Inv(INIT)
  {
  }

  lemma Reachable(steps: seq<Step>)
    ensures Inv(Run(INIT, steps))
  {
    InitInv();
    RunKeepsInv(INIT, steps);
  }
}
