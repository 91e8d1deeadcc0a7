/** One polling client (configure/configclient/client.go) and one server: versions only move forward. */
module Client {
  import Order
  import opened Wrappers
  import opened ServerModel
  import opened ServerHistory
  import opened ServerInvariant
  import ServerDelivery
  import opened ClientCore

  // ----- one client and one server

  /** high is the highest version the server ever held per key of the store the client's selectors resolve to. */
  datatype World = World(srv: State, requested: seq<RequestedKey>, inflight: Option<ReqId>,
                         sel: string, opt: string, id: StoreId, high: map<string, string>)

  function RequestOf(w: World): Request {
    Request(w.requested, w.sel, w.opt)
  }

  function SlotAt(w: World, i: nat): Slot
    requires i < |w.requested|
  {
    KeySlot(w.id, w.requested[i])
  }

  predicate InStore(w: World, ev: Event) {
    SlotOf(ev.cfg).store == w.id
  }

  /** A save may not go below what the key ever had. */
  predicate Grows(w: World, ev: Event) {
    && PipeFree(ev.cfg.group)
    && (IsSave(ev) && InStore(w, ev) && SlotOf(ev.cfg).key in w.high ==>
          Order.AtMost(w.high[SlotOf(ev.cfg).key], ev.cfg.version))
  }

  function HighAfter(w: World, ev: Event): map<string, string> {
    if IsSave(ev) && InStore(w, ev) then w.high[SlotOf(ev.cfg).key := ev.cfg.version] else w.high
  }

  function PushOne(w: World, ev: Event): World {
    w.(srv := ApplyEvent(w.srv, ev), high := HighAfter(w, ev))
  }

  function PushAll(w: World, evs: seq<Event>): World
    decreases |evs|
  {
    if evs == [] then w else PushAll(PushOne(w, evs[0]), evs[1..])
  }

  predicate AllGrow(w: World, evs: seq<Event>)
    decreases |evs|
  {
    evs == [] || (Grows(w, evs[0]) && Resolved(PushOne(w, evs[0])) && AllGrow(PushOne(w, evs[0]), evs[1..]))
  }

  predicate Resolved(w: World) {
    Resolve(w.srv.known, w.sel, w.opt) == Some(w.id)
  }

  datatype Move = Push(evs: seq<Event>)        // one batch of the pump loop
                | Poll                          // the client sends its request
                | SecondCheck                   // the server's locked check of that request
                | Deliver                       // the closed channel's contents reach the client
                | TimedOut                      // the handler answers that nothing changed
                | Elsewhere(step: Step)         // other requests

  predicate Enabled(w: World, m: Move) {
    match m
    case Push(evs) => AllGrow(w, evs)
    case Poll => w.inflight == None
    case SecondCheck => w.inflight.Some?
    case Deliver => w.inflight.Some? && w.inflight.value in w.srv.chans && w.srv.chans[w.inflight.value].closed
    case TimedOut => w.inflight.Some?
    case Elsewhere(s) => !s.BatchStep? && (s.WaitStep? ==> w.inflight != Some(s.rid))
  }

  /** The request is still on its way: between the checks, waiting, or answered. */
  function StillInflight(s: State, rid: ReqId): Option<ReqId> {
    if rid in s.arrived || rid in s.chans then Some(rid) else None
  }

  function Make(w: World, m: Move): World
    requires Enabled(w, m)
  {
    match m
    case Push(evs) => PushAll(w, evs).(srv := Batch(w.srv, evs))
    case Poll => var s := Arrive(w.srv, RequestOf(w)); w.(srv := s, inflight := StillInflight(s, s.lastId))
    case SecondCheck =>
      var s := Wait(w.srv, w.inflight.value); w.(srv := s, inflight := StillInflight(s, w.inflight.value))
    case Deliver => w.(requested := Absorb(w.requested, w.srv.chans[w.inflight.value].sent), inflight := None)
    case TimedOut => w.(inflight := None)
    case Elsewhere(s) => w.(srv := Do(w.srv, s))
  }

  // ----- the invariant

  /** Stored versions are the highest ever; the client is never ahead. */
  predicate VersionsOk(w: World) {
    && (forall sl :: sl in w.srv.data && sl.store == w.id ==>
          sl.key in w.high && w.srv.data[sl].version == w.high[sl.key])
    && (forall sl :: sl in w.srv.data ==> PipeFree(w.srv.data[sl].group))
    && (forall i :: 0 <= i < |w.requested| ==>
          && PipeFree(w.requested[i].group)
          && SlotAt(w, i).key in w.high && Order.AtMost(w.requested[i].version, w.high[SlotAt(w, i).key]))
  }

  /** A configuration of the entry's key lies between the client's version and the highest. */
  predicate Between(w: World, i: nat, cfg: Configuration)
    requires i < |w.requested|
  {
    SlotOf(cfg).key == SlotAt(w, i).key ==>
      && SlotAt(w, i).key in w.high
      && Order.AtMost(w.requested[i].version, cfg.version)
      && Order.AtMost(cfg.version, w.high[SlotAt(w, i).key])
  }

  /** Every configuration in the channel does. */
  predicate SentBetween(w: World, sent: seq<Configuration>) {
    forall i, j :: 0 <= i < |w.requested| && 0 <= j < |sent| ==> Between(w, i, sent[j])
  }

  /** As long as a key is registered for the request, client and server hold the same version of it. */
  predicate RegisteredEqual(w: World, rid: ReqId) {
    && (forall l :: l in w.srv.listening && l.req == rid ==> l.slot.store == w.id)
    && (forall i :: 0 <= i < |w.requested| && Registration(SlotAt(w, i), rid) in w.srv.listening ==>
          SlotAt(w, i).key in w.high && w.requested[i].version == w.high[SlotAt(w, i).key])
  }

  predicate InflightOk(w: World) {
    w.inflight.Some? ==>
      var rid := w.inflight.value;
      && rid <= w.srv.lastId
      && (rid in w.srv.arrived ==> w.srv.arrived[rid] == RequestOf(w))
      && (rid in w.srv.chans ==> SentBetween(w, w.srv.chans[rid].sent))
      && RegisteredEqual(w, rid)
  }

  predicate Mid(w: World) {
    Core(w.srv) && Resolved(w) && Distinct(w.requested) && VersionsOk(w) && InflightOk(w)
  }

  predicate WorldInv(w: World) {
    Mid(w) && Inv(w.srv)
  }

  // ----- pushes

  lemma HighGrows(w: World, ev: Event, k: string)
    requires Grows(w, ev) && k in w.high
    ensures k in HighAfter(w, ev) && Order.AtMost(w.high[k], HighAfter(w, ev)[k])
  {
  }

  lemma PushKeepsVersions(w: World, ev: Event)
    requires Mid(w) && Grows(w, ev)
    ensures VersionsOk(PushOne(w, ev))
  {
    var v := PushOne(w, ev);
    forall i | 0 <= i < |v.requested|
      ensures SlotAt(v, i).key in v.high && Order.AtMost(v.requested[i].version, v.high[SlotAt(v, i).key])
    {
      assert SlotAt(v, i) == SlotAt(w, i);
      HighGrows(w, ev, SlotAt(w, i).key);
      Order.AtMostTransitive(w.requested[i].version, w.high[SlotAt(w, i).key], v.high[SlotAt(w, i).key]);
    }
  }

  lemma PushKeepsRegistered(w: World, ev: Event, rid: ReqId)
    requires RegisteredEqual(w, rid)
    ensures RegisteredEqual(PushOne(w, ev), rid)
  {
    var v := PushOne(w, ev);
    forall i | 0 <= i < |v.requested| && Registration(SlotAt(v, i), rid) in v.srv.listening
      ensures SlotAt(v, i).key in v.high && v.requested[i].version == v.high[SlotAt(v, i).key]
    {
      assert SlotAt(v, i) == SlotAt(w, i);
      assert IsSave(ev) ==> SlotAt(w, i) != SlotOf(ev.cfg);
      assert SlotAt(w, i).store == w.id;
    }
  }

  lemma OldStaysBetween(w: World, ev: Event, i: nat, cfg: Configuration)
    requires Grows(w, ev) && i < |w.requested| && Between(w, i, cfg)
    ensures Between(PushOne(w, ev), i, cfg)
  {
    var v := PushOne(w, ev);
    assert SlotAt(v, i) == SlotAt(w, i);
    if SlotOf(cfg).key == SlotAt(w, i).key {
      HighGrows(w, ev, SlotAt(w, i).key);
      Order.AtMostTransitive(cfg.version, w.high[SlotAt(w, i).key], v.high[SlotAt(w, i).key]);
    }
  }

  /** A configuration is sent only while client and server agree, so it can only be newer than the client's. */
  lemma NewIsBetween(w: World, ev: Event, rid: ReqId, i: nat)
    requires RegisteredEqual(w, rid) && Grows(w, ev) && rid in HitBy(w.srv, ev) && i < |w.requested|
    ensures Between(PushOne(w, ev), i, ev.cfg)
  {
    assert SlotAt(PushOne(w, ev), i) == SlotAt(w, i);
    if SlotOf(ev.cfg).key == SlotAt(w, i).key {
      assert Registration(SlotOf(ev.cfg), rid) in w.srv.listening;
      assert SlotOf(ev.cfg) == SlotAt(w, i);
    }
  }

  lemma SentAfter(s: State, ev: Event, rid: ReqId)
    requires rid in s.chans
    ensures rid in ApplyEvent(s, ev).chans
    ensures ApplyEvent(s, ev).chans[rid].sent == s.chans[rid].sent + if rid in HitBy(s, ev) then [ev.cfg] else []
  {
  }

  lemma SentAppend(w: World, sent: seq<Configuration>, cfg: Configuration)
    requires SentBetween(w, sent) && forall i :: 0 <= i < |w.requested| ==> Between(w, i, cfg)
    ensures SentBetween(w, sent + [cfg])
  {
  }

  lemma PushKeepsSent(w: World, ev: Event, rid: ReqId)
    requires Grows(w, ev) && RegisteredEqual(w, rid) && rid in w.srv.chans && SentBetween(w, w.srv.chans[rid].sent)
    ensures rid in PushOne(w, ev).srv.chans && SentBetween(PushOne(w, ev), PushOne(w, ev).srv.chans[rid].sent)
  {
    var v := PushOne(w, ev);
    var was := w.srv.chans[rid].sent;
    SentAfter(w.srv, ev, rid);
    forall i, j | 0 <= i < |v.requested| && 0 <= j < |was| ensures Between(v, i, was[j]) {
      OldStaysBetween(w, ev, i, was[j]);
    }
    if rid in HitBy(w.srv, ev) {
      forall i | 0 <= i < |v.requested| ensures Between(v, i, ev.cfg) {
        NewIsBetween(w, ev, rid, i);
      }
      SentAppend(v, was, ev.cfg);
    } else {
      assert was + [] == was;
    }
  }

  lemma PushKeepsMid(w: World, ev: Event)
    requires Mid(w) && Grows(w, ev) && Resolved(PushOne(w, ev))
    ensures Mid(PushOne(w, ev))
  {
    EventKeepsOnlyCore(w.srv, ev);
    PushKeepsVersions(w, ev);
    if w.inflight.Some? {
      PushKeepsRegistered(w, ev, w.inflight.value);
      if w.inflight.value in w.srv.chans {
        PushKeepsSent(w, ev, w.inflight.value);
      }
    }
  }

  lemma {:induction false} PushesKeepMid(w: World, evs: seq<Event>)
    requires Mid(w) && AllGrow(w, evs)
    ensures Mid(PushAll(w, evs)) && PushAll(w, evs).srv == ApplyEvents(w.srv, evs)
    ensures PushAll(w, evs) == w.(srv := PushAll(w, evs).srv, high := PushAll(w, evs).high)
    decreases |evs|
  {
    if evs != [] {
      PushKeepsMid(w, evs[0]);
      PushesKeepMid(PushOne(w, evs[0]), evs[1..]);
    }
  }

  /** SentBetween looks only at the client and the highest versions. */
  lemma SentFrame(w: World, v: World, sent: seq<Configuration>)
    requires SentBetween(w, sent) && v.requested == w.requested && v.high == w.high && v.id == w.id
    ensures SentBetween(v, sent)
  {
    forall i, j | 0 <= i < |v.requested| && 0 <= j < |sent| ensures Between(v, i, sent[j]) {
      assert SlotAt(v, i) == SlotAt(w, i) && Between(w, i, sent[j]);
    }
  }

  /** The versions part of the invariant looks only at the stored data and the client. */
  lemma VersionsFrame(w: World, v: World)
    requires VersionsOk(w) && v.srv.data == w.srv.data && v.high == w.high && v.id == w.id && v.requested == w.requested
    ensures VersionsOk(v)
  {
    assert forall i :: 0 <= i < |w.requested| ==> SlotAt(v, i) == SlotAt(w, i);
  }

  /** A server step that leaves the stores alone and adds nothing to the request in flight. */
  predicate Spares(was: State, now: State, inflight: Option<ReqId>) {
    && now.known == was.known && now.data == was.data && was.lastId <= now.lastId
    && (inflight.Some? ==>
          var rid := inflight.value;
          && (rid in now.arrived ==> rid in was.arrived && now.arrived[rid] == was.arrived[rid])
          && (rid in now.chans ==> rid in was.chans && now.chans[rid].sent == was.chans[rid].sent)
          && (forall l :: l in now.listening && l.req == rid ==> l in was.listening))
  }

  lemma SparingKeepsInflight(w: World, s: State)
    requires InflightOk(w) && Spares(w.srv, s, w.inflight)
    ensures InflightOk(w.(srv := s))
  {
    var v := w.(srv := s);
    if w.inflight.Some? {
      assert forall i :: 0 <= i < |w.requested| ==> SlotAt(v, i) == SlotAt(w, i);
      if w.inflight.value in s.chans {
        SentFrame(w, v, s.chans[w.inflight.value].sent);
      }
    }
  }

  lemma SparingKeepsMid(w: World, s: State)
    requires Mid(w) && Core(s) && Spares(w.srv, s, w.inflight)
    ensures Mid(w.(srv := s))
  {
    VersionsFrame(w, w.(srv := s));
    SparingKeepsInflight(w, s);
  }

  lemma PushKeepsInv(w: World, evs: seq<Event>)
    requires WorldInv(w) && AllGrow(w, evs)
    ensures WorldInv(Make(w, Push(evs)))
  {
    PushesKeepMid(w, evs);
    BatchKeepsInv(w.srv, evs);
    SparingKeepsMid(PushAll(w, evs), Batch(w.srv, evs));
  }

  // ----- the two checks

  /** A direct answer lies between the client's versions and the highest. */
  lemma DirectBetween(w: World)
    requires Core(w.srv) && VersionsOk(w)
    ensures SentBetween(w, Newer(w.srv.data, w.id, w.requested))
  {
    var sent := Newer(w.srv.data, w.id, w.requested);
    forall i, j | 0 <= i < |w.requested| && 0 <= j < |sent| ensures Between(w, i, sent[j]) {
      var m := ServerDelivery.NewerIsStored(w.srv.data, w.id, w.requested, j);
      assert SlotOf(sent[j]) == SlotAt(w, m);
    }
  }

  lemma CheckNews(s: State, req: Request, id: StoreId)
    requires Resolve(s.known, req.selectors, req.optionalSelectors) == Some(id) && Check(s, req).Updates?
    ensures Check(s, req).cfgs == Newer(s.data, id, req.requested)
  {
  }

  lemma NobodyRegistered(w: World, rid: ReqId)
    requires forall l :: l in w.srv.listening ==> l.req != rid
    ensures RegisteredEqual(w, rid)
  {
  }

  lemma PollKeepsInflight(w: World, answer: Answer)
    requires WorldInv(w) && answer == Check(w.srv, RequestOf(w))
    ensures var s := ArriveWith(w.srv, RequestOf(w), answer);
      InflightOk(w.(srv := s, inflight := StillInflight(s, s.lastId)))
  {
    var s := ArriveWith(w.srv, RequestOf(w), answer);
    var v := w.(srv := s, inflight := StillInflight(s, s.lastId));
    NobodyRegistered(v, s.lastId);
    if answer.Updates? {
      CheckNews(w.srv, RequestOf(w), w.id);
      DirectBetween(w);
      SentFrame(w, v, answer.cfgs);
    }
  }

  lemma PollKeepsInv(w: World)
    requires WorldInv(w) && w.inflight == None
    ensures WorldInv(Make(w, Poll))
  {
    ArriveKeepsInv(w.srv, RequestOf(w));
    PollKeepsInflight(w, Check(w.srv, RequestOf(w)));
    VersionsFrame(w, Make(w, Poll));
  }

  /** What registration means: with no update to report, every stored version is the client's own. */
  lemma UpToDateEqual(w: World, i: nat)
    requires Mid(w) && Check(w.srv, RequestOf(w)).UpToDate? && i < |w.requested|
    ensures Check(w.srv, RequestOf(w)).store == w.id
    ensures SlotAt(w, i) in w.srv.data && w.srv.data[SlotAt(w, i)].version == w.requested[i].version
  {
    var slot := SlotAt(w, i);
    assert KeySlot(w.id, w.requested[i]) in w.srv.data;
    if HasUpdate(w.requested[i].version, w.srv.data[slot].version) {
      ServerDelivery.NewerComplete(w.srv.data, w.id, w.requested, i);
    }
  }

  lemma RegisterKeepsMid(w: World, rid: ReqId)
    requires WorldInv(w) && w.inflight == Some(rid) && rid in w.srv.arrived
    requires Check(w.srv, RequestOf(w)).UpToDate?
    ensures InflightOk(Make(w, SecondCheck))
  {
    var v := Make(w, SecondCheck);
    NoRegs(w.srv, rid);
    forall i | 0 <= i < |v.requested| && Registration(SlotAt(v, i), rid) in v.srv.listening
      ensures SlotAt(v, i).key in v.high && v.requested[i].version == v.high[SlotAt(v, i).key]
    {
      UpToDateEqual(w, i);
      assert SlotAt(v, i) == SlotAt(w, i);
    }
    forall l | l in v.srv.listening && l.req == rid ensures l.slot.store == w.id {
      assert l !in Regs(w.srv, rid);
      if |w.requested| > 0 {
        UpToDateEqual(w, 0);
      }
    }
  }

  lemma InflightFrame(w: World, v: World)
    requires InflightOk(w) && v.srv == w.srv && v == w.(inflight := v.inflight)
    requires v.inflight == w.inflight || v.inflight == None
    ensures InflightOk(v)
  {
    if v.inflight.Some? {
      assert v == w;
    }
  }

  lemma NoListenerYet(s: State, rid: ReqId)
    requires Core(s) && rid in s.arrived
    ensures forall l :: l in s.listening ==> l.req != rid
  {
    NoRegs(s, rid);
    assert forall l :: l in s.listening && l.req == rid ==> l in Regs(s, rid);
  }

  lemma DirectKeepsInflight(w: World, rid: ReqId)
    requires WorldInv(w) && w.inflight == Some(rid) && rid in w.srv.arrived
    requires !Check(w.srv, RequestOf(w)).UpToDate?
    ensures InflightOk(Make(w, SecondCheck))
  {
    var v := Make(w, SecondCheck);
    NoListenerYet(w.srv, rid);
    NobodyRegistered(v, rid);
    if Check(w.srv, RequestOf(w)).Updates? {
      CheckNews(w.srv, RequestOf(w), w.id);
      DirectBetween(w);
      SentFrame(w, v, Check(w.srv, RequestOf(w)).cfgs);
    }
  }

  lemma WaitKeepsStores(s: State, rid: ReqId)
    ensures Wait(s, rid).known == s.known && Wait(s, rid).data == s.data && Wait(s, rid).lastId == s.lastId
  {
  }

  lemma SecondKeepsInflight(w: World, rid: ReqId)
    requires WorldInv(w) && w.inflight == Some(rid)
    ensures InflightOk(Make(w, SecondCheck))
  {
    if rid !in w.srv.arrived {
      assert Wait(w.srv, rid) == w.srv;
      InflightFrame(w, Make(w, SecondCheck));
    } else if Check(w.srv, RequestOf(w)).UpToDate? {
      RegisterKeepsMid(w, rid);
    } else {
      DirectKeepsInflight(w, rid);
    }
  }

  lemma SecondCheckKeepsInv(w: World)
    requires WorldInv(w) && w.inflight.Some?
    ensures WorldInv(Make(w, SecondCheck))
  {
    var rid := w.inflight.value;
    WaitKeepsInv(w.srv, rid);
    SecondKeepsInflight(w, rid);
    WaitKeepsStores(w.srv, rid);
    MidFrom(w, Wait(w.srv, rid), StillInflight(Wait(w.srv, rid), rid));
  }

  lemma MidFrom(w: World, s: State, inflight: Option<ReqId>)
    requires Mid(w) && Inv(s) && s.known == w.srv.known && s.data == w.srv.data
    requires InflightOk(w.(srv := s, inflight := inflight))
    ensures WorldInv(w.(srv := s, inflight := inflight))
  {
    VersionsFrame(w, w.(srv := s, inflight := inflight));
  }

  // ----- delivery

  lemma {:induction false} VersionComesFrom(k: RequestedKey, cfgs: seq<Configuration>)
    ensures VersionAfter(k, cfgs) == k.version
      || exists j :: 0 <= j < |cfgs| && Matches(k, cfgs[j]) && VersionAfter(k, cfgs) == cfgs[j].version
  {
    if cfgs != [] && !Matches(k, cfgs[|cfgs| - 1]) {
      VersionComesFrom(k, cfgs[..|cfgs| - 1]);
    }
  }

  /** After a delivery each version is at least what it was and at most the server's highest. */
  lemma DeliveredBetween(w: World, cfgs: seq<Configuration>, i: nat)
    requires VersionsOk(w) && SentBetween(w, cfgs) && i < |w.requested|
    ensures SlotAt(w, i).key in w.high
    ensures Order.AtMost(w.requested[i].version, VersionAfter(w.requested[i], cfgs))
    ensures Order.AtMost(VersionAfter(w.requested[i], cfgs), w.high[SlotAt(w, i).key])
  {
    VersionComesFrom(w.requested[i], cfgs);
    if VersionAfter(w.requested[i], cfgs) != w.requested[i].version {
      var j :| 0 <= j < |cfgs| && Matches(w.requested[i], cfgs[j])
               && VersionAfter(w.requested[i], cfgs) == cfgs[j].version;
      assert Between(w, i, cfgs[j]);
    }
  }

  lemma DeliverKeepsInv(w: World)
    requires WorldInv(w) && Enabled(w, Deliver)
    ensures WorldInv(Make(w, Deliver))
  {
    var v := Make(w, Deliver);
    var cfgs := w.srv.chans[w.inflight.value].sent;
    forall i | 0 <= i < |v.requested|
      ensures PipeFree(v.requested[i].group) && SlotAt(v, i).key in v.high
              && Order.AtMost(v.requested[i].version, v.high[SlotAt(v, i).key])
    {
      DeliveredBetween(w, cfgs, i);
      assert SlotAt(v, i) == SlotAt(w, i);
    }
  }

  // ----- other requests

  lemma OtherWaitSpares(s: State, r: ReqId, inflight: Option<ReqId>)
    requires inflight != Some(r)
    ensures Spares(s, Wait(s, r), inflight)
  {
    if r in s.arrived && Check(s, s.arrived[r]).UpToDate? {
      assert forall l :: l in Registrations(r, Check(s, s.arrived[r]).store, Keys(s.arrived[r].requested)) ==> l.req == r;
    }
  }

  lemma OtherArriveSpares(s: State, req: Request, inflight: Option<ReqId>)
    requires inflight.Some? ==> inflight.value <= s.lastId
    ensures Spares(s, Arrive(s, req), inflight)
  {
    ArriveShape(s, req, Check(s, req));
  }

  lemma ElsewhereSpares(s: State, step: Step, inflight: Option<ReqId>)
    requires !step.BatchStep? && (step.WaitStep? ==> inflight != Some(step.rid))
    requires inflight.Some? ==> inflight.value <= s.lastId
    ensures Spares(s, Do(s, step), inflight)
  {
    match step
    case ArriveStep(req) => OtherArriveSpares(s, req, inflight);
    case WaitStep(r) => OtherWaitSpares(s, r, inflight);
    case CancelStep(r) =>
    case ReceiveStep(r) =>
  }

  lemma ElsewhereKeepsInv(w: World, s: Step)
    requires WorldInv(w) && Enabled(w, Elsewhere(s))
    ensures WorldInv(Make(w, Elsewhere(s)))
  {
    StepKeepsInv(w.srv, s);
    ElsewhereSpares(w.srv, s, w.inflight);
    SparingKeepsMid(w, Do(w.srv, s));
  }

  // ----- theorems

  lemma MoveKeepsInv(w: World, m: Move)
    requires WorldInv(w) && Enabled(w, m)
    ensures WorldInv(Make(w, m))
  {
    match m
    case Push(evs) => PushKeepsInv(w, evs);
    case Poll => PollKeepsInv(w);
    case SecondCheck => SecondCheckKeepsInv(w);
    case Deliver => DeliverKeepsInv(w);
    case TimedOut =>
    case Elsewhere(s) => ElsewhereKeepsInv(w, s);
  }

  /** No entry's version ever goes back in one move. */
  lemma MoveIsMonotone(w: World, m: Move, i: nat)
    requires WorldInv(w) && Enabled(w, m) && i < |w.requested|
    ensures |Make(w, m).requested| == |w.requested|
    ensures Order.AtMost(w.requested[i].version, Make(w, m).requested[i].version)
  {
    match m
    case Push(evs) => PushesKeepMid(w, evs);
    case Poll =>
    case SecondCheck =>
    case Deliver => DeliveredBetween(w, w.srv.chans[w.inflight.value].sent, i);
    case TimedOut =>
    case Elsewhere(s) =>
  }

  predicate Follows(w: World, moves: seq<Move>)
    decreases |moves|
  {
    moves == [] || (Enabled(w, moves[0]) && Follows(Make(w, moves[0]), moves[1..]))
  }

  function RunMoves(w: World, moves: seq<Move>): World
    requires Follows(w, moves)
    decreases |moves|
  {
    if moves == [] then w else RunMoves(Make(w, moves[0]), moves[1..])
  }

  /** Over any run the version recorded for a key never goes back and never exceeds the highest the server had. */
  lemma {:induction false} VersionsMoveForward(w: World, moves: seq<Move>, i: nat)
    requires WorldInv(w) && Follows(w, moves) && i < |w.requested|
    ensures var v := RunMoves(w, moves);
      && WorldInv(v) && |v.requested| == |w.requested|
      && Order.AtMost(w.requested[i].version, v.requested[i].version)
      && SlotAt(v, i).key in v.high && Order.AtMost(v.requested[i].version, v.high[SlotAt(v, i).key])
      && (SlotAt(v, i) in v.srv.data ==> Order.AtMost(v.requested[i].version, v.srv.data[SlotAt(v, i)].version))
    decreases |moves|
  {
    if moves != [] {
      MoveKeepsInv(w, moves[0]);
      MoveIsMonotone(w, moves[0], i);
      var v := Make(w, moves[0]);
      VersionsMoveForward(v, moves[1..], i);
      Order.AtMostTransitive(w.requested[i].version, v.requested[i].version, RunMoves(w, moves).requested[i].version);
    }
  }

  /** A request left waiting by the second check holds the server's version of every key. */
  lemma WaitingMeansEqual(w: World, i: nat)
    requires WorldInv(w) && w.inflight.Some? && w.inflight.value in w.srv.arrived && i < |w.requested|
    requires w.inflight.value in Make(w, SecondCheck).srv.waits
    ensures var v := Make(w, SecondCheck);
      SlotAt(v, i) in v.srv.data && v.requested[i].version == v.srv.data[SlotAt(v, i)].version
  {
    UpToDateEqual(w, i);
  }

  /** Among the stored configurations of the entries only its own matches an entry. */
  predicate OnlyOwnMatches(data: map<Slot, Configuration>, id: StoreId, requested: seq<RequestedKey>, i: nat)
    requires i < |requested|
  {
    forall n :: 0 <= n < |requested| ==>
      KeySlot(id, requested[n]) in data && (Matches(requested[i], data[KeySlot(id, requested[n])]) <==> n == i)
  }

  lemma StoredMatchesOwn(w: World, i: nat, n: nat)
    requires Mid(w) && i < |w.requested| && n < |w.requested| && KeySlot(w.id, w.requested[n]) in w.srv.data
    ensures Matches(w.requested[i], w.srv.data[KeySlot(w.id, w.requested[n])]) <==> n == i
  {
    var cfg := w.srv.data[KeySlot(w.id, w.requested[n])];
    assert SlotOf(cfg) == KeySlot(w.id, w.requested[n]);
    CfgKeyInjective(cfg.group, cfg.key, w.requested[n].group, w.requested[n].key);
    if i < n {
      assert CfgKey(w.requested[i].group, w.requested[i].key) != CfgKey(w.requested[n].group, w.requested[n].key);
    }
  }

  lemma OwnMatches(w: World, i: nat)
    requires Mid(w) && i < |w.requested| && AllKnown(w.srv.data, w.id, w.requested)
    ensures OnlyOwnMatches(w.srv.data, w.id, w.requested, i)
  {
    forall n | 0 <= n < |w.requested|
      ensures KeySlot(w.id, w.requested[n]) in w.srv.data
      ensures Matches(w.requested[i], w.srv.data[KeySlot(w.id, w.requested[n])]) <==> n == i
    {
      StoredMatchesOwn(w, i, n);
    }
  }

  lemma LastVersion(k: RequestedKey, cfgs: seq<Configuration>, cfg: Configuration)
    ensures VersionAfter(k, cfgs + [cfg]) == if Matches(k, cfg) then cfg.version else VersionAfter(k, cfgs)
  {
    assert (cfgs + [cfg])[..|cfgs|] == cfgs;
  }

  /** What the newer configurations of the first m entries make of entry i. */
  lemma {:induction false} NewerVersion(data: map<Slot, Configuration>, id: StoreId, requested: seq<RequestedKey>, i: nat, m: nat)
    requires i < |requested| && m <= |requested| && OnlyOwnMatches(data, id, requested, i)
    ensures VersionAfter(requested[i], Newer(data, id, requested[..m])) ==
      if i < m && HasUpdate(requested[i].version, data[KeySlot(id, requested[i])].version)
      then data[KeySlot(id, requested[i])].version else requested[i].version
    decreases m
  {
    if m > 0 {
      NewerVersion(data, id, requested, i, m - 1);
      assert requested[..m][..m - 1] == requested[..m - 1] && requested[..m][m - 1] == requested[m - 1];
      LastVersion(requested[i], Newer(data, id, requested[..m - 1]), data[KeySlot(id, requested[m - 1])]);
    }
  }

  /** One poll round with no push in between: request, then the direct answer or the locked check. */
  function PollRound(w: World): World
    requires w.inflight == None
  {
    var v := Make(w, Poll);
    if v.inflight == None then v
    else if v.inflight.value in v.srv.arrived then Make(v, SecondCheck)
    else if Enabled(v, Deliver) then Make(v, Deliver)
    else v
  }

  /** When updates have stopped and every requested key is stored, one fresh round makes all versions equal. */
  lemma FreshRoundEqualizes(w: World, i: nat)
    requires WorldInv(w) && w.inflight == None && i < |w.requested|
    requires AllKnown(w.srv.data, w.id, w.requested)
    ensures var v := PollRound(w);
      |v.requested| == |w.requested| && v.srv.data == w.srv.data && SlotAt(w, i) in w.srv.data
      && v.requested[i].version == w.srv.data[SlotAt(w, i)].version
  {
    assert KeySlot(w.id, w.requested[i]) in w.srv.data;
    if Newer(w.srv.data, w.id, w.requested) == [] {
      UpToDateEqual(w, i);
      QuietRound(w);
    } else {
      NewsRound(w);
      AbsorbedEqual(w, i);
    }
  }

  lemma QuietRound(w: World)
    requires WorldInv(w) && w.inflight == None && AllKnown(w.srv.data, w.id, w.requested)
    requires Newer(w.srv.data, w.id, w.requested) == []
    ensures PollRound(w).requested == w.requested && PollRound(w).srv.data == w.srv.data
  {
    assert Check(w.srv, RequestOf(w)) == UpToDate(w.id);
  }

  /** A poll that finds news is answered at once on a closed channel. */
  lemma NewsPoll(w: World, newer: seq<Configuration>)
    requires IdsOk(w.srv) && w.inflight == None && Check(w.srv, RequestOf(w)) == Updates(newer)
    ensures var v := Make(w, Poll);
      && v.inflight.Some? && v.inflight.value !in v.srv.arrived && Enabled(v, Deliver)
      && v.srv.chans[v.inflight.value].sent == newer && v.requested == w.requested && v.srv.data == w.srv.data
  {
    var s := ArriveWith(w.srv, RequestOf(w), Updates(newer));
    assert s.lastId !in s.arrived && s.chans[s.lastId] == DirectChan(newer);
  }

  lemma NewsRound(w: World)
    requires WorldInv(w) && w.inflight == None && AllKnown(w.srv.data, w.id, w.requested)
    requires Newer(w.srv.data, w.id, w.requested) != []
    ensures PollRound(w).requested == Absorb(w.requested, Newer(w.srv.data, w.id, w.requested))
    ensures PollRound(w).srv.data == w.srv.data
  {
    var newer := Newer(w.srv.data, w.id, w.requested);
    assert Check(w.srv, RequestOf(w)) == Updates(newer);
    NewsPoll(w, newer);
  }

  /** Absorbing everything newer leaves the client with exactly the stored version. */
  lemma AbsorbedEqual(w: World, i: nat)
    requires Mid(w) && i < |w.requested| && AllKnown(w.srv.data, w.id, w.requested)
    ensures SlotAt(w, i) in w.srv.data
    ensures VersionAfter(w.requested[i], Newer(w.srv.data, w.id, w.requested)) == w.srv.data[SlotAt(w, i)].version
  {
    OwnMatches(w, i);
    NewerVersion(w.srv.data, w.id, w.requested, i, |w.requested|);
    assert w.requested[..|w.requested|] == w.requested;
    assert KeySlot(w.id, w.requested[i]) in w.srv.data;
    NotAheadOfStored(w, i);
  }

  lemma NotAheadOfStored(w: World, i: nat)
    requires VersionsOk(w) && i < |w.requested| && SlotAt(w, i) in w.srv.data
    ensures Order.AtMost(w.requested[i].version, w.srv.data[SlotAt(w, i)].version)
  {
    assert SlotAt(w, i).store == w.id;
  }

  // ----- where the invariant starts

  predicate StoredPipeFree(s: State) {
    forall sl :: sl in s.data ==> PipeFree(s.data[sl].group)
  }

  predicate EventsPipeFree(h: seq<Event>) {
    forall i :: 0 <= i < |h| ==> PipeFree(h[i].cfg.group)
  }

  lemma {:induction false} EventsKeepPipeFree(s: State, evs: seq<Event>)
    requires StoredPipeFree(s) && EventsPipeFree(evs)
    ensures StoredPipeFree(ApplyEvents(s, evs))
    decreases |evs|
  {
    if evs != [] {
      EventsKeepPipeFree(ApplyEvent(s, evs[0]), evs[1..]);
    }
  }

  lemma {:induction false} RunKeepsPipeFree(s: State, steps: seq<Step>)
    requires StoredPipeFree(s) && EventsPipeFree(History(steps))
    ensures StoredPipeFree(Run(s, steps))
    decreases |steps|
  {
    if steps != [] {
      var evs := StepEvents(steps[0]);
      assert EventsPipeFree(evs) && EventsPipeFree(History(steps[1..])) by {
        assert forall i :: 0 <= i < |evs| ==> evs[i] == History(steps)[i];
        assert forall i :: 0 <= i < |History(steps[1..])| ==> History(steps[1..])[i] == History(steps)[|evs| + i];
      }
      EventsKeepPipeFree(s, evs);
      RunKeepsPipeFree(Do(s, steps[0]), steps[1..]);
    }
  }

  /** The stored version of a key, or the least version there is. */
  function VersionAt(s: State, slot: Slot): string {
    if slot in s.data then s.data[slot].version else ""
  }

  function StoredKeys(s: State, id: StoreId): set<string> {
    set sl | sl in s.data && sl.store == id :: sl.key
  }

  /** A client that has just been set up, next to a server that may have run for a while. */
  function FreshWorld(s: State, requested: seq<RequestedKey>, sel: string, opt: string, id: StoreId): World {
    var keys := StoredKeys(s, id) + set k | k in Keys(requested);
    World(s, requested, None, sel, opt, id, map k | k in keys :: VersionAt(s, Slot(id, k)))
  }

  /** The client's versions are not above the server's. */
  predicate NotAhead(s: State, id: StoreId, requested: seq<RequestedKey>) {
    forall i :: 0 <= i < |requested| ==>
      PipeFree(requested[i].group) && Order.AtMost(requested[i].version, VersionAt(s, KeySlot(id, requested[i])))
  }

  /** A fresh client that is not ahead of a server starts in the invariant. */
  lemma FreshWorldInvAt(s: State, requested: seq<RequestedKey>, sel: string, opt: string, id: StoreId)
    requires Inv(s) && StoredPipeFree(s) && Resolve(s.known, sel, opt) == Some(id)
    requires Distinct(requested) && NotAhead(s, id, requested)
    ensures WorldInv(FreshWorld(s, requested, sel, opt, id))
  {
    var w := FreshWorld(s, requested, sel, opt, id);
    forall sl | sl in s.data && sl.store == id ensures sl.key in w.high && s.data[sl].version == w.high[sl.key] {
      assert sl == Slot(id, sl.key) && sl.key in StoredKeys(s, id);
    }
    forall i | 0 <= i < |requested| ensures SlotAt(w, i).key in w.high && w.high[SlotAt(w, i).key] == VersionAt(s, SlotAt(w, i)) {
      assert Keys(requested)[i] == SlotAt(w, i).key && SlotAt(w, i) == KeySlot(id, requested[i]);
    }
  }

  /** So whatever the server did before, it does next to any reachable one. */
  lemma FreshWorldInv(steps: seq<Step>, requested: seq<RequestedKey>, sel: string, opt: string, id: StoreId)
    requires EventsPipeFree(History(steps)) && Resolve(Run(INIT, steps).known, sel, opt) == Some(id)
    requires Distinct(requested) && NotAhead(Run(INIT, steps), id, requested)
    ensures WorldInv(FreshWorld(Run(INIT, steps), requested, sel, opt, id))
  {
    Reachable(steps);
    RunKeepsPipeFree(INIT, steps);
    FreshWorldInvAt(Run(INIT, steps), requested, sel, opt, id);
  }

  /** So from any server run and any such client, no recorded version ever goes back or passes the server's. */
  lemma FreshClientMovesForward(steps: seq<Step>, requested: seq<RequestedKey>, sel: string, opt: string, id: StoreId,
                                moves: seq<Move>, i: nat)
    requires EventsPipeFree(History(steps)) && Resolve(Run(INIT, steps).known, sel, opt) == Some(id)
    requires Distinct(requested) && NotAhead(Run(INIT, steps), id, requested) && i < |requested|
    requires Follows(FreshWorld(Run(INIT, steps), requested, sel, opt, id), moves)
    ensures var v := RunMoves(FreshWorld(Run(INIT, steps), requested, sel, opt, id), moves);
      && |v.requested| == |requested| && Order.AtMost(requested[i].version, v.requested[i].version)
      && (SlotAt(v, i) in v.srv.data ==> Order.AtMost(v.requested[i].version, v.srv.data[SlotAt(v, i)].version))
  {
    FreshWorldInv(steps, requested, sel, opt, id);
    VersionsMoveForward(FreshWorld(Run(INIT, steps), requested, sel, opt, id), moves, i);
  }
}
