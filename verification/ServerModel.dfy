/**
 The configuration server's protected state (configure/configserver/server.core.go) as a value, and the
 atomic steps its lock allows. A store is named by its selector strings (the empty optional string names the
 default store); a request's channel is named by the request id, which is unique.
 */
module ServerModel {
  import opened Wrappers
  import Order

  type ReqId = nat

  datatype Configuration = Configuration(group: string, key: string, version: string, value: seq<int>,
                                         signature: string, selectors: string, optionalSelectors: string)

  datatype Event = Event(cfg: Configuration, created: bool, modified: bool, deleted: bool)

  datatype RequestedKey = RequestedKey(group: string, key: string, version: string)

  datatype Request = Request(requested: seq<RequestedKey>, selectors: string, optionalSelectors: string)

  datatype StoreId = StoreId(sel: string, opt: string)

  datatype Slot = Slot(store: StoreId, key: string)

  datatype Registration = Registration(slot: Slot, req: ReqId)

  /** A buffered channel: everything ever sent, how much of it was received, and whether it is closed. */
  datatype Chan = Chan(cap: nat, sent: seq<Configuration>, received: nat, closed: bool)

  /** What the cancel function of a waiting request remembers. */
  datatype Waiting = Waiting(store: StoreId, keys: seq<string>)

  /** arrived holds the requests between the first check and the locked second one. */
  datatype State = State(known: set<StoreId>, data: map<Slot, Configuration>, listening: set<Registration>,
                         chans: map<ReqId, Chan>, arrived: map<ReqId, Request>, waits: map<ReqId, Waiting>,
                         lastId: nat)

  const INIT := State({}, map[], {}, map[], map[], map[], 0)

  // ----- keys and stores

  function CfgKey(group: string, key: string): string {
    group + "||" + key
  }

  function SlotOf(cfg: Configuration): Slot {
    Slot(StoreId(cfg.selectors, cfg.optionalSelectors), CfgKey(cfg.group, cfg.key))
  }

  function Keys(requested: seq<RequestedKey>): (ks: seq<string>)
    ensures |ks| == |requested|
    ensures forall i :: 0 <= i < |ks| ==> ks[i] == CfgKey(requested[i].group, requested[i].key)
  {
    seq(|requested|, i requires 0 <= i < |requested| => CfgKey(requested[i].group, requested[i].key))
  }

  /** GetSelectorsGeneral: the optional store if it exists, otherwise the default store of the selectors. */
  function Resolve(known: set<StoreId>, sel: string, opt: string): Option<StoreId> {
    if StoreId(sel, "") !in known then None
    else if StoreId(sel, opt) in known then Some(StoreId(sel, opt))
    else Some(StoreId(sel, ""))
  }

  /** GetOrCreateSelectorsGeneral. */
  function Touch(known: set<StoreId>, id: StoreId): set<StoreId> {
    known + {StoreId(id.sel, ""), id}
  }

  // ----- events

  predicate IsSave(ev: Event) {
    ev.created || ev.modified
  }

  predicate IsDelete(ev: Event) {
    !IsSave(ev) && ev.deleted
  }

  function Hit(listening: set<Registration>, slot: Slot): (rs: set<ReqId>)
    ensures forall r :: r in rs <==> Registration(slot, r) in listening
  {
    set l | l in listening && l.slot == slot :: l.req
  }

  function Unlisten(listening: set<Registration>, slot: Slot): set<Registration> {
    set l | l in listening && l.slot != slot
  }

  function Notify(chans: map<ReqId, Chan>, rs: set<ReqId>, cfg: Configuration): (cs: map<ReqId, Chan>)
    ensures cs.Keys == chans.Keys
    ensures forall r :: r in chans ==>
      cs[r] == if r in rs then chans[r].(sent := chans[r].sent + [cfg]) else chans[r]
  {
    map r | r in chans :: if r in rs then chans[r].(sent := chans[r].sent + [cfg]) else chans[r]
  }

  function Save(s: State, cfg: Configuration): State {
    var slot := SlotOf(cfg);
    s.(known := Touch(s.known, slot.store),
       data := s.data[slot := cfg],
       listening := Unlisten(s.listening, slot),
       chans := Notify(s.chans, Hit(s.listening, slot), cfg))
  }

  function Delete(s: State, cfg: Configuration): State {
    var slot := SlotOf(cfg);
    s.(known := Touch(s.known, slot.store),
       data := s.data - {slot},
       listening := Unlisten(s.listening, slot))
  }

  function ApplyEvent(s: State, ev: Event): State {
    if IsSave(ev) then Save(s, ev.cfg)
    else if IsDelete(ev) then Delete(s, ev.cfg)
    else s
  }

  function ApplyEvents(s: State, evs: seq<Event>): State
    decreases |evs|
  {
    if evs == [] then s else ApplyEvents(ApplyEvent(s, evs[0]), evs[1..])
  }

  function HitBy(s: State, ev: Event): set<ReqId> {
    if IsSave(ev) then Hit(s.listening, SlotOf(ev.cfg)) else {}
  }

  /** The requests a batch notifies: what the pump loop collects in chMap. */
  function Notified(s: State, evs: seq<Event>): set<ReqId>
    decreases |evs|
  {
    if evs == [] then {} else HitBy(s, evs[0]) + Notified(ApplyEvent(s, evs[0]), evs[1..])
  }

  function CloseAll(chans: map<ReqId, Chan>, rs: set<ReqId>): (cs: map<ReqId, Chan>)
    ensures cs.Keys == chans.Keys
    ensures forall r :: r in chans ==> cs[r] == if r in rs then chans[r].(closed := true) else chans[r]
  {
    map r | r in chans :: if r in rs then chans[r].(closed := true) else chans[r]
  }

  /** One round of the pump loop under the write lock. */
  function Batch(s: State, evs: seq<Event>): State {
    var t := ApplyEvents(s, evs);
    t.(chans := CloseAll(t.chans, Notified(s, evs)))
  }

  // ----- requests

  datatype Answer = Unknown | Updates(cfgs: seq<Configuration>) | UpToDate(store: StoreId)

  predicate HasUpdate(requestVersion: string, dataVersion: string) {
    Order.Less(requestVersion, dataVersion)
  }

  function KeySlot(id: StoreId, k: RequestedKey): Slot {
    Slot(id, CfgKey(k.group, k.key))
  }

  predicate AllKnown(data: map<Slot, Configuration>, id: StoreId, requested: seq<RequestedKey>) {
    forall i :: 0 <= i < |requested| ==> KeySlot(id, requested[i]) in data
  }

  /** The stored configurations newer than what the request holds, in request order. */
  function Newer(data: map<Slot, Configuration>, id: StoreId, requested: seq<RequestedKey>): seq<Configuration> {
    if requested == [] then []
    else
      var rest := Newer(data, id, requested[..|requested| - 1]);
      var k := requested[|requested| - 1];
      var slot := KeySlot(id, k);
      if slot in data && HasUpdate(k.version, data[slot].version) then rest + [data[slot]] else rest
  }

  /** The check done twice by RetrieveOrWait, under the read lock and again under the write lock. */
  function Check(s: State, req: Request): (a: Answer)
    ensures a.Updates? ==> a.cfgs != []
  {
    match Resolve(s.known, req.selectors, req.optionalSelectors)
    case None => Unknown
    case Some(id) =>
      if !AllKnown(s.data, id, req.requested) then Unknown
      else
        var newer := Newer(s.data, id, req.requested);
        if newer != [] then Updates(newer) else UpToDate(id)
  }

  /** A channel filled and closed at once for a direct answer. */
  function DirectChan(cfgs: seq<Configuration>): Chan {
    Chan(|cfgs|, cfgs, 0, true)
  }

  function Arrive(s: State, req: Request): State {
    ArriveWith(s, req, Check(s, req))
  }

  function ArriveWith(s: State, req: Request, answer: Answer): State {
    var rid := s.lastId + 1;
    var t := s.(lastId := rid);
    match answer
    case Unknown => t
    case Updates(cfgs) => t.(chans := s.chans[rid := DirectChan(cfgs)])
    case UpToDate(_) => t.(arrived := s.arrived[rid := req])
  }

  function Registrations(rid: ReqId, id: StoreId, keys: seq<string>): (ls: set<Registration>)
    ensures forall l :: l in ls <==> l.req == rid && l.slot.store == id && l.slot.key in keys
  {
    set k | k in keys :: Registration(Slot(id, k), rid)
  }

  function Register(s: State, rid: ReqId, id: StoreId, req: Request): State {
    var keys := Keys(req.requested);
    s.(listening := s.listening + Registrations(rid, id, keys),
       chans := s.chans[rid := Chan(|req.requested|, [], 0, false)],
       waits := s.waits[rid := Waiting(id, keys)])
  }

  /** The second, locked half of RetrieveOrWait. */
  function Wait(s: State, rid: ReqId): State {
    if rid !in s.arrived then s
    else
      var req := s.arrived[rid];
      var t := s.(arrived := s.arrived - {rid});
      match Check(s, req)
      case Unknown => t
      case Updates(cfgs) => t.(chans := s.chans[rid := DirectChan(cfgs)])
      case UpToDate(id) => Register(t, rid, id, req)
  }

  function Cancel(s: State, rid: ReqId): State {
    if rid !in s.waits then s
    else
      var w := s.waits[rid];
      s.(listening := s.listening - Registrations(rid, w.store, w.keys), waits := s.waits - {rid})
  }

  function Receive(s: State, rid: ReqId): State {
    if rid in s.chans && s.chans[rid].received < |s.chans[rid].sent| then
      s.(chans := s.chans[rid := s.chans[rid].(received := s.chans[rid].received + 1)])
    else s
  }

  // ----- runs

  datatype Step = BatchStep(evs: seq<Event>) | ArriveStep(req: Request) | WaitStep(rid: ReqId)
                | CancelStep(rid: ReqId) | ReceiveStep(rid: ReqId)

  function Do(s: State, step: Step): State {
    match step
    case BatchStep(evs) => Batch(s, evs)
    case ArriveStep(req) => Arrive(s, req)
    case WaitStep(rid) => Wait(s, rid)
    case CancelStep(rid) => Cancel(s, rid)
    case ReceiveStep(rid) => Receive(s, rid)
  }

  function Run(s: State, steps: seq<Step>): State
    decreases |steps|
  {
    if steps == [] then s else Run(Do(s, steps[0]), steps[1..])
  }

  // ----- faults of Go channels

  /** A send neither panics nor blocks. */
  predicate SendOk(c: Chan) {
    !c.closed && |c.sent| - c.received < c.cap
  }

  predicate EventSafe(s: State, ev: Event) {
    forall r :: r in HitBy(s, ev) ==> r in s.chans && SendOk(s.chans[r])
  }

  predicate BatchSafe(s: State, evs: seq<Event>)
    decreases |evs|
  {
    evs == [] || (EventSafe(s, evs[0]) && BatchSafe(ApplyEvent(s, evs[0]), evs[1..]))
  }

  // ----- the invariant

  function Regs(s: State, rid: ReqId): (ls: set<Registration>)
    ensures forall l :: l in ls <==> l in s.listening && l.req == rid
  {
    set l | l in s.listening && l.req == rid
  }

  predicate StoresOk(s: State) {
    && (forall id :: id in s.known ==> StoreId(id.sel, "") in s.known)
    && (forall sl :: sl in s.data ==> sl.store in s.known && SlotOf(s.data[sl]) == sl)
  }

  predicate ListenersOk(s: State) {
    forall l :: l in s.listening ==>
      && l.req in s.waits && l.req in s.chans && l.slot in s.data
      && s.waits[l.req].store == l.slot.store && l.slot.key in s.waits[l.req].keys
  }

  predicate IdsOk(s: State) {
    && (forall r :: r in s.waits ==> r <= s.lastId && r in s.chans && r !in s.arrived)
    && (forall r :: r in s.arrived ==> r <= s.lastId && r !in s.chans)
    && (forall r :: r in s.chans ==> r <= s.lastId)
  }

  /** Conservation: what was ever sent plus what may still be sent fits the buffer, read or not. */
  predicate Conserved(s: State) {
    forall r :: r in s.chans ==>
      |s.chans[r].sent| + |Regs(s, r)| <= s.chans[r].cap && s.chans[r].received <= |s.chans[r].sent|
  }

  /** Closed channels are exactly those that carried something; `open` may hold sent-to channels not yet closed. */
  predicate ClosedOk(s: State, open: set<ReqId>) {
    forall r :: r in s.chans ==>
      && (s.chans[r].closed ==> s.chans[r].sent != [])
      && (s.chans[r].sent != [] ==> s.chans[r].closed || r in open)
  }

  predicate Core(s: State) {
    StoresOk(s) && ListenersOk(s) && IdsOk(s) && Conserved(s)
  }

  predicate Inv(s: State) {
    Core(s) && ClosedOk(s, {})
  }
}
