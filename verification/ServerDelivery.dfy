/** What waiting requests are promised: no lost update, no blocking send, no panic, one event per requested key. */
module ServerDelivery {
  import Order
  import opened Wrappers
  import opened ServerModel
  import opened ServerInvariant

  // ----- the pump never blocks while it holds the lock

  lemma RoomForEvent(s: State, ev: Event)
    requires Core(s)
    ensures forall r :: r in HitBy(s, ev) ==>
      r in s.chans && |s.chans[r].sent| < s.chans[r].cap && |s.chans[r].sent| - s.chans[r].received < s.chans[r].cap
  {
    forall r | r in HitBy(s, ev) ensures r in s.chans && |s.chans[r].sent| < s.chans[r].cap {
      assert Registration(SlotOf(ev.cfg), r) in Regs(s, r);
    }
  }

  /** In every reachable state, at every event of any batch, each channel about to be sent to has room,
      even if nobody ever received from it. */
  lemma PumpNeverBlocks(steps: seq<Step>, evs: seq<Event>, i: nat)
    requires i < |evs|
    ensures var s := ApplyEvents(Run(INIT, steps), evs[..i]);
      forall r :: r in HitBy(s, evs[i]) ==> r in s.chans && |s.chans[r].sent| < s.chans[r].cap
  {
    Reachable(steps);
    EventsKeepCore(Run(INIT, steps), evs[..i], {});
    RoomForEvent(ApplyEvents(Run(INIT, steps), evs[..i]), evs[i]);
  }

  // ----- when a batch panics

  /** The first event of the batch that touches the slot is a save. */
  predicate FirstTouchSaves(evs: seq<Event>, slot: Slot) {
    evs != [] &&
    if SlotOf(evs[0].cfg) == slot && (IsSave(evs[0]) || IsDelete(evs[0])) then IsSave(evs[0])
    else FirstTouchSaves(evs[1..], slot)
  }

  predicate NoClosedFirstSave(s: State, evs: seq<Event>) {
    forall l :: l in s.listening && l.req in s.chans && s.chans[l.req].closed ==> !FirstTouchSaves(evs, l.slot)
  }

  lemma EventSafeIff(s: State, ev: Event)
    requires Core(s)
    ensures EventSafe(s, ev) <==>
      !exists r :: r in s.chans && s.chans[r].closed && IsSave(ev) && Registration(SlotOf(ev.cfg), r) in s.listening
  {
    RoomForEvent(s, ev);
  }

  lemma FirstSaveSplitsForward(s: State, evs: seq<Event>)
    requires Core(s) && evs != [] && NoClosedFirstSave(s, evs)
    ensures EventSafe(s, evs[0]) && NoClosedFirstSave(ApplyEvent(s, evs[0]), evs[1..])
  {
    EventSafeIff(s, evs[0]);
    forall r | r in s.chans && s.chans[r].closed && IsSave(evs[0])
      ensures Registration(SlotOf(evs[0].cfg), r) !in s.listening
    {
      var l := Registration(SlotOf(evs[0].cfg), r);
      assert FirstTouchSaves(evs, l.slot);
    }
    var t := ApplyEvent(s, evs[0]);
    forall l | l in t.listening && l.req in t.chans && t.chans[l.req].closed
      ensures !FirstTouchSaves(evs[1..], l.slot)
    {
      assert l in s.listening && s.chans[l.req].closed;
    }
  }

  lemma FirstSaveSplitsBack(s: State, evs: seq<Event>, l: Registration)
    requires Core(s) && evs != [] && EventSafe(s, evs[0]) && NoClosedFirstSave(ApplyEvent(s, evs[0]), evs[1..])
    requires l in s.listening && l.req in s.chans && s.chans[l.req].closed
    ensures !FirstTouchSaves(evs, l.slot)
  {
    EventSafeIff(s, evs[0]);
    assert l == Registration(l.slot, l.req);
    if l.slot != SlotOf(evs[0].cfg) || !(IsSave(evs[0]) || IsDelete(evs[0])) {
      assert l in ApplyEvent(s, evs[0]).listening;
    }
  }

  /** Exactly when a batch runs without a send on a closed channel: no key whose first change is a save has a
      closed channel still registered. */
  lemma {:induction false} BatchSafeIff(s: State, evs: seq<Event>)
    requires Core(s)
    ensures BatchSafe(s, evs) <==> NoClosedFirstSave(s, evs)
    decreases |evs|
  {
    if evs != [] {
      EventKeepsOnlyCore(s, evs[0]);
      BatchSafeIff(ApplyEvent(s, evs[0]), evs[1..]);
      if NoClosedFirstSave(s, evs) {
        FirstSaveSplitsForward(s, evs);
      } else if BatchSafe(s, evs) {
        forall l | l in s.listening && l.req in s.chans && s.chans[l.req].closed
          ensures !FirstTouchSaves(evs, l.slot)
        {
          FirstSaveSplitsBack(s, evs, l);
        }
        assert false;
      }
    }
  }

  /** No channel is closed twice either. */
  lemma {:induction false} SafeBatchClosesOnce(s: State, evs: seq<Event>, r: ReqId)
    requires BatchSafe(s, evs) && r in Notified(s, evs)
    ensures r in ApplyEvents(s, evs).chans && !ApplyEvents(s, evs).chans[r].closed
    decreases |evs|
  {
    var t := ApplyEvent(s, evs[0]);
    if r in Notified(t, evs[1..]) {
      SafeBatchClosesOnce(t, evs[1..], r);
    } else {
      assert r in t.chans && !t.chans[r].closed;
      UnnotifiedStaysOpen(t, evs[1..], r);
    }
  }

  lemma {:induction false} UnnotifiedStaysOpen(s: State, evs: seq<Event>, r: ReqId)
    requires r in s.chans && !s.chans[r].closed
    ensures r in ApplyEvents(s, evs).chans && !ApplyEvents(s, evs).chans[r].closed
    decreases |evs|
  {
    if evs != [] {
      UnnotifiedStaysOpen(ApplyEvent(s, evs[0]), evs[1..], r);
    }
  }

  // ----- the rely condition that keeps the channels safe

  /** Every request notified so far has been cancelled. */
  predicate NotifiedCancelled(s: State) {
    forall r :: r in s.waits && r in s.chans ==> !s.chans[r].closed
  }

  predicate CancelsInTime(s: State, steps: seq<Step>)
    decreases |steps|
  {
    steps == [] ||
    ((steps[0].BatchStep? ==> NotifiedCancelled(s)) && CancelsInTime(Do(s, steps[0]), steps[1..]))
  }

  predicate BatchFaultFree(s: State, evs: seq<Event>) {
    && BatchSafe(s, evs)
    && forall r :: r in Notified(s, evs) ==>
         r in ApplyEvents(s, evs).chans && !ApplyEvents(s, evs).chans[r].closed
  }

  predicate FaultFree(s: State, steps: seq<Step>)
    decreases |steps|
  {
    steps == [] ||
    ((steps[0].BatchStep? ==> BatchFaultFree(s, steps[0].evs)) && FaultFree(Do(s, steps[0]), steps[1..]))
  }

  /** If each notified request is cancelled before the next batch, no run ever sends on a closed channel,
      blocks on a full one, or closes one twice. */
  lemma {:induction false} CancelledInTimeIsFaultFree(s: State, steps: seq<Step>)
    requires Inv(s) && CancelsInTime(s, steps)
    ensures FaultFree(s, steps)
    decreases |steps|
  {
    if steps != [] {
      if steps[0].BatchStep? {
        var evs := steps[0].evs;
        BatchSafeIff(s, evs);
        forall r | r in Notified(s, evs)
          ensures r in ApplyEvents(s, evs).chans && !ApplyEvents(s, evs).chans[r].closed
        {
          SafeBatchClosesOnce(s, evs, r);
        }
      }
      StepKeepsInv(s, steps[0]);
      CancelledInTimeIsFaultFree(Do(s, steps[0]), steps[1..]);
    }
  }

  /** A request for two stored keys, holding their versions, is registered for both. */
  lemma TwoKeysWait(a: Configuration, b: Configuration, s: State, req: Request)
    requires SlotOf(a) != SlotOf(b) && SlotOf(a).store == SlotOf(b).store && SlotOf(a).store in s.known
    requires StoreId(a.selectors, "") in s.known && s.data == map[SlotOf(a) := a, SlotOf(b) := b]
    requires req.requested == [RequestedKey(a.group, a.key, a.version), RequestedKey(b.group, b.key, b.version)]
    requires req.selectors == a.selectors && req.optionalSelectors == a.optionalSelectors
    ensures Check(s, req) == UpToDate(SlotOf(a).store)
  {
    Order.LessTotal(a.version, a.version);
    Order.LessTotal(b.version, b.version);
    var id := SlotOf(a).store;
    assert req.requested[..1] == [req.requested[0]] && req.requested[..1][..0] == [];
    assert Newer(s.data, id, req.requested[..1][..0]) == [];
    assert Newer(s.data, id, req.requested[..1]) == [];
  }

  /** A save to one of the keys closes the channel and leaves it registered under the other. */
  lemma SecondSaveUnsafe(a: Configuration, b: Configuration, s: State, rid: ReqId)
    requires SlotOf(a) != SlotOf(b) && rid in s.chans
    requires Registration(SlotOf(a), rid) in s.listening && Registration(SlotOf(b), rid) in s.listening
    ensures !BatchSafe(Batch(s, [Event(a, false, true, false)]), [Event(b, false, true, false)])
  {
    var changed := [Event(a, false, true, false)];
    assert changed[1..] == [] && ApplyEvents(s, changed) == Save(s, a);
    assert rid in HitBy(s, changed[0]) && rid in Notified(s, changed);
    var t := Batch(s, changed);
    assert Registration(SlotOf(b), rid) in t.listening && t.chans[rid].closed;
    assert rid in HitBy(t, Event(b, false, true, false));
  }

  /** Without the cancel the promise fails: a request waits for two keys, one batch updates the first (closing
      its channel), and the next batch updates the second, whose registration still holds the closed channel. */
  lemma UncancelledRequestPanics(a: Configuration, b: Configuration)
    requires SlotOf(a) != SlotOf(b) && SlotOf(a).store == SlotOf(b).store
    ensures var create := [Event(a, true, false, false), Event(b, true, false, false)];
      var req := Request([RequestedKey(a.group, a.key, a.version), RequestedKey(b.group, b.key, b.version)],
                         a.selectors, a.optionalSelectors);
      var s := Run(INIT, [BatchStep(create), ArriveStep(req), WaitStep(1), BatchStep([Event(a, false, true, false)])]);
      !BatchSafe(s, [Event(b, false, true, false)])
  {
    var create := [Event(a, true, false, false), Event(b, true, false, false)];
    var req := Request([RequestedKey(a.group, a.key, a.version), RequestedKey(b.group, b.key, b.version)],
                       a.selectors, a.optionalSelectors);
    var s1 := Batch(INIT, create);
    assert create[1..] == [create[1]] && create[1..][1..] == [];
    assert ApplyEvents(INIT, create) == Save(Save(INIT, a), b) by {
      assert ApplyEvents(Save(INIT, a), create[1..]) == Save(Save(INIT, a), b);
    }
    TwoKeysWait(a, b, s1, req);
    var s2 := Arrive(s1, req);
    TwoKeysWait(a, b, s2, req);
    var s3 := Wait(s2, 1);
    assert Keys(req.requested)[0] == SlotOf(a).key && Keys(req.requested)[1] == SlotOf(b).key;
    SecondSaveUnsafe(a, b, s3, 1);
    RunFour(INIT, BatchStep(create), ArriveStep(req), WaitStep(1), BatchStep([Event(a, false, true, false)]));
  }

  lemma RunFour(s: State, a: Step, b: Step, c: Step, d: Step)
    ensures Run(s, [a, b, c, d]) == Do(Do(Do(Do(s, a), b), c), d)
  {
    assert [a, b, c, d][1..] == [b, c, d] && [b, c, d][1..] == [c, d] && [c, d][1..] == [d] && [d][1..] == [];
    assert Run(s, [a, b, c, d]) == Run(Do(s, a), [b, c, d]);
    assert Run(Do(s, a), [b, c, d]) == Run(Do(Do(s, a), b), [c, d]);
    assert Run(Do(Do(s, a), b), [c, d]) == Run(Do(Do(Do(s, a), b), c), [d]);
  }

  // ----- no lost update

  predicate CarriesSlot(c: Chan, slot: Slot) {
    exists i :: 0 <= i < |c.sent| && SlotOf(c.sent[i]) == slot
  }

  predicate DeletesSlot(evs: seq<Event>, slot: Slot) {
    exists i :: 0 <= i < |evs| && IsDelete(evs[i]) && SlotOf(evs[i].cfg) == slot
  }

  predicate DeletedIn(steps: seq<Step>, slot: Slot) {
    exists i :: 0 <= i < |steps| && steps[i].BatchStep? && DeletesSlot(steps[i].evs, slot)
  }

  /** Still registered, and the stored configuration is the one given. */
  predicate Unchanged(s: State, rid: ReqId, slot: Slot, cfg: Configuration) {
    Registration(slot, rid) in s.listening && slot in s.data && s.data[slot] == cfg
  }

  predicate Told(s: State, rid: ReqId, slot: Slot) {
    rid in s.chans && CarriesSlot(s.chans[rid], slot)
  }

  lemma EventTellsOrKeeps(s: State, ev: Event, rid: ReqId, slot: Slot, cfg: Configuration)
    requires rid in s.chans
    requires Unchanged(s, rid, slot, cfg) || Told(s, rid, slot)
    ensures var t := ApplyEvent(s, ev);
      Unchanged(t, rid, slot, cfg) || Told(t, rid, slot) || (IsDelete(ev) && SlotOf(ev.cfg) == slot)
  {
    var t := ApplyEvent(s, ev);
    if IsSave(ev) && SlotOf(ev.cfg) == slot && Unchanged(s, rid, slot, cfg) {
      assert rid in Hit(s.listening, slot);
      assert t.chans[rid].sent[|s.chans[rid].sent|] == ev.cfg;
    } else if Told(s, rid, slot) {
      var i :| 0 <= i < |s.chans[rid].sent| && SlotOf(s.chans[rid].sent[i]) == slot;
      assert t.chans[rid].sent[i] == s.chans[rid].sent[i];
    }
  }

  lemma {:induction false} EventsTellOrKeep(s: State, evs: seq<Event>, rid: ReqId, slot: Slot, cfg: Configuration)
    requires rid in s.chans
    requires Unchanged(s, rid, slot, cfg) || Told(s, rid, slot)
    ensures var t := ApplyEvents(s, evs);
      Unchanged(t, rid, slot, cfg) || Told(t, rid, slot) || DeletesSlot(evs, slot)
    decreases |evs|
  {
    if evs != [] {
      EventTellsOrKeeps(s, evs[0], rid, slot, cfg);
      if !(IsDelete(evs[0]) && SlotOf(evs[0].cfg) == slot) {
        EventsTellOrKeep(ApplyEvent(s, evs[0]), evs[1..], rid, slot, cfg);
        if DeletesSlot(evs[1..], slot) {
          var i :| 0 <= i < |evs[1..]| && IsDelete(evs[1..][i]) && SlotOf(evs[1..][i].cfg) == slot;
          assert evs[i + 1] == evs[1..][i];
        }
      }
    }
  }

  /** Registered and unchanged, or told. */
  predicate TellsOrKeeps(s: State, rid: ReqId, slot: Slot, cfg: Configuration) {
    rid in s.chans && (Unchanged(s, rid, slot, cfg) || Told(s, rid, slot))
  }

  lemma BatchTellsOrKeeps(s: State, evs: seq<Event>, rid: ReqId, slot: Slot, cfg: Configuration)
    requires TellsOrKeeps(s, rid, slot, cfg)
    ensures TellsOrKeeps(Batch(s, evs), rid, slot, cfg) || DeletesSlot(evs, slot)
  {
    EventsTellOrKeep(s, evs, rid, slot, cfg);
    EventsKeepChans(s, evs);
  }

  lemma CancelTellsOrKeeps(s: State, r: ReqId, rid: ReqId, slot: Slot, cfg: Configuration)
    requires TellsOrKeeps(s, rid, slot, cfg) && r != rid
    ensures TellsOrKeeps(Cancel(s, r), rid, slot, cfg)
  {
    if r in s.waits && Unchanged(s, rid, slot, cfg) {
      assert Registration(slot, rid) !in Registrations(r, s.waits[r].store, s.waits[r].keys);
    }
  }

  /** A step that leaves the stored data, this channel's contents and its registrations alone. */
  lemma OtherTellsOrKeeps(s: State, t: State, rid: ReqId, slot: Slot, cfg: Configuration)
    requires TellsOrKeeps(s, rid, slot, cfg)
    requires t.data == s.data && s.listening <= t.listening && rid in t.chans && t.chans[rid].sent == s.chans[rid].sent
    ensures TellsOrKeeps(t, rid, slot, cfg)
  {
    if Told(s, rid, slot) {
      var i :| 0 <= i < |s.chans[rid].sent| && SlotOf(s.chans[rid].sent[i]) == slot;
      assert SlotOf(t.chans[rid].sent[i]) == slot;
    }
  }

  lemma WaitTellsOrKeeps(s: State, r: ReqId, rid: ReqId, slot: Slot, cfg: Configuration)
    requires IdsOk(s) && TellsOrKeeps(s, rid, slot, cfg)
    ensures TellsOrKeeps(Wait(s, r), rid, slot, cfg)
  {
    if r in s.arrived {
      assert r != rid;
      OtherTellsOrKeeps(s, Wait(s, r), rid, slot, cfg);
    }
  }

  lemma ArriveTellsOrKeeps(s: State, req: Request, rid: ReqId, slot: Slot, cfg: Configuration)
    requires IdsOk(s) && TellsOrKeeps(s, rid, slot, cfg)
    ensures TellsOrKeeps(Arrive(s, req), rid, slot, cfg)
  {
    ArriveShape(s, req, Check(s, req));
    OtherTellsOrKeeps(s, Arrive(s, req), rid, slot, cfg);
  }

  lemma ReceiveTellsOrKeeps(s: State, r: ReqId, rid: ReqId, slot: Slot, cfg: Configuration)
    requires TellsOrKeeps(s, rid, slot, cfg)
    ensures TellsOrKeeps(Receive(s, r), rid, slot, cfg)
  {
    OtherTellsOrKeeps(s, Receive(s, r), rid, slot, cfg);
  }

  lemma StepTellsOrKeeps(s: State, step: Step, rid: ReqId, slot: Slot, cfg: Configuration)
    requires IdsOk(s) && step != CancelStep(rid) && TellsOrKeeps(s, rid, slot, cfg)
    ensures TellsOrKeeps(Do(s, step), rid, slot, cfg) || (step.BatchStep? && DeletesSlot(step.evs, slot))
  {
    match step
    case BatchStep(evs) => BatchTellsOrKeeps(s, evs, rid, slot, cfg);
    case ArriveStep(req) => ArriveTellsOrKeeps(s, req, rid, slot, cfg);
    case WaitStep(r) => WaitTellsOrKeeps(s, r, rid, slot, cfg);
    case CancelStep(r) => CancelTellsOrKeeps(s, r, rid, slot, cfg);
    case ReceiveStep(r) => ReceiveTellsOrKeeps(s, r, rid, slot, cfg);
  }

  lemma DeletedLater(steps: seq<Step>, slot: Slot)
    requires steps != [] && DeletedIn(steps[1..], slot)
    ensures DeletedIn(steps, slot)
  {
    var i :| 0 <= i < |steps[1..]| && steps[1..][i].BatchStep? && DeletesSlot(steps[1..][i].evs, slot);
    assert steps[i + 1] == steps[1..][i];
  }

  lemma {:induction false} RunTellsOrKeeps(s: State, steps: seq<Step>, rid: ReqId, slot: Slot, cfg: Configuration)
    requires Inv(s) && CancelStep(rid) !in steps && TellsOrKeeps(s, rid, slot, cfg)
    ensures TellsOrKeeps(Run(s, steps), rid, slot, cfg) || DeletedIn(steps, slot)
    decreases |steps|
  {
    if steps != [] {
      StepTellsOrKeeps(s, steps[0], rid, slot, cfg);
      if TellsOrKeeps(Do(s, steps[0]), rid, slot, cfg) {
        StepKeepsInv(s, steps[0]);
        RunTellsOrKeeps(Do(s, steps[0]), steps[1..], rid, slot, cfg);
        if DeletedIn(steps[1..], slot) {
          DeletedLater(steps, slot);
        }
      }
    }
  }

  lemma {:induction false} NewerComplete(data: map<Slot, Configuration>, id: StoreId, requested: seq<RequestedKey>, i: nat)
    requires AllKnown(data, id, requested) && i < |requested|
    requires HasUpdate(requested[i].version, data[KeySlot(id, requested[i])].version)
    ensures Newer(data, id, requested) != []
  {
    if i < |requested| - 1 {
      NewerComplete(data, id, requested[..|requested| - 1], i);
    }
  }

  lemma {:induction false} NewerIsStored(data: map<Slot, Configuration>, id: StoreId, requested: seq<RequestedKey>, j: nat)
    returns (m: nat)
    requires j < |Newer(data, id, requested)|
    ensures m < |requested| && KeySlot(id, requested[m]) in data
    ensures Newer(data, id, requested)[j] == data[KeySlot(id, requested[m])]
    ensures HasUpdate(requested[m].version, data[KeySlot(id, requested[m])].version)
  {
    var n := |requested| - 1;
    if j < |Newer(data, id, requested[..n])| {
      m := NewerIsStored(data, id, requested[..n], j);
    } else {
      m := n;
    }
  }

  /** The entry is stored, and its version comes after the client's where they first differ, or goes on after it. */
  predicate IsNews(s: State, id: StoreId, k: RequestedKey) {
    KeySlot(id, k) in s.data && Order.Precedes(k.version, s.data[KeySlot(id, k)].version)
  }

  lemma NewsIsUpdate(s: State, id: StoreId, k: RequestedKey)
    ensures IsNews(s, id, k) <==> KeySlot(id, k) in s.data && HasUpdate(k.version, s.data[KeySlot(id, k)].version)
  {
    if KeySlot(id, k) in s.data {
      Order.LessIff(k.version, s.data[KeySlot(id, k)].version);
    }
  }

  /** cfgs are the stored configurations of exactly the entries with news, at the places picks, in request order. */
  predicate PicksNews(s: State, id: StoreId, requested: seq<RequestedKey>, cfgs: seq<Configuration>, picks: seq<int>) {
    && |picks| == |cfgs| && (forall i, j :: 0 <= i < j < |picks| ==> picks[i] < picks[j])
    && (forall j :: 0 <= j < |picks| ==>
          && 0 <= picks[j] < |requested| && IsNews(s, id, requested[picks[j]])
          && cfgs[j] == s.data[KeySlot(id, requested[picks[j]])])
    && (forall i :: 0 <= i < |requested| && IsNews(s, id, requested[i]) ==> i in picks)
  }

  lemma {:induction false} NewerPicks(s: State, id: StoreId, requested: seq<RequestedKey>) returns (picks: seq<int>)
    ensures PicksNews(s, id, requested, Newer(s.data, id, requested), picks)
  {
    picks := [];
    if requested != [] {
      var n := |requested| - 1;
      var before := NewerPicks(s, id, requested[..n]);
      NewsIsUpdate(s, id, requested[n]);
      picks := if IsNews(s, id, requested[n]) then before + [n] else before;
      forall i | 0 <= i < |requested| && IsNews(s, id, requested[i]) ensures i in picks {
        assert i < n ==> requested[..n][i] == requested[i] && i in before;
      }
    }
  }

  /** What the check answers: unknown exactly when no store resolves or an entry is missing; otherwise the stored
      configurations of exactly the entries with news, in request order, or up to date when there are none. */
  lemma CheckMeans(s: State, req: Request)
    ensures var at := Resolve(s.known, req.selectors, req.optionalSelectors);
      match Check(s, req)
      case Unknown => at == None || exists i :: 0 <= i < |req.requested| && KeySlot(at.value, req.requested[i]) !in s.data
      case Updates(cfgs) =>
        && at.Some? && AllKnown(s.data, at.value, req.requested) && cfgs != []
        && exists picks :: PicksNews(s, at.value, req.requested, cfgs, picks)
      case UpToDate(id) =>
        at == Some(id) && AllKnown(s.data, id, req.requested)
        && forall i :: 0 <= i < |req.requested| ==> !IsNews(s, id, req.requested[i])
  {
    var at := Resolve(s.known, req.selectors, req.optionalSelectors);
    if at.Some? {
      var picks := NewerPicks(s, at.value, req.requested);
    }
  }

  /** The selectors lead to a store that has every entry, and none of them is news. */
  predicate NothingNew(s: State, req: Request) {
    var at := Resolve(s.known, req.selectors, req.optionalSelectors);
    at.Some? && AllKnown(s.data, at.value, req.requested)
    && forall i :: 0 <= i < |req.requested| ==> !IsNews(s, at.value, req.requested[i])
  }

  predicate SomethingNew(s: State, req: Request) {
    var at := Resolve(s.known, req.selectors, req.optionalSelectors);
    at.Some? && AllKnown(s.data, at.value, req.requested)
    && exists i :: 0 <= i < |req.requested| && IsNews(s, at.value, req.requested[i])
  }

  lemma CheckIff(s: State, req: Request)
    ensures Check(s, req).UpToDate? <==> NothingNew(s, req)
    ensures Check(s, req).Updates? <==> SomethingNew(s, req)
  {
    CheckMeans(s, req);
    var at := Resolve(s.known, req.selectors, req.optionalSelectors);
    if Check(s, req).Updates? {
      var cfgs := Check(s, req).cfgs;
      var picks :| PicksNews(s, at.value, req.requested, cfgs, picks);
      assert IsNews(s, at.value, req.requested[picks[0]]);
    }
  }

  predicate AnsweredWith(s: State, rid: ReqId, cfgs: seq<Configuration>) {
    rid in s.chans && s.chans[rid] == Chan(|cfgs|, cfgs, 0, true)
  }

  /** Exactly when the first check lets a request go on to the second one, and when it answers it at once. */
  lemma FirstCheckIff(s: State, req: Request)
    requires Inv(s)
    ensures var t := Arrive(s, req);
      && (t.lastId in t.arrived <==> NothingNew(s, req))
      && (t.lastId in t.chans <==> SomethingNew(s, req))
      && (SomethingNew(s, req) ==> AnsweredWith(t, t.lastId, Check(s, req).cfgs))
  {
    CheckIff(s, req);
    assert s.lastId + 1 !in s.arrived && s.lastId + 1 !in s.chans;
  }

  /** Exactly when the second check leaves it waiting, on an open and empty channel with room for every entry, and when it
      answers it at once. */
  lemma SecondCheckIff(s: State, rid: ReqId)
    requires Inv(s) && rid in s.arrived
    ensures var t := Wait(s, rid);
      && (rid in t.waits <==> NothingNew(s, s.arrived[rid]))
      && (rid in t.waits ==> rid in t.chans && t.chans[rid] == Chan(|s.arrived[rid].requested|, [], 0, false))
      && (rid in t.chans <==> NothingNew(s, s.arrived[rid]) || SomethingNew(s, s.arrived[rid]))
      && (SomethingNew(s, s.arrived[rid]) ==> AnsweredWith(t, rid, Check(s, s.arrived[rid]).cfgs))
  {
    CheckIff(s, s.arrived[rid]);
    assert rid !in s.waits && rid !in s.chans;
  }

  /** Whatever happened before the locked second check, a request that ends up waiting is registered for each of
      its keys against a stored configuration it does not lag behind. */
  lemma WaitingIsUpToDate(s: State, rid: ReqId, i: nat)
    requires Inv(s) && rid in s.arrived && rid in Wait(s, rid).waits && i < |s.arrived[rid].requested|
    ensures var t := Wait(s, rid);
      var slot := KeySlot(t.waits[rid].store, s.arrived[rid].requested[i]);
      slot in t.data && Unchanged(t, rid, slot, t.data[slot])
      && !Order.Precedes(s.arrived[rid].requested[i].version, t.data[slot].version)
  {
    var req := s.arrived[rid];
    var id := Check(s, req).store;
    NewsIsUpdate(s, id, req.requested[i]);
    if HasUpdate(req.requested[i].version, s.data[KeySlot(id, req.requested[i])].version) {
      NewerComplete(s.data, id, req.requested, i);
    }
    assert Keys(req.requested)[i] == KeySlot(id, req.requested[i]).key;
  }

  /** No lost update. For any run up to the second check and any run after it without the request's cancel, each
      requested key is still registered and unchanged, or its channel was sent a configuration for it and is
      closed so that the reader wakes, or the key was deleted meanwhile. */
  lemma NoLostUpdate(before: seq<Step>, rid: ReqId, after: seq<Step>, i: nat)
    requires rid in Run(INIT, before).arrived && i < |Run(INIT, before).arrived[rid].requested|
    requires rid in Wait(Run(INIT, before), rid).waits && CancelStep(rid) !in after
    ensures var s := Run(INIT, before);
      var t := Wait(s, rid);
      var slot := KeySlot(t.waits[rid].store, s.arrived[rid].requested[i]);
      var u := Run(t, after);
      slot in t.data &&
      (Unchanged(u, rid, slot, t.data[slot]) || (Told(u, rid, slot) && u.chans[rid].closed) || DeletedIn(after, slot))
  {
    var s := Run(INIT, before);
    Reachable(before);
    WaitKeepsInv(s, rid);
    WaitingIsUpToDate(s, rid, i);
    var t := Wait(s, rid);
    var slot := KeySlot(t.waits[rid].store, s.arrived[rid].requested[i]);
    RunTellsOrKeeps(t, after, rid, slot, t.data[slot]);
    RunKeepsInv(t, after);
  }

  // ----- at most one event per requested key

  /** A waiting request was sent only configurations of keys it asked for, none of them twice or still registered. */
  predicate SentOk(s: State) {
    forall r :: r in s.waits && r in s.chans ==> SentOkFor(s, r, s.chans[r].sent)
  }

  predicate Asked(s: State, r: ReqId, cfg: Configuration)
    requires r in s.waits
  {
    && SlotOf(cfg).store == s.waits[r].store && SlotOf(cfg).key in s.waits[r].keys
    && Registration(SlotOf(cfg), r) !in s.listening
  }

  predicate SentOkFor(s: State, r: ReqId, sent: seq<Configuration>)
    requires r in s.waits
  {
    && (forall i :: 0 <= i < |sent| ==> Asked(s, r, sent[i]))
    && (forall i, j :: 0 <= i < j < |sent| ==> SlotOf(sent[i]) != SlotOf(sent[j]))
  }

  /** A state with fewer registrations for the request. */
  lemma SentOkFewer(s: State, t: State, r: ReqId, sent: seq<Configuration>)
    requires r in s.waits && r in t.waits && t.waits[r] == s.waits[r] && SentOkFor(s, r, sent)
    requires forall sl :: Registration(sl, r) in t.listening ==> Registration(sl, r) in s.listening
    ensures SentOkFor(t, r, sent)
  {
    forall i | 0 <= i < |sent| ensures Asked(t, r, sent[i]) {
      assert Asked(s, r, sent[i]);
    }
  }

  /** One more configuration, of a key that was registered until now. */
  lemma SentOkMore(s: State, t: State, r: ReqId, sent: seq<Configuration>, cfg: Configuration)
    requires r in s.waits && r in t.waits && t.waits[r] == s.waits[r] && SentOkFor(s, r, sent) && SentOkFor(t, r, sent)
    requires Registration(SlotOf(cfg), r) in s.listening && Asked(t, r, cfg)
    ensures SentOkFor(t, r, sent + [cfg])
  {
    forall i | 0 <= i < |sent| ensures SlotOf(sent[i]) != SlotOf(cfg) {
      assert Asked(s, r, sent[i]);
    }
  }

  lemma EventKeepsSentOk(s: State, ev: Event)
    requires ListenersOk(s) && SentOk(s)
    ensures SentOk(ApplyEvent(s, ev))
  {
    var t := ApplyEvent(s, ev);
    forall r | r in t.waits && r in t.chans ensures SentOkFor(t, r, t.chans[r].sent) {
      SentOkFewer(s, t, r, s.chans[r].sent);
      if r in HitBy(s, ev) {
        assert Registration(SlotOf(ev.cfg), r) in s.listening;
        SentOkMore(s, t, r, s.chans[r].sent, ev.cfg);
      }
    }
  }

  lemma {:induction false} EventsKeepSentOk(s: State, evs: seq<Event>)
    requires Core(s) && SentOk(s)
    ensures SentOk(ApplyEvents(s, evs))
    decreases |evs|
  {
    if evs != [] {
      EventKeepsSentOk(s, evs[0]);
      EventKeepsOnlyCore(s, evs[0]);
      EventsKeepSentOk(ApplyEvent(s, evs[0]), evs[1..]);
    }
  }

  /** SentOk looks only at what was sent, who waits, and which registrations are left. */
  lemma SentOkFrame(s: State, t: State)
    requires SentOk(s)
    requires forall r :: r in t.waits && r in t.chans ==>
      t.chans[r].sent == [] ||
      (r in s.waits && r in s.chans && t.waits[r] == s.waits[r] && t.chans[r].sent == s.chans[r].sent
       && forall sl :: Registration(sl, r) in t.listening ==> Registration(sl, r) in s.listening)
    ensures SentOk(t)
  {
    forall r | r in t.waits && r in t.chans ensures SentOkFor(t, r, t.chans[r].sent) {
      if t.chans[r].sent != [] {
        SentOkFewer(s, t, r, t.chans[r].sent);
      }
    }
  }

  lemma BatchKeepsSentOk(s: State, evs: seq<Event>)
    requires Inv(s) && SentOk(s)
    ensures SentOk(Batch(s, evs))
  {
    EventsKeepSentOk(s, evs);
    EventsKeepChans(s, evs);
    SentOkFrame(ApplyEvents(s, evs), Batch(s, evs));
  }

  lemma RegisterKeepsSentOk(s: State, rid: ReqId, id: StoreId, req: Request)
    requires SentOk(s)
    ensures SentOk(Register(s.(arrived := s.arrived - {rid}), rid, id, req))
  {
    var t := Register(s.(arrived := s.arrived - {rid}), rid, id, req);
    assert forall sl, r :: r != rid && Registration(sl, r) in t.listening ==> Registration(sl, r) in s.listening;
    SentOkFrame(s, t);
  }

  lemma WaitKeepsSentOk(s: State, rid: ReqId)
    requires Inv(s) && SentOk(s)
    ensures SentOk(Wait(s, rid))
  {
    if rid in s.arrived {
      var t := Wait(s, rid);
      if t.waits == s.waits {
        assert t.listening == s.listening;
        SentOkFrame(s, t);
      } else {
        RegisterKeepsSentOk(s, rid, Check(s, s.arrived[rid]).store, s.arrived[rid]);
      }
    }
  }

  lemma CancelKeepsSentOk(s: State, rid: ReqId)
    requires SentOk(s)
    ensures SentOk(Cancel(s, rid))
  {
    SentOkFrame(s, Cancel(s, rid));
  }

  lemma ArriveKeepsSentOk(s: State, req: Request)
    requires IdsOk(s) && SentOk(s)
    ensures SentOk(Arrive(s, req))
  {
    ArriveShape(s, req, Check(s, req));
    SentOkFrame(s, Arrive(s, req));
  }

  lemma ReceiveKeepsSentOk(s: State, rid: ReqId)
    requires SentOk(s)
    ensures SentOk(Receive(s, rid))
  {
    SentOkFrame(s, Receive(s, rid));
  }

  lemma StepKeepsSentOk(s: State, step: Step)
    requires Inv(s) && SentOk(s)
    ensures SentOk(Do(s, step))
  {
    match step
    case BatchStep(evs) => BatchKeepsSentOk(s, evs);
    case ArriveStep(req) => ArriveKeepsSentOk(s, req);
    case WaitStep(rid) => WaitKeepsSentOk(s, rid);
    case CancelStep(rid) => CancelKeepsSentOk(s, rid);
    case ReceiveStep(rid) => ReceiveKeepsSentOk(s, rid);
  }

  lemma {:induction false} RunKeepsSentOk(s: State, steps: seq<Step>)
    requires Inv(s) && SentOk(s)
    ensures SentOk(Run(s, steps))
    decreases |steps|
  {
    if steps != [] {
      StepKeepsSentOk(s, steps[0]);
      StepKeepsInv(s, steps[0]);
      RunKeepsSentOk(Do(s, steps[0]), steps[1..]);
    }
  }

  /** A waiting request's channel that has been closed carried at least one event, at most one per requested
      entry, each for a different requested key. */
  lemma ClosedChannelCarried(steps: seq<Step>, r: ReqId)
    requires r in Run(INIT, steps).waits && r in Run(INIT, steps).chans && Run(INIT, steps).chans[r].closed
    ensures var s := Run(INIT, steps);
      && 1 <= |s.chans[r].sent| <= s.chans[r].cap
      && (forall i :: 0 <= i < |s.chans[r].sent| ==> SlotOf(s.chans[r].sent[i]).key in s.waits[r].keys)
      && (forall i, j :: 0 <= i < j < |s.chans[r].sent| ==>
            SlotOf(s.chans[r].sent[i]) != SlotOf(s.chans[r].sent[j]))
  {
    Reachable(steps);
    InitInv();
    RunKeepsSentOk(INIT, steps);
    var s := Run(INIT, steps);
    assert SentOkFor(s, r, s.chans[r].sent);
    assert forall i :: 0 <= i < |s.chans[r].sent| ==> Asked(s, r, s.chans[r].sent[i]);
  }
}
