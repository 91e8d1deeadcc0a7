/**
 The server's objects and loops. Each method is proved against the steps of ServerModel: `model` is the state
 the maps of the objects stand for, and Valid() ties the two together.
 */
module ServerCore {
  import opened Wrappers
  import opened ServerModel
  import opened ServerInvariant
  import opened ServerDelivery
  import ServerHistory

  /** The channels behind the listeners, by request id. */
  class ChannelHub {
    var chans: map<ReqId, Chan>

    constructor ()
      ensures chans == map[]
    {
      chans := map[];
    }
  }

  class SelectorsStore {
    var data: map<string, Configuration>
    var listeners: map<string, set<ReqId>>

    constructor ()
      ensures data == map[] && listeners == map[]
    {
      data := map[];
      listeners := map[];
    }

    predicate Listens(key: string, r: ReqId)
      reads this
    {
      key in listeners && r in listeners[key]
    }

    function Listeners(key: string): set<ReqId>
      reads this
    {
      if key in listeners then listeners[key] else {}
    }

    method GetConfiguration(group: string, key: string) returns (cfg: Option<Configuration>)
      ensures cfg == if CfgKey(group, key) in data then Some(data[CfgKey(group, key)]) else None
    {
      var k := CfgKey(group, key);
      cfg := if k in data then Some(data[k]) else None;
    }

    method RegisterListener(reqid: ReqId, group: string, key: string)
      modifies this`listeners
      ensures forall k, r :: Listens(k, r) <==> old(Listens(k, r)) || (k == CfgKey(group, key) && r == reqid)
    {
      var k := CfgKey(group, key);
      var m := if k in listeners then listeners[k] else {};
      listeners := listeners[k := m + {reqid}];
    }

    method CancelWait(reqid: ReqId, list: seq<string>)
      modifies this`listeners
      ensures forall k, r :: Listens(k, r) <==> old(Listens(k, r)) && !(r == reqid && k in list)
    {
      for i := 0 to |list|
        invariant forall k, r :: Listens(k, r) <==> old(Listens(k, r)) && !(r == reqid && k in list[..i])
      {
        if list[i] in listeners {
          listeners := listeners[list[i] := listeners[list[i]] - {reqid}];
        }
        assert list[..i + 1] == list[..i] + [list[i]];
      }
      assert list[..|list|] == list;
    }

    /** ok is false where the Go code would panic on a closed channel or block on a full one. */
    method SaveConfigurationWithNotification(cfg: Configuration, hub: ChannelHub, chMap: set<ReqId>)
      returns (ok: bool, notified: set<ReqId>)
      requires forall r :: r in Listeners(CfgKey(cfg.group, cfg.key)) ==> r in hub.chans
      modifies this, hub
      ensures ok <==> forall r :: r in old(Listeners(CfgKey(cfg.group, cfg.key))) ==> SendOk(old(hub.chans)[r])
      ensures ok ==>
        && data == old(data)[CfgKey(cfg.group, cfg.key) := cfg]
        && (forall k, r :: Listens(k, r) <==> old(Listens(k, r)) && k != CfgKey(cfg.group, cfg.key))
        && hub.chans == Notify(old(hub.chans), old(Listeners(CfgKey(cfg.group, cfg.key))), cfg)
        && notified == chMap + old(Listeners(CfgKey(cfg.group, cfg.key)))
    {
      var key := CfgKey(cfg.group, cfg.key);
      data := data[key := cfg];
      notified := chMap;
      if key in listeners {
        var hit := listeners[key];
        var todo := hit;
        var sent: set<ReqId> := {};
        assert hub.chans == Notify(old(hub.chans), sent, cfg);
        while todo != {}
          invariant todo !! sent && todo + sent == hit
          invariant hub.chans == Notify(old(hub.chans), sent, cfg)
          invariant notified == chMap + sent
          invariant forall r :: r in sent ==> SendOk(old(hub.chans)[r])
          invariant listeners == old(listeners) && data == old(data)[key := cfg]
        {
          var r :| r in todo;
          assert r in old(Listeners(key)) && hub.chans[r] == old(hub.chans)[r];
          if !SendOk(hub.chans[r]) {
            ok := false;
            return;
          }
          hub.chans := hub.chans[r := hub.chans[r].(sent := hub.chans[r].sent + [cfg])];
          notified := notified + {r};
          todo, sent := todo - {r}, sent + {r};
        }
        assert sent == hit;
        listeners := listeners - {key};
      } else {
        assert hub.chans == Notify(old(hub.chans), {}, cfg);
      }
      ok := true;
    }

    method DeleteConfiguration(cfg: Configuration)
      modifies this
      ensures data == old(data) - {CfgKey(cfg.group, cfg.key)}
      ensures forall k, r :: Listens(k, r) <==> old(Listens(k, r)) && k != CfgKey(cfg.group, cfg.key)
    {
      var key := CfgKey(cfg.group, cfg.key);
      listeners := listeners - {key};
      data := data - {key};
    }
  }

  /** One entry of the selectors map. */
  datatype Group = Group(store: SelectorsStore, opts: map<string, SelectorsStore>)

  /** A store object holds its part of the flat state. */
  ghost predicate StoreAgrees(store: SelectorsStore, id: StoreId, data: map<Slot, Configuration>, listening: set<Registration>)
    reads store
  {
    && (forall k :: k in store.data <==> Slot(id, k) in data)
    && (forall k :: k in store.data ==> store.data[k] == data[Slot(id, k)])
    && (forall k, r :: store.Listens(k, r) <==> Registration(Slot(id, k), r) in listening)
  }

  /** The two-level map and the flat index hold the same stores. */
  ghost predicate SameStores(groups: map<string, Group>, index: map<StoreId, SelectorsStore>) {
    && (forall sel, opt {:trigger StoreId(sel, opt)} ::
          StoreId(sel, opt) in index <==> sel in groups && (opt == "" || opt in groups[sel].opts))
    && (forall sel, opt {:trigger StoreId(sel, opt)} :: StoreId(sel, opt) in index ==>
          index[StoreId(sel, opt)] == if opt == "" then groups[sel].store else groups[sel].opts[opt])
  }

  /** The facts of the invariant the objects rely on. */
  ghost predicate Sound(s: State) {
    && (forall sl :: sl in s.data ==> sl.store in s.known)
    && (forall l :: l in s.listening ==> l.slot.store in s.known && l.req in s.chans)
  }

  lemma HasDefault(groups: map<string, Group>, index: map<StoreId, SelectorsStore>, sel: string)
    requires SameStores(groups, index)
    ensures sel in groups <==> StoreId(sel, "") in index
  {
  }

  lemma AddDefault(groups: map<string, Group>, index: map<StoreId, SelectorsStore>, sel: string, store: SelectorsStore)
    requires SameStores(groups, index) && sel !in groups
    ensures SameStores(groups[sel := Group(store, map[])], index[StoreId(sel, "") := store])
    ensures StoreId(sel, "") !in index
  {
  }

  lemma AddOptional(groups: map<string, Group>, index: map<StoreId, SelectorsStore>, sel: string, opt: string,
                    store: SelectorsStore)
    requires SameStores(groups, index) && sel in groups && opt != "" && opt !in groups[sel].opts
    ensures SameStores(groups[sel := groups[sel].(opts := groups[sel].opts[opt := store])],
                       index[StoreId(sel, opt) := store])
    ensures StoreId(sel, opt) !in index
  {
  }

  /** A change to one slot leaves the stores of other selectors in agreement. */
  lemma OtherStoreAgrees(store: SelectorsStore, id: StoreId, s: State, t: State, slot: Slot)
    requires StoreAgrees(store, id, s.data, s.listening) && id != slot.store
    requires forall sl :: sl != slot ==> (sl in t.data <==> sl in s.data)
    requires forall sl :: sl != slot && sl in s.data ==> t.data[sl] == s.data[sl]
    requires t.listening == Unlisten(s.listening, slot)
    ensures StoreAgrees(store, id, t.data, t.listening)
  {
    assert forall k :: Slot(id, k) != slot;
    assert forall k, r :: Registration(Slot(id, k), r).slot == Slot(id, k);
  }

  /** The store of the changed slot agrees again if its maps changed at that key in the same way. */
  lemma ChangedStoreAgrees(store: SelectorsStore, was: map<string, Configuration>, now: Option<Configuration>,
                           s: State, t: State, slot: Slot)
    requires forall k :: k in was <==> Slot(slot.store, k) in s.data
    requires forall k :: k in was ==> was[k] == s.data[Slot(slot.store, k)]
    requires forall k, r :: store.Listens(k, r) <==> Registration(Slot(slot.store, k), r) in s.listening && k != slot.key
    requires t.listening == Unlisten(s.listening, slot)
    requires match now
      case Some(cfg) => store.data == was[slot.key := cfg] && t.data == s.data[slot := cfg]
      case None => store.data == was - {slot.key} && t.data == s.data - {slot}
    ensures StoreAgrees(store, slot.store, t.data, t.listening)
  {
    assert forall k, r :: Registration(Slot(slot.store, k), r).slot == Slot(slot.store, k);
    assert forall k :: Slot(slot.store, k) == slot <==> k == slot.key;
  }

  /** Every listener of the slot can be sent to. */
  predicate SlotSafe(s: State, slot: Slot) {
    forall r :: r in Hit(s.listening, slot) ==> r in s.chans && SendOk(s.chans[r])
  }

  lemma ListenersAre(store: SelectorsStore, s: State, slot: Slot)
    requires StoreAgrees(store, slot.store, s.data, s.listening) && Sound(s)
    ensures store.Listeners(slot.key) == Hit(s.listening, slot)
    ensures forall r :: r in Hit(s.listening, slot) ==> r in s.chans
  {
    assert forall r :: r in store.Listeners(slot.key) <==> store.Listens(slot.key, r);
  }

  lemma EventSafeMeans(s: State, ev: Event)
    ensures EventSafe(s, ev) <==> (IsSave(ev) ==> SlotSafe(s, SlotOf(ev.cfg)))
  {
  }

  /** Touching the stores of a change first makes no difference to it. */
  lemma SaveAfterTouch(s: State, cfg: Configuration)
    ensures var t := s.(known := Touch(s.known, SlotOf(cfg).store));
      Save(t, cfg) == Save(s, cfg) && Delete(t, cfg) == Delete(s, cfg) && (SlotSafe(t, SlotOf(cfg)) <==> SlotSafe(s, SlotOf(cfg)))
  {
    var id := SlotOf(cfg).store;
    assert Touch(Touch(s.known, id), id) == Touch(s.known, id);
  }

  lemma NobodyListens(s: State, cfg: Configuration)
    requires s.listening == {}
    ensures SlotSafe(s, SlotOf(cfg)) && Save(s, cfg).listening == {}
  {
  }

  /** Stores other than that of the changed slot still agree. */
  lemma OthersAgree(index: map<StoreId, SelectorsStore>, s: State, t: State, slot: Slot)
    requires forall id :: id in index && id != slot.store ==> StoreAgrees(index[id], id, s.data, s.listening)
    requires forall sl :: sl != slot ==> (sl in t.data <==> sl in s.data)
    requires forall sl :: sl != slot && sl in s.data ==> t.data[sl] == s.data[sl]
    requires t.listening == Unlisten(s.listening, slot)
    ensures forall id :: id in index && id != slot.store ==> StoreAgrees(index[id], id, t.data, t.listening)
  {
    forall id | id in index && id != slot.store ensures StoreAgrees(index[id], id, t.data, t.listening) {
      OtherStoreAgrees(index[id], id, s, t, slot);
    }
  }

  /** A registration of one request in one store, seen from any store. */
  lemma AddedAgrees(store: SelectorsStore, o: StoreId, was: set<Registration>, rid: ReqId, id: StoreId, keys: seq<string>,
                    data: map<Slot, Configuration>)
    requires forall k :: k in store.data <==> Slot(o, k) in data
    requires forall k :: k in store.data ==> store.data[k] == data[Slot(o, k)]
    requires forall k, r :: store.Listens(k, r) <==>
      Registration(Slot(o, k), r) in was || (o == id && r == rid && k in keys)
    ensures StoreAgrees(store, o, data, was + Registrations(rid, id, keys))
  {
    var added := Registrations(rid, id, keys);
    assert forall k, r :: Registration(Slot(o, k), r) in added <==> o == id && r == rid && k in keys;
  }

  lemma SoundAfterChange(s: State, t: State, slot: Slot)
    requires Sound(s) && slot.store in s.known && s.known <= t.known && t.chans.Keys == s.chans.Keys
    requires forall sl :: sl in t.data ==> sl == slot || sl in s.data
    requires t.listening <= s.listening
    ensures Sound(t)
  {
  }

  class Server {
    var groups: map<string, Group>
    const hub: ChannelHub
    var cachedId: nat
    ghost var model: State
    ghost var index: map<StoreId, SelectorsStore>
    ghost var stores: set<SelectorsStore>

    ghost predicate Shape()
      reads this`groups, this`index, this`stores
    {
      && SameStores(groups, index)
      && (forall id :: id in index ==> index[id] in stores)
      && (forall a, b :: a in index && b in index && a != b ==> index[a] != index[b])
    }

    ghost predicate Linked()
      reads this, hub, stores
    {
      && (forall id :: id in index ==> index[id] in stores)
      && model.known == index.Keys
      && Sound(model)
      && cachedId == model.lastId
      && hub.chans == model.chans
      && (forall id :: id in index ==> StoreAgrees(index[id], id, model.data, model.listening))
    }

    ghost predicate Valid()
      reads this, hub, stores
    {
      Shape() && Linked()
    }

    constructor ()
      ensures Valid() && model == INIT && fresh(hub) && stores == {}
    {
      groups := map[];
      hub := new ChannelHub();
      cachedId := 0;
      model := INIT;
      index := map[];
      stores := {};
    }

    method GetSelectorsGeneral(sel: string, opt: string) returns (store: Option<SelectorsStore>)
      requires Valid()
      ensures match Resolve(model.known, sel, opt)
        case None => store == None
        case Some(id) => id in index && store == Some(index[id])
    {
      if sel in groups {
        if opt == "" {
          return Some(groups[sel].store);
        }
        if opt in groups[sel].opts {
          return Some(groups[sel].opts[opt]);
        }
        return Some(groups[sel].store);
      }
      return None;
    }

    /** A new store under the given name, which the two-level map already points to. */
    ghost predicate NewStore(store: SelectorsStore)
      reads store
    {
      store.data == map[] && store.listeners == map[]
    }

    method AddDefaultStore(sel: string) returns (store: SelectorsStore)
      requires Shape() && sel !in groups
      modifies this`groups, this`stores, this`index
      ensures Shape() && sel in groups && groups[sel].store == store && StoreId(sel, "") !in old(index)
      ensures index == old(index)[StoreId(sel, "") := store] && stores == old(stores) + {store}
      ensures fresh(store) && NewStore(store)
    {
      store := new SelectorsStore();
      AddDefault(groups, index, sel, store);
      groups := groups[sel := Group(store, map[])];
      index := index[StoreId(sel, "") := store];
      stores := stores + {store};
    }

    method AddOptionalStore(sel: string, opt: string) returns (store: SelectorsStore)
      requires Shape() && sel in groups && opt != "" && opt !in groups[sel].opts
      modifies this`groups, this`stores, this`index
      ensures Shape() && StoreId(sel, opt) !in old(index)
      ensures index == old(index)[StoreId(sel, opt) := store] && stores == old(stores) + {store}
      ensures fresh(store) && NewStore(store)
    {
      store := new SelectorsStore();
      AddOptional(groups, index, sel, opt, store);
      groups := groups[sel := groups[sel].(opts := groups[sel].opts[opt := store])];
      index := index[StoreId(sel, opt) := store];
      stores := stores + {store};
    }

    method GetOrCreateDefault(sel: string) returns (store: SelectorsStore)
      requires Shape()
      modifies this`groups, this`stores, this`index
      ensures Shape() && sel in groups && groups[sel].store == store
      ensures index == old(index)[StoreId(sel, "") := store] && stores == old(stores) + {store}
      ensures if StoreId(sel, "") in old(index) then store in old(stores) && store == old(index)[StoreId(sel, "")]
        else fresh(store) && NewStore(store)
    {
      HasDefault(groups, index, sel);
      if sel in groups {
        store := groups[sel].store;
      } else {
        store := AddDefaultStore(sel);
      }
    }

    method GetOrCreateOptional(sel: string, opt: string) returns (store: SelectorsStore)
      requires Shape() && sel in groups && opt != ""
      modifies this`groups, this`stores, this`index
      ensures Shape()
      ensures index == old(index)[StoreId(sel, opt) := store] && stores == old(stores) + {store}
      ensures if StoreId(sel, opt) in old(index) then store in old(stores) && store == old(index)[StoreId(sel, opt)]
        else fresh(store) && NewStore(store)
    {
      if opt in groups[sel].opts {
        store := groups[sel].opts[opt];
      } else {
        store := AddOptionalStore(sel, opt);
      }
    }

    /** The model step that goes with a store being looked up or created under id. */
    ghost method Record(id: StoreId, store: SelectorsStore)
      requires id in index && index[id] == store
      requires forall o :: o in index ==> index[o] in stores
      requires Sound(model) && cachedId == model.lastId && hub.chans == model.chans
      requires index.Keys == model.known + {id}
      requires id !in model.known ==> NewStore(store)
      requires forall o :: o in model.known ==> StoreAgrees(index[o], o, model.data, model.listening)
      modifies this`model
      ensures Linked() && model == old(model).(known := old(model).known + {id})
    {
      model := model.(known := model.known + {id});
      if id !in old(model).known {
        assert forall k, r :: Registration(Slot(id, k), r).slot.store == id;
      }
    }

    method DefaultLevel(sel: string) returns (store: SelectorsStore)
      requires Valid()
      modifies this`groups, this`stores, this`model, this`index
      ensures Valid() && model == old(model).(known := old(model).known + {StoreId(sel, "")})
      ensures sel in groups && StoreId(sel, "") in index && store == index[StoreId(sel, "")]
      ensures stores == old(stores) + {store} && forall o :: o in stores ==> o in old(stores) || fresh(o)
    {
      store := GetOrCreateDefault(sel);
      assert forall o :: o in old(index) ==> index[o] == old(index)[o] && index[o] in old(stores);
      Record(StoreId(sel, ""), store);
    }

    method OptionalLevel(sel: string, opt: string) returns (store: SelectorsStore)
      requires Valid() && sel in groups && opt != ""
      modifies this`groups, this`stores, this`model, this`index
      ensures Valid() && model == old(model).(known := old(model).known + {StoreId(sel, opt)})
      ensures StoreId(sel, opt) in index && store == index[StoreId(sel, opt)]
      ensures stores == old(stores) + {store} && forall o :: o in stores ==> o in old(stores) || fresh(o)
    {
      store := GetOrCreateOptional(sel, opt);
      Record(StoreId(sel, opt), store);
    }

    method GetOrCreateSelectorsGeneral(sel: string, opt: string) returns (store: SelectorsStore)
      requires Valid()
      modifies this`groups, this`stores, this`model, this`index
      ensures Valid() && model == old(model).(known := Touch(old(model).known, StoreId(sel, opt)))
      ensures StoreId(sel, opt) in index && store == index[StoreId(sel, opt)]
      ensures forall o :: o in stores ==> o in old(stores) || fresh(o)
    {
      assert StoreId(sel, opt) == StoreId(sel, "") || opt != "";
      store := DefaultLevel(sel);
      if opt != "" {
        store := OptionalLevel(sel, opt);
      }
      assert Touch(old(model).known, StoreId(sel, opt)) == old(model).known + {StoreId(sel, "")} + {StoreId(sel, opt)};
    }

    /** The model step that goes with a changed slot of one store; the other stores are as they were. */
    ghost method RecordChange(store: SelectorsStore, was: map<string, Configuration>, now: Option<Configuration>,
                              slot: Slot, t: State)
      requires Shape() && slot.store in index && index[slot.store] == store
      requires index.Keys == model.known == t.known && Sound(model) && cachedId == model.lastId == t.lastId
      requires hub.chans == t.chans && t.chans.Keys == model.chans.Keys
      requires t.listening == Unlisten(model.listening, slot)
      requires forall id :: id in index && id != slot.store ==>
        StoreAgrees(index[id], id, model.data, model.listening)
      requires forall k :: k in was <==> Slot(slot.store, k) in model.data
      requires forall k :: k in was ==> was[k] == model.data[Slot(slot.store, k)]
      requires forall k, r ::
        store.Listens(k, r) <==> Registration(Slot(slot.store, k), r) in model.listening && k != slot.key
      requires match now
        case Some(cfg) => store.data == was[slot.key := cfg] && t.data == model.data[slot := cfg]
        case None => store.data == was - {slot.key} && t.data == model.data - {slot}
      modifies this`model
      ensures Valid() && model == t
    {
      ChangedStoreAgrees(store, was, now, model, t, slot);
      SoundAfterChange(model, t, slot);
      OthersAgree(index, model, t, slot);
      model := t;
    }

    /** The rest of a save, once the store is at hand. ok is false where Go would panic or block. */
    method SaveIn(store: SelectorsStore, cfg: Configuration, chMap: set<ReqId>) returns (ok: bool, notified: set<ReqId>)
      requires Valid() && SlotOf(cfg).store in index && store == index[SlotOf(cfg).store]
      modifies hub, store, this`model
      ensures ok <==> SlotSafe(old(model), SlotOf(cfg))
      ensures ok ==> Valid() && model == Save(old(model), cfg) && notified == chMap + Hit(old(model).listening, SlotOf(cfg))
    {
      ghost var slot := SlotOf(cfg);
      ghost var was := store.data;
      ListenersAre(store, model, slot);
      ok, notified := store.SaveConfigurationWithNotification(cfg, hub, chMap);
      if ok {
        assert Touch(model.known, slot.store) == model.known;
        RecordChange(store, was, Some(cfg), slot, Save(model, cfg));
      }
    }

    method DeleteIn(store: SelectorsStore, cfg: Configuration)
      requires Valid() && SlotOf(cfg).store in index && store == index[SlotOf(cfg).store]
      modifies store, this`model
      ensures Valid() && model == Delete(old(model), cfg)
    {
      ghost var slot := SlotOf(cfg);
      ghost var was := store.data;
      store.DeleteConfiguration(cfg);
      assert Touch(model.known, slot.store) == model.known;
      RecordChange(store, was, None, slot, Delete(model, cfg));
    }

    /** The store a change goes to, created if need be; that alone makes no difference to the change. */
    method StoreFor(cfg: Configuration) returns (store: SelectorsStore)
      requires Valid()
      modifies this`groups, this`stores, this`model, this`index
      ensures Valid() && SlotOf(cfg).store in index && store == index[SlotOf(cfg).store] && store in stores
      ensures Save(model, cfg) == Save(old(model), cfg) && Delete(model, cfg) == Delete(old(model), cfg)
      ensures model.listening == old(model).listening && (SlotSafe(model, SlotOf(cfg)) <==> SlotSafe(old(model), SlotOf(cfg)))
      ensures forall o :: o in stores ==> o in old(stores) || fresh(o)
    {
      store := GetOrCreateSelectorsGeneral(cfg.selectors, cfg.optionalSelectors);
      SaveAfterTouch(old(model), cfg);
    }

    method ApplySave(cfg: Configuration, chMap: set<ReqId>) returns (ok: bool, notified: set<ReqId>)
      requires Valid()
      modifies this, hub, stores
      ensures ok <==> SlotSafe(old(model), SlotOf(cfg))
      ensures ok ==> Valid() && model == Save(old(model), cfg) && notified == chMap + Hit(old(model).listening, SlotOf(cfg))
      ensures forall o :: o in stores ==> o in old(stores) || fresh(o)
    {
      var store := StoreFor(cfg);
      ok, notified := SaveIn(store, cfg, chMap);
    }

    method ApplyDelete(cfg: Configuration)
      requires Valid()
      modifies this, hub, stores
      ensures Valid() && model == Delete(old(model), cfg)
      ensures forall o :: o in stores ==> o in old(stores) || fresh(o)
    {
      var store := StoreFor(cfg);
      DeleteIn(store, cfg);
    }

    /** One event of a batch. */
    method ApplyOne(ev: Event, chMap: set<ReqId>) returns (ok: bool, notified: set<ReqId>)
      requires Valid()
      modifies this, hub, stores
      ensures ok <==> EventSafe(old(model), ev)
      ensures ok ==> Valid() && model == ApplyEvent(old(model), ev) && notified == chMap + HitBy(old(model), ev)
      ensures forall o :: o in stores ==> o in old(stores) || fresh(o)
    {
      ok, notified := true, chMap;
      EventSafeMeans(model, ev);
      if ev.created || ev.modified {
        ok, notified := ApplySave(ev.cfg, chMap);
      } else if ev.deleted {
        ApplyDelete(ev.cfg);
      }
    }

    /** One round of the pump loop, under the write lock. ok is false exactly where Go would panic. */
    method ApplyBatch(evs: seq<Event>) returns (ok: bool)
      requires Valid()
      modifies this, hub, stores
      ensures ok <==> BatchSafe(old(model), evs)
      ensures ok ==> Valid() && model == Batch(old(model), evs)
      ensures forall o :: o in stores ==> o in old(stores) || fresh(o)
    {
      ghost var start := model;
      var chMap: set<ReqId> := {};
      for i := 0 to |evs|
        invariant Valid() && model == ApplyEvents(start, evs[..i]) && chMap == Notified(start, evs[..i])
        invariant BatchSafe(start, evs[..i])
        invariant forall o :: o in stores ==> o in old(stores) || fresh(o)
      {
        BatchAppend(start, evs, i);
        ok, chMap := ApplyOne(evs[i], chMap);
        if !ok {
          return;
        }
      }
      assert evs[..|evs|] == evs;
      CloseChannels(start, evs, chMap);
      ok := true;
    }

    method CloseChannels(ghost start: State, ghost evs: seq<Event>, chMap: set<ReqId>)
      requires Valid() && BatchSafe(start, evs) && model == ApplyEvents(start, evs) && chMap == Notified(start, evs)
      modifies this`model, hub
      ensures Valid() && model == Batch(start, evs)
    {
      ghost var chans := hub.chans;
      var todo := chMap;
      ghost var done: set<ReqId> := {};
      assert hub.chans == CloseAll(chans, done);
      while todo != {}
        invariant todo !! done && todo + done == chMap
        invariant hub.chans == CloseAll(chans, done)
        modifies hub
      {
        var r :| r in todo;
        SafeBatchClosesOnce(start, evs, r);
        assert !hub.chans[r].closed;
        hub.chans := hub.chans[r := hub.chans[r].(closed := true)];
        todo, done := todo - {r}, done + {r};
      }
      assert done == chMap;
      model := model.(chans := hub.chans);
    }

    /** The loop over the requested entries: none as soon as one is missing, else those with updates. */
    method CheckEntries(store: SelectorsStore, requested: seq<RequestedKey>, ghost id: StoreId,
                        ghost data: map<Slot, Configuration>)
      returns (cfgs: Option<seq<Configuration>>)
      requires StoreAgrees(store, id, data, model.listening)
      ensures cfgs == if AllKnown(data, id, requested) then Some(Newer(data, id, requested)) else None
    {
      var newer: seq<Configuration> := [];
      for i := 0 to |requested|
        invariant newer == Newer(data, id, requested[..i])
        invariant AllKnown(data, id, requested[..i])
      {
        var v := requested[i];
        assert requested[..i + 1][..i] == requested[..i];
        var cfg := store.GetConfiguration(v.group, v.key);
        if cfg == None {
          assert KeySlot(id, v) !in data;
          return None;
        }
        if HasUpdate(v.version, cfg.value.version) {
          newer := newer + [cfg.value];
        }
      }
      assert requested[..|requested|] == requested;
      cfgs := Some(newer);
    }

    /** The body shared by the two checks of RetrieveOrWait. */
    method CheckRequest(req: Request) returns (cfgs: Option<seq<Configuration>>, store: Option<SelectorsStore>)
      requires Valid()
      ensures Answers(Check(model, req), cfgs)
      ensures match Check(model, req)
        case UpToDate(id) => id in index && store == Some(index[id])
        case _ => true
    {
      store := GetSelectorsGeneral(req.selectors, req.optionalSelectors);
      if store == None {
        return None, None;
      }
      ghost var id := Resolve(model.known, req.selectors, req.optionalSelectors).value;
      cfgs := CheckEntries(store.value, req.requested, id, model.data);
    }

    /** A model step that touches neither the data nor the listeners. */
    ghost method Adopt(t: State)
      requires Shape() && index.Keys == model.known == t.known && Sound(t) && cachedId == t.lastId && hub.chans == t.chans
      requires t.data == model.data && t.listening == model.listening
      requires forall id :: id in index ==> StoreAgrees(index[id], id, model.data, model.listening)
      modifies this`model
      ensures Valid() && model == t
    {
      model := t;
    }

    static lemma ArriveShape(s: State, req: Request, cfgs: Option<seq<Configuration>>)
      requires Answers(Check(s, req), cfgs)
      ensures var t := Arrive(s, req);
        && t.known == s.known && t.data == s.data && t.listening == s.listening && t.lastId == s.lastId + 1
        && t.chans == if cfgs.Some? && cfgs.value != [] then s.chans[s.lastId + 1 := DirectChan(cfgs.value)] else s.chans
    {
    }

    /** RetrieveOrWait up to the unlocked gap: a fresh id and the check under the read lock. */
    method RetrieveFirst(req: Request) returns (rid: ReqId, cfgs: Option<seq<Configuration>>)
      requires Valid()
      modifies this`cachedId, this`model, hub
      ensures Valid() && model == Arrive(old(model), req) && rid == old(model).lastId + 1
      ensures Answers(Check(old(model), req), cfgs)
    {
      var store;
      cfgs, store := CheckRequest(req);
      cachedId := cachedId + 1;
      rid := cachedId;
      if cfgs.Some? && cfgs.value != [] {
        hub.chans := hub.chans[rid := DirectChan(cfgs.value)];
      }
      ArriveShape(model, req, cfgs);
      Adopt(Arrive(model, req));
    }

    method GetConfigurationViaPlainRequest(group: string, key: string, sel: string, opt: string)
      returns (cfg: Option<Configuration>)
      requires Valid()
      ensures cfg == ServerHistory.Lookup(model, sel, opt, group, key)
    {
      var store := GetSelectorsGeneral(sel, opt);
      if store == None {
        return None;
      }
      cfg := store.value.GetConfiguration(group, key);
    }

    method DumpOne(cfg: Configuration)
      requires Valid() && model.listening == {}
      modifies this, hub, stores
      ensures Valid() && model == Save(old(model), cfg)
      ensures forall o :: o in stores ==> o in old(stores) || fresh(o)
    {
      NobodyListens(model, cfg);
      var saved, _ := ApplySave(cfg, {});
      assert saved;
    }

    /** Startup: every dumped row is saved, whatever its status, before any request is served. */
    method DumpFromPump(dump: seq<Event>)
      requires Valid() && model.listening == {}
      modifies this, hub, stores
      ensures Valid() && model == DumpAll(old(model), dump) && model.listening == {}
      ensures forall o :: o in stores ==> o in old(stores) || fresh(o)
    {
      ghost var start := model;
      for i := 0 to |dump|
        invariant Valid() && model == DumpAll(start, dump[..i])
        invariant forall o :: o in stores ==> o in old(stores) || fresh(o)
      {
        DumpStep(start, dump, i);
        DumpSilent(start, dump[..i]);
        DumpOne(dump[i].cfg);
      }
      assert dump[..|dump|] == dump;
      DumpSilent(start, dump);
    }

    method RegisterAll(store: SelectorsStore, rid: ReqId, requested: seq<RequestedKey>)
      modifies store`listeners
      ensures forall k, r :: store.Listens(k, r) <==> old(store.Listens(k, r)) || (r == rid && k in Keys(requested))
    {
      for i := 0 to |requested|
        invariant forall k, r :: store.Listens(k, r) <==>
          old(store.Listens(k, r)) || (r == rid && k in Keys(requested)[..i])
      {
        store.RegisterListener(rid, requested[i].group, requested[i].key);
        assert Keys(requested)[..i + 1] == Keys(requested)[..i] + [CfgKey(requested[i].group, requested[i].key)];
      }
      assert Keys(requested)[..|requested|] == Keys(requested);
    }

    /** The locked second check: direct answer, or registration under every requested key. */
    method RetrieveSecond(rid: ReqId, req: Request) returns (cfgs: Option<seq<Configuration>>)
      requires Valid() && rid in model.arrived && model.arrived[rid] == req
      modifies this`model, hub, stores
      ensures Valid() && model == Wait(old(model), rid)
      ensures Answers(Check(old(model), req), cfgs)
    {
      var store;
      cfgs, store := CheckRequest(req);
      if cfgs == None || cfgs.value != [] {
        AnswerWaiter(rid, req, cfgs);
      } else {
        RegisterWaiter(store.value, rid, req);
      }
    }

    method AnswerWaiter(rid: ReqId, req: Request, cfgs: Option<seq<Configuration>>)
      requires Valid() && rid in model.arrived && model.arrived[rid] == req
      requires Answers(Check(model, req), cfgs) && !Check(model, req).UpToDate?
      modifies this`model, hub
      ensures Valid() && model == Wait(old(model), rid)
    {
      if cfgs.Some? {
        hub.chans := hub.chans[rid := DirectChan(cfgs.value)];
      }
      model := Wait(model, rid);
    }

    method RegisterWaiter(store: SelectorsStore, rid: ReqId, req: Request)
      requires Valid() && rid in model.arrived && model.arrived[rid] == req
      requires Check(model, req).UpToDate? && Check(model, req).store in index && store == index[Check(model, req).store]
      modifies this`model, hub, store
      ensures Valid() && model == Wait(old(model), rid)
    {
      ghost var id := Check(model, req).store;
      hub.chans := hub.chans[rid := Chan(|req.requested|, [], 0, false)];
      RegisterAll(store, rid, req.requested);
      ghost var added := Registrations(rid, id, Keys(req.requested));
      model := Wait(model, rid);
      assert model.listening == old(model).listening + added;
      forall o | o in index ensures StoreAgrees(index[o], o, model.data, model.listening) {
        AddedAgrees(index[o], o, old(model).listening, rid, id, Keys(req.requested), model.data);
      }
    }

    /** The cancel function: the store and keys are what the closure captured. */
    method CancelWaiter(store: SelectorsStore, rid: ReqId, waitList: seq<string>)
      requires Valid() && rid in model.waits && model.waits[rid].keys == waitList
      requires model.waits[rid].store in index && store == index[model.waits[rid].store]
      modifies this`model, store
      ensures Valid() && model == Cancel(old(model), rid)
    {
      ghost var id := model.waits[rid].store;
      ghost var gone := Registrations(rid, id, waitList);
      store.CancelWait(rid, waitList);
      model := Cancel(model, rid);
      assert model.listening == old(model).listening - gone;
      forall o | o in index ensures StoreAgrees(index[o], o, model.data, model.listening) {
        assert forall k, r :: Registration(Slot(o, k), r) in gone <==> o == id && r == rid && k in waitList;
      }
    }
  }

  /** The answer a check gives, as RetrieveOrWait computes it: none, or the newer configurations. */
  predicate Answers(answer: Answer, cfgs: Option<seq<Configuration>>) {
    match answer
    case Unknown => cfgs == None
    case Updates(newer) => cfgs == Some(newer)
    case UpToDate(_) => cfgs == Some([])
  }

  function DumpAll(s: State, dump: seq<Event>): State {
    if dump == [] then s else Save(DumpAll(s, dump[..|dump| - 1]), dump[|dump| - 1].cfg)
  }

  lemma {:induction false} DumpSilent(s: State, dump: seq<Event>)
    requires s.listening == {}
    ensures DumpAll(s, dump).listening == {}
  {
    if dump != [] {
      DumpSilent(s, dump[..|dump| - 1]);
      NobodyListens(DumpAll(s, dump[..|dump| - 1]), dump[|dump| - 1].cfg);
    }
  }

  lemma DumpStep(s: State, dump: seq<Event>, i: nat)
    requires i < |dump|
    ensures DumpAll(s, dump[..i + 1]) == Save(DumpAll(s, dump[..i]), dump[i].cfg)
  {
    assert dump[..i + 1][..i] == dump[..i];
  }

  // ----- the handler

  datatype Response = Found(cfgs: seq<Configuration>) | NotModified | InternalError

  /** The wait and drain loop of handleRetrieveAndListen. ready says that something can be received, which a close
      follows by then. When the timer has fired as well either branch may be taken; once an event was read, the loop
      reads on until the close that ends the batch. */
  method AwaitAnswer(ch: Chan, ready: bool, timerFires: bool) returns (res: Response)
    requires ch.received <= |ch.sent| && (ready || timerFires) && (ready ==> ch.closed)
    ensures res.NotModified? ==> timerFires
    ensures !res.NotModified? ==> ready
    ensures !res.NotModified? ==> res == if ch.sent[ch.received..] == [] then InternalError else Found(ch.sent[ch.received..])
  {
    var timerWins: bool := *;
    if !ready || (timerFires && timerWins) {
      return NotModified;
    }
    var accumulated: seq<Configuration> := [];
    var next := ch.received;
    while next < |ch.sent|
      invariant ch.received <= next <= |ch.sent|
      invariant accumulated == ch.sent[ch.received..next]
    {
      accumulated := accumulated + [ch.sent[next]];
      next := next + 1;
    }
    if |accumulated| == 0 {
      return InternalError;
    }
    return Found(accumulated);
  }

  /** In every reachable state a handler that has read nothing yet answers a closed channel with all that was sent:
      at least one configuration, at most the channel's capacity. It never runs into the empty result. */
  lemma DrainNeverEmpty(steps: seq<Step>, rid: ReqId)
    requires rid in Run(INIT, steps).chans
    ensures var c := Run(INIT, steps).chans[rid];
      c.closed ==> 1 <= |c.sent| <= c.cap
    ensures var c := Run(INIT, steps).chans[rid];
      c.closed && c.received == 0 ==> c.sent[c.received..] == c.sent != []
  {
    Reachable(steps);
  }

  /** Batches grow at the end as the loop runs. */
  lemma {:induction false} BatchAppend(s: State, evs: seq<Event>, i: nat)
    requires i < |evs|
    ensures ApplyEvents(s, evs[..i + 1]) == ApplyEvent(ApplyEvents(s, evs[..i]), evs[i])
    ensures Notified(s, evs[..i + 1]) == Notified(s, evs[..i]) + HitBy(ApplyEvents(s, evs[..i]), evs[i])
    ensures BatchSafe(s, evs[..i + 1]) <==> BatchSafe(s, evs[..i]) && EventSafe(ApplyEvents(s, evs[..i]), evs[i])
    ensures BatchSafe(s, evs) ==> BatchSafe(s, evs[..i + 1])
    decreases i
  {
    assert evs[..i + 1][1..] == evs[1..][..i];
    if i > 0 {
      assert evs[..i][1..] == evs[1..][..i - 1];
      BatchAppend(ApplyEvent(s, evs[0]), evs[1..], i - 1);
    }
  }
}
