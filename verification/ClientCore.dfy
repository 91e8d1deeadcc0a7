/** The polling client's own state (configure/configclient/client.go): requirements, versions and callbacks. */
module ClientCore {
  import opened Wrappers
  import opened ServerModel
  import opened ServerInvariant
  import ServerDelivery

  predicate Matches(k: RequestedKey, cfg: Configuration) {
    k.group == cfg.group && k.key == cfg.key
  }

  function Updated(k: RequestedKey, cfg: Configuration): RequestedKey {
    if Matches(k, cfg) then k.(version := cfg.version) else k
  }

  /** The version an entry holds after a response: that of the last configuration matching it. */
  function VersionAfter(k: RequestedKey, cfgs: seq<Configuration>): string {
    if cfgs == [] then k.version
    else if Matches(k, cfgs[|cfgs| - 1]) then cfgs[|cfgs| - 1].version
    else VersionAfter(k, cfgs[..|cfgs| - 1])
  }

  function Absorb(requested: seq<RequestedKey>, cfgs: seq<Configuration>): (r: seq<RequestedKey>)
    ensures |r| == |requested|
    ensures forall i :: 0 <= i < |r| ==> r[i] == requested[i].(version := VersionAfter(requested[i], cfgs))
  {
    seq(|requested|, i requires 0 <= i < |requested| =>
      requested[i].(version := VersionAfter(requested[i], cfgs)))
  }

  predicate Distinct(requested: seq<RequestedKey>) {
    forall i, j :: 0 <= i < j < |requested| ==>
      CfgKey(requested[i].group, requested[i].key) != CfgKey(requested[j].group, requested[j].key)
  }

  // ----- callbacks

  /** A callback function, by a number. */
  type Callback = int

  datatype Call = Call(callback: Callback, cfg: Configuration)

  /** What is registered under each name; nothing was given where it is None. */
  type Callbacks = map<string, Option<Callback>>

  function NameOf(cfg: Configuration): string {
    CfgKey(cfg.group, cfg.key)
  }

  predicate HasCallback(cbs: Callbacks, name: string) {
    name in cbs && cbs[name].Some?
  }

  /** The calls a response makes, in its order. */
  function CallsFor(cbs: Callbacks, cfgs: seq<Configuration>): seq<Call> {
    if cfgs == [] then []
    else
      var v := cfgs[|cfgs| - 1];
      var before := CallsFor(cbs, cfgs[..|cfgs| - 1]);
      if HasCallback(cbs, NameOf(v)) then before + [Call(cbs[NameOf(v)].value, v)] else before
  }

  /** Every configuration triggers its own callback and no other, once and in order. */
  predicate EachItsOwn(cbs: Callbacks, cfgs: seq<Configuration>, calls: seq<Call>) {
    |calls| == |cfgs| && forall i :: 0 <= i < |cfgs| ==>
      HasCallback(cbs, NameOf(cfgs[i])) && calls[i] == Call(cbs[NameOf(cfgs[i])].value, cfgs[i])
  }

  /** This is so exactly when each of them has one; otherwise the ones without are passed over. */
  lemma {:induction false} EachItsOwnIff(cbs: Callbacks, cfgs: seq<Configuration>)
    ensures EachItsOwn(cbs, cfgs, CallsFor(cbs, cfgs)) <==>
      forall i :: 0 <= i < |cfgs| ==> HasCallback(cbs, NameOf(cfgs[i]))
  {
    if cfgs != [] && HasCallback(cbs, NameOf(cfgs[|cfgs| - 1])) {
      var front := cfgs[..|cfgs| - 1];
      EachItsOwnIff(cbs, front);
      if forall i :: 0 <= i < |front| ==> HasCallback(cbs, NameOf(front[i])) {
        assert |CallsFor(cbs, front)| == |front|;
      }
    }
  }

  /** Exactly which calls a response makes. */
  lemma {:induction false} CalledIff(cbs: Callbacks, cfgs: seq<Configuration>, call: Call)
    ensures call in CallsFor(cbs, cfgs) <==>
      call.cfg in cfgs && HasCallback(cbs, NameOf(call.cfg)) && call.callback == cbs[NameOf(call.cfg)].value
  {
    if cfgs != [] {
      CalledIff(cbs, cfgs[..|cfgs| - 1], call);
      assert cfgs == cfgs[..|cfgs| - 1] + [cfgs[|cfgs| - 1]];
    }
  }

  /** A direct answer of the server holds only configurations of requested keys, so each triggers its own callback. */
  lemma DirectAnswerCallsBack(s: State, req: Request, cbs: Callbacks)
    requires Inv(s) && Check(s, req).Updates?
    requires forall name :: name in Keys(req.requested) ==> HasCallback(cbs, name)
    ensures EachItsOwn(cbs, Check(s, req).cfgs, CallsFor(cbs, Check(s, req).cfgs))
  {
    var cfgs := Check(s, req).cfgs;
    var id := Resolve(s.known, req.selectors, req.optionalSelectors).value;
    forall j | 0 <= j < |cfgs| ensures HasCallback(cbs, NameOf(cfgs[j])) {
      var m := ServerDelivery.NewerIsStored(s.data, id, req.requested, j);
      assert SlotOf(cfgs[j]) == KeySlot(id, req.requested[m]) && Keys(req.requested)[m] == NameOf(cfgs[j]);
    }
    EachItsOwnIff(cbs, cfgs);
  }

  /** And so does what a closed channel brings a client that waited, whatever the server did. */
  lemma WaitingAnswerCallsBack(steps: seq<Step>, r: ReqId, cbs: Callbacks)
    requires r in Run(INIT, steps).waits && r in Run(INIT, steps).chans && Run(INIT, steps).chans[r].closed
    requires forall name :: name in Run(INIT, steps).waits[r].keys ==> HasCallback(cbs, name)
    ensures var sent := Run(INIT, steps).chans[r].sent; EachItsOwn(cbs, sent, CallsFor(cbs, sent))
  {
    ServerDelivery.ClosedChannelCarried(steps, r);
    var s := Run(INIT, steps);
    forall j | 0 <= j < |s.chans[r].sent| ensures HasCallback(cbs, NameOf(s.chans[r].sent[j])) {
      assert SlotOf(s.chans[r].sent[j]).key in s.waits[r].keys;
    }
    EachItsOwnIff(cbs, s.chans[r].sent);
  }

  // ----- the object

  datatype Response = Failed | NoUpdates | Answered(cfgs: seq<Configuration>)

  /** calls is history: the callbacks that were run. */
  class ConfigClient {
    var lockRequests: bool
    var requested: seq<RequestedKey>
    var reqCallbacks: Callbacks
    var calls: seq<Call>

    ghost predicate Valid()
      reads this
    {
      Distinct(requested) && forall name :: name in reqCallbacks <==> name in Keys(requested)
    }

    constructor ()
      ensures Valid() && requested == [] && reqCallbacks == map[] && !lockRequests && calls == []
    {
      lockRequests := false;
      requested := [];
      reqCallbacks := map[];
      calls := [];
    }

    /** False where the Go code panics: after the requirements were locked, or on a duplicate one. */
    method AddConfigurationRequirement(k: RequestedKey, callback: Option<Callback>) returns (ok: bool)
      requires Valid()
      modifies this`requested, this`reqCallbacks
      ensures Valid() && (ok <==> !lockRequests && CfgKey(k.group, k.key) !in old(reqCallbacks))
      ensures requested == if ok then old(requested) + [k] else old(requested)
      ensures reqCallbacks == if ok then old(reqCallbacks)[CfgKey(k.group, k.key) := callback] else old(reqCallbacks)
    {
      var ckey := CfgKey(k.group, k.key);
      if lockRequests || ckey in reqCallbacks {
        return false;
      }
      assert Keys(requested + [k]) == Keys(requested) + [ckey];
      requested := requested + [k];
      reqCallbacks := reqCallbacks[ckey := callback];
      ok := true;
    }

    /** StartClient and resume. */
    method LockRequests()
      modifies this`lockRequests
      ensures lockRequests
    {
      lockRequests := true;
    }

    /** StopClient and suspend. */
    method UnlockRequests()
      modifies this`lockRequests
      ensures !lockRequests
    {
      lockRequests := false;
    }

    /** One round of processLoop, given the response to the request: whether the next one is sent at once. */
    method ProcessRound(response: Response) returns (ready: bool)
      requires Valid()
      modifies this`requested, this`calls
      ensures Valid() && (ready <==> lockRequests && old(requested) != [] && response != Failed)
      ensures requested == if ready && response.Answered? then Absorb(old(requested), response.cfgs) else old(requested)
      ensures calls == if ready && response.Answered? then old(calls) + CallsFor(reqCallbacks, response.cfgs) else old(calls)
    {
      ready := lockRequests && requested != [] && response != Failed;
      if ready && response.Answered? {
        AbsorbResponse(response.cfgs);
        assert Keys(requested) == Keys(old(requested));
      }
    }

    /** Its update part: for every configuration in turn its callback, then every entry that matches it. */
    method AbsorbResponse(cfgs: seq<Configuration>)
      modifies this`requested, this`calls
      ensures requested == Absorb(old(requested), cfgs)
      ensures calls == old(calls) + CallsFor(reqCallbacks, cfgs)
    {
      assert requested == Absorb(old(requested), cfgs[..0]);
      for c := 0 to |cfgs|
        invariant requested == Absorb(old(requested), cfgs[..c])
        invariant calls == old(calls) + CallsFor(reqCallbacks, cfgs[..c])
      {
        assert cfgs[..c + 1][..c] == cfgs[..c];
        RunCallback(cfgs[c]);
        UpdateVersions(cfgs[c]);
      }
      assert cfgs[..|cfgs|] == cfgs;
    }

    /** A configuration without a callback only leaves a log line. */
    method RunCallback(v: Configuration)
      modifies this`calls
      ensures calls == old(calls) + if HasCallback(reqCallbacks, NameOf(v)) then [Call(reqCallbacks[NameOf(v)].value, v)] else []
    {
      var k := NameOf(v);
      var callback := if k in reqCallbacks then reqCallbacks[k] else None;
      if callback.Some? {
        calls := calls + [Call(callback.value, v)];
      }
    }

    method UpdateVersions(v: Configuration)
      modifies this`requested
      ensures |requested| == |old(requested)|
      ensures forall i :: 0 <= i < |requested| ==> requested[i] == Updated(old(requested)[i], v)
    {
      for idx := 0 to |requested|
        invariant |requested| == |old(requested)|
        invariant forall i :: idx <= i < |requested| ==> requested[i] == old(requested)[i]
        invariant forall i :: 0 <= i < idx ==> requested[i] == Updated(old(requested)[i], v)
      {
        if requested[idx].group == v.group && requested[idx].key == v.key {
          requested := requested[idx := requested[idx].(version := v.version)];
        }
      }
    }
  }
}
