/** The two-level selector store refines a flat history of events. */
module ServerHistory {
  import opened Wrappers
  import opened ServerModel

  // ----- group||key

  predicate PipeFree(s: string) {
    '|' !in s
  }

  /** Some two keys give the groups a name in common. */
  ghost predicate Collide(g1: string, g2: string) {
    exists k1, k2 :: CfgKey(g1, k1) == CfgKey(g2, k2)
  }

  /** One group with its separator is a prefix of the other with its own. */
  predicate Clash(g1: string, g2: string) {
    g1 + "||" <= g2 + "||" || g2 + "||" <= g1 + "||"
  }

  lemma SharedPrefix(a: string, x: string, b: string, y: string)
    requires a + x == b + y && |a| <= |b|
    ensures a <= b
  {
    assert a == (a + x)[..|a|] && b == (b + y)[..|b|];
    assert b[..|a|] == (b + y)[..|a|];
  }

  lemma PrefixCollides(g1: string, g2: string)
    requires g1 + "||" <= g2 + "||"
    ensures Collide(g1, g2) && Collide(g2, g1)
  {
    var rest := (g2 + "||")[|g1 + "||"|..];
    assert CfgKey(g1, rest) == g2 + "||" == CfgKey(g2, "");
  }

  /** Exactly which groups can share a name. */
  lemma CollideIff(g1: string, g2: string)
    ensures Collide(g1, g2) <==> Clash(g1, g2)
  {
    if Collide(g1, g2) {
      var k1, k2 :| CfgKey(g1, k1) == CfgKey(g2, k2);
      assert CfgKey(g1, k1) == (g1 + "||") + k1 && CfgKey(g2, k2) == (g2 + "||") + k2;
      if |g1| <= |g2| {
        SharedPrefix(g1 + "||", k1, g2 + "||", k2);
      } else {
        SharedPrefix(g2 + "||", k2, g1 + "||", k1);
      }
    }
    if g1 + "||" <= g2 + "||" {
      PrefixCollides(g1, g2);
    }
    if g2 + "||" <= g1 + "||" {
      PrefixCollides(g2, g1);
    }
  }

  /** b goes on after a with one separator character and ends, or with two of them. */
  predicate GoesOn(a: string, b: string) {
    |a| < |b| && a <= b && (b[|a|..] == "|" || "||" <= b[|a|..])
  }

  lemma GoesOnIff(a: string, b: string)
    requires |a| < |b|
    ensures a + "||" <= b + "||" <==> GoesOn(a, b)
  {
    var rest := b[|a|..];
    if a + "||" <= b + "||" {
      SharedPrefix(a, "||" + (b + "||")[|a| + 2..], b, "||");
      assert (b + "||")[|a|] == rest[0] && (|rest| > 1 ==> (b + "||")[|a| + 1] == rest[1]);
    }
    if GoesOn(a, b) {
      assert b == a + rest && b + "||" == a + (rest + "||") && a + "||" == (b + "||")[..|a| + 2];
    }
  }

  /** Two different groups clash exactly when one goes on after the other with the separator. */
  lemma ClashIff(g1: string, g2: string)
    ensures Clash(g1, g2) <==> g1 == g2 || GoesOn(g1, g2) || GoesOn(g2, g1)
  {
    if |g1| < |g2| {
      GoesOnIff(g1, g2);
    } else if |g2| < |g1| {
      GoesOnIff(g2, g1);
    } else if Clash(g1, g2) {
      SharedPrefix(g1, "||", g2, "||");
    }
  }

  /** Groups whose names can be told apart. */
  predicate Apart(g1: string, g2: string) {
    g1 == g2 || !Clash(g1, g2)
  }

  /** group||key names one pair as long as the groups are apart; keys may hold anything. */
  lemma ApartInjective(g1: string, k1: string, g2: string, k2: string)
    requires Apart(g1, g2)
    ensures CfgKey(g1, k1) == CfgKey(g2, k2) <==> g1 == g2 && k1 == k2
  {
    if CfgKey(g1, k1) == CfgKey(g2, k2) {
      CollideIff(g1, g2);
      assert k1 == CfgKey(g1, k1)[|g1| + 2..] && k2 == CfgKey(g2, k2)[|g2| + 2..];
    }
  }

  lemma PipeFreeStops(a: string, b: string)
    requires PipeFree(b)
    ensures !GoesOn(a, b)
  {
    if |a| < |b| {
      assert b[|a|..][0] == b[|a|] && b[|a|] in b;
    }
  }

  /** Groups over the documented alphabet are all apart. */
  lemma CfgKeyInjective(g1: string, k1: string, g2: string, k2: string)
    requires PipeFree(g1) && PipeFree(g2)
    ensures Apart(g1, g2) && (CfgKey(g1, k1) == CfgKey(g2, k2) <==> g1 == g2 && k1 == k2)
  {
    ClashIff(g1, g2);
    PipeFreeStops(g1, g2);
    PipeFreeStops(g2, g1);
    ApartInjective(g1, k1, g2, k2);
  }

  // ----- the flat history

  predicate Names(cfg: Configuration, id: StoreId, group: string, key: string) {
    StoreId(cfg.selectors, cfg.optionalSelectors) == id && cfg.group == group && cfg.key == key
  }

  predicate Counts(ev: Event) {
    IsSave(ev) || IsDelete(ev)
  }

  /** What the last event for exactly these selectors, group and key left behind. */
  function Survivor(h: seq<Event>, id: StoreId, group: string, key: string): Option<Configuration> {
    if h == [] then None
    else
      var ev := h[|h| - 1];
      if Counts(ev) && Names(ev.cfg, id, group, key) then (if IsSave(ev) then Some(ev.cfg) else None)
      else Survivor(h[..|h| - 1], id, group, key)
  }

  predicate SeenSelectors(h: seq<Event>, sel: string) {
    exists i :: 0 <= i < |h| && Counts(h[i]) && h[i].cfg.selectors == sel
  }

  predicate SeenStore(h: seq<Event>, id: StoreId) {
    exists i :: 0 <= i < |h| && Counts(h[i]) && StoreId(h[i].cfg.selectors, h[i].cfg.optionalSelectors) == id
  }

  /** The promised answer: the optional store's if any event was ever seen for it, otherwise the default's. */
  function FlatLookup(h: seq<Event>, sel: string, opt: string, group: string, key: string): Option<Configuration> {
    if !SeenSelectors(h, sel) then None
    else if opt != "" && SeenStore(h, StoreId(sel, opt)) then Survivor(h, StoreId(sel, opt), group, key)
    else Survivor(h, StoreId(sel, ""), group, key)
  }

  /** GetConfigurationViaPlainRequest. */
  function Lookup(s: State, sel: string, opt: string, group: string, key: string): Option<Configuration> {
    match Resolve(s.known, sel, opt)
    case None => None
    case Some(id) =>
      var slot := Slot(id, CfgKey(group, key));
      if slot in s.data then Some(s.data[slot]) else None
  }

  // ----- refinement

  predicate GroupsApart(h: seq<Event>, group: string) {
    forall i :: 0 <= i < |h| ==> Apart(h[i].cfg.group, group)
  }

  /** The state is what the history leaves: stores touched, and the survivor of each name of the group. */
  ghost predicate Refines(s: State, h: seq<Event>, group: string) {
    && (forall id :: id in s.known <==> SeenStore(h, id) || (id.opt == "" && SeenSelectors(h, id.sel)))
    && (forall id, key :: Survivor(h, id, group, key) == Stored(s, id, group, key))
  }

  function Stored(s: State, id: StoreId, group: string, key: string): Option<Configuration> {
    var slot := Slot(id, CfgKey(group, key));
    if slot in s.data then Some(s.data[slot]) else None
  }

  lemma SeenAppend(h: seq<Event>, ev: Event, id: StoreId)
    ensures SeenStore(h + [ev], id) <==>
      SeenStore(h, id) || (Counts(ev) && StoreId(ev.cfg.selectors, ev.cfg.optionalSelectors) == id)
    ensures SeenSelectors(h + [ev], id.sel) <==> SeenSelectors(h, id.sel) || (Counts(ev) && ev.cfg.selectors == id.sel)
  {
    var g := h + [ev];
    assert g[|h|] == ev;
    assert forall i :: 0 <= i < |h| ==> g[i] == h[i];
  }

  lemma EventRefines(s: State, h: seq<Event>, ev: Event, group: string)
    requires Refines(s, h, group) && Apart(ev.cfg.group, group)
    ensures Refines(ApplyEvent(s, ev), h + [ev], group)
  {
    var t := ApplyEvent(s, ev);
    forall id
      ensures id in t.known <==> SeenStore(h + [ev], id) || (id.opt == "" && SeenSelectors(h + [ev], id.sel))
    {
      SeenAppend(h, ev, id);
    }
    forall id, key ensures Survivor(h + [ev], id, group, key) == Stored(t, id, group, key) {
      assert (h + [ev])[..|h|] == h;
      ApartInjective(ev.cfg.group, ev.cfg.key, group, key);
    }
  }

  lemma {:induction false} EventsRefine(s: State, h: seq<Event>, evs: seq<Event>, group: string)
    requires Refines(s, h, group) && GroupsApart(evs, group)
    ensures Refines(ApplyEvents(s, evs), h + evs, group)
    decreases |evs|
  {
    if evs == [] {
      assert h + evs == h;
    } else {
      EventRefines(s, h, evs[0], group);
      EventsRefine(ApplyEvent(s, evs[0]), h + [evs[0]], evs[1..], group);
      assert h + [evs[0]] + evs[1..] == h + evs;
    }
  }

  /** All events of a run, in order, whatever batches carried them. */
  function History(steps: seq<Step>): seq<Event> {
    if steps == [] then []
    else StepEvents(steps[0]) + History(steps[1..])
  }

  function StepEvents(step: Step): seq<Event> {
    if step.BatchStep? then step.evs else []
  }

  lemma ApartParts(a: seq<Event>, b: seq<Event>, group: string)
    requires GroupsApart(a + b, group)
    ensures GroupsApart(a, group) && GroupsApart(b, group)
  {
    assert forall i :: 0 <= i < |a| ==> a[i] == (a + b)[i];
    assert forall i :: 0 <= i < |b| ==> b[i] == (a + b)[|a| + i];
  }

  lemma StepRefines(s: State, h: seq<Event>, step: Step, group: string)
    requires Refines(s, h, group) && GroupsApart(StepEvents(step), group)
    ensures Refines(Do(s, step), h + StepEvents(step), group)
  {
    EventsRefine(s, h, StepEvents(step), group);
    RefinesFrame(ApplyEvents(s, StepEvents(step)), Do(s, step), h + StepEvents(step), group);
  }

  lemma RefinesFrame(s: State, t: State, h: seq<Event>, group: string)
    requires Refines(s, h, group) && t.known == s.known && t.data == s.data
    ensures Refines(t, h, group)
  {
    forall id, key ensures Survivor(h, id, group, key) == Stored(t, id, group, key) {
      assert Stored(t, id, group, key) == Stored(s, id, group, key);
    }
  }

  lemma {:induction false} RunRefines(s: State, h: seq<Event>, steps: seq<Step>, group: string)
    requires Refines(s, h, group) && GroupsApart(History(steps), group)
    ensures Refines(Run(s, steps), h + History(steps), group)
    decreases |steps|
  {
    if steps == [] {
      assert h + History(steps) == h;
    } else {
      var t := Do(s, steps[0]);
      var evs := StepEvents(steps[0]);
      assert GroupsApart(evs, group) && GroupsApart(History(steps[1..]), group) by {
        ApartParts(evs, History(steps[1..]), group);
      }
      StepRefines(s, h, steps[0], group);
      RunRefines(t, h + evs, steps[1..], group);
      assert h + evs + History(steps[1..]) == h + History(steps);
    }
  }

  /** Whatever requests, cancels and batch cuts a run contains, every lookup of a group that is apart from the groups of
      the events answers from the flat history. */
  lemma LookupIsFlat(steps: seq<Step>, sel: string, opt: string, group: string, key: string)
    requires GroupsApart(History(steps), group)
    ensures Lookup(Run(INIT, steps), sel, opt, group, key) == FlatLookup(History(steps), sel, opt, group, key)
  {
    RunRefines(INIT, [], steps, group);
    var s := Run(INIT, steps);
    var h := History(steps);
    assert [] + h == h;
    assert SeenStore(h, StoreId(sel, opt)) ==> SeenSelectors(h, sel);
    assert forall id :: Survivor(h, id, group, key) == Stored(s, id, group, key);
  }

  // ----- the condition is exact

  predicate OnlyGroup(h: seq<Event>, group: string) {
    forall i :: 0 <= i < |h| ==> h[i].cfg.group == group
  }

  /** After every run over one group's events, every lookup of the other group answers from the flat history. */
  ghost predicate NeverMixed(asked: string, stored: string) {
    forall steps: seq<Step>, sel, opt, key :: OnlyGroup(History(steps), stored) ==>
      Lookup(Run(INIT, steps), sel, opt, asked, key) == FlatLookup(History(steps), sel, opt, asked, key)
  }

  /** One saved configuration answers for another group that gives it the same name. */
  lemma ForeignAnswer(cfg: Configuration, asked: string, key: string)
    requires asked != cfg.group && CfgKey(asked, key) == CfgKey(cfg.group, cfg.key)
    ensures var steps := [BatchStep([Event(cfg, true, false, false)])];
      && OnlyGroup(History(steps), cfg.group)
      && Lookup(Run(INIT, steps), cfg.selectors, cfg.optionalSelectors, asked, key) == Some(cfg)
      && FlatLookup(History(steps), cfg.selectors, cfg.optionalSelectors, asked, key) == None
  {
    var ev := Event(cfg, true, false, false);
    var steps := [BatchStep([ev])];
    assert steps[1..] == [] && [ev][1..] == [] && [ev][..0] == [];
    assert History(steps) == [ev] + History([]) == [ev];
    assert forall id :: Survivor([ev], id, asked, key) == Survivor([], id, asked, key) == None;
    assert ApplyEvents(INIT, [ev]) == Save(INIT, cfg);
    assert Run(INIT, steps) == Batch(INIT, [ev]);
  }

  /** Lookups of one group are never answered by another's configurations if and only if the groups are apart. */
  lemma NeverMixedIff(asked: string, stored: string)
    ensures NeverMixed(asked, stored) <==> Apart(stored, asked)
  {
    if Apart(stored, asked) {
      forall steps: seq<Step>, sel, opt, key | OnlyGroup(History(steps), stored)
        ensures Lookup(Run(INIT, steps), sel, opt, asked, key) == FlatLookup(History(steps), sel, opt, asked, key)
      {
        LookupIsFlat(steps, sel, opt, asked, key);
      }
    } else {
      CollideIff(stored, asked);
      var k1, k2 :| CfgKey(stored, k1) == CfgKey(asked, k2);
      ForeignAnswer(Configuration(stored, k1, "", [], "", "", ""), asked, k2);
    }
  }
}
