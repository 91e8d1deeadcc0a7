/**
 When the recursive walk from a certificate to its root ends (configure/secretserver/controller.cert.manage.go), on any
 table that saves can build.
 */
module CertWalks {
  import opened Wrappers
  import opened Certs

  /** The recursive walk cut off after some calls; None means it is still running. */
  function RetrieveWithin(t: Table, cert: Cert, sn: string, calls: nat): Option<Loaded<seq<Cert>>>
    decreases calls
  {
    if calls == 0 then None
    else
      match LoadParent(t, sn)
      case Err(e) => Some(Err(e))
      case Ok(None) => Some(Ok([cert]))
      case Ok(Some(pcert)) =>
        match RetrieveWithin(t, pcert, Sn(pcert), calls - 1)
        case None => None
        case Some(Err(e)) => Some(Err(e))
        case Some(Ok(results)) => Some(Ok(results + [cert]))
  }

  /** The recursive walk from a certificate comes to an end. */
  ghost predicate WalkEnds(t: Table, cert: Cert) {
    exists calls: nat :: RetrieveWithin(t, cert, Sn(cert), calls).Some?
  }

  /** It comes to an end with a chain. */
  ghost predicate WalkSucceeds(t: Table, cert: Cert) {
    exists calls: nat ::
      RetrieveWithin(t, cert, Sn(cert), calls).Some? && RetrieveWithin(t, cert, Sn(cert), calls).value.Ok?
  }

  ghost predicate AllWalksEnd(t: Table) {
    forall id :: id in t ==> WalkEnds(t, t[id].cert)
  }

  // ----- climbing by names

  /** The name at which going up from sn stops within so many loads: a row without parent, or a name not stored. */
  function Stop(t: Table, sn: string, loads: nat): Option<string>
    decreases loads
  {
    if sn !in t || t[sn].parent == "" then Some(sn)
    else if loads == 0 then None
    else Stop(t, t[sn].parent, loads - 1)
  }

  /** Where it stops when there are as many loads as rows. */
  function Top(t: Table, sn: string): Option<string> {
    Stop(t, sn, |t|)
  }

  lemma {:induction false} StopMore(t: Table, sn: string, loads: nat, more: nat)
    requires Stop(t, sn, loads).Some? && loads <= more
    ensures Stop(t, sn, more) == Stop(t, sn, loads)
    decreases loads
  {
    if loads > 0 && sn in t && t[sn].parent != "" {
      StopMore(t, t[sn].parent, loads - 1, more - 1);
    }
  }

  /** Where the way up ends, the walk ends: with a chain at a stored row, with an error at a missing one. */
  lemma {:induction false} StopsThenEnds(t: Table, cert: Cert, sn: string, loads: nat)
    requires IdsOk(t) && Stop(t, sn, loads).Some?
    ensures var walk := RetrieveWithin(t, cert, sn, loads + 1);
      walk.Some? && (walk.value.Ok? <==> Stop(t, sn, loads).value in t)
    decreases loads
  {
    if sn in t && t[sn].parent != "" && t[sn].parent in t {
      assert IdMatches(t, t[sn].parent);
      StopsThenEnds(t, t[t[sn].parent].cert, t[sn].parent, loads - 1);
    }
  }

  lemma {:induction false} EndsThenStops(t: Table, cert: Cert, sn: string, calls: nat)
    requires IdsOk(t) && RetrieveWithin(t, cert, sn, calls).Some?
    ensures Stop(t, sn, calls).Some?
    ensures RetrieveWithin(t, cert, sn, calls).value.Ok? <==> Stop(t, sn, calls).value in t
    decreases calls
  {
    if sn in t && t[sn].parent != "" && t[sn].parent in t {
      assert IdMatches(t, t[sn].parent);
      EndsThenStops(t, t[t[sn].parent].cert, t[sn].parent, calls - 1);
    }
  }

  // ----- one more row

  /** A way up that does not stop at the new name is the way it was. */
  lemma {:induction false} SameBelow(t: Table, id: string, row: Row, z: Table, sn: string, loads: nat)
    requires Adds(t, id, row, z) && Stop(t, sn, loads).Some? && Stop(t, sn, loads) != Some(id)
    ensures Stop(z, sn, loads) == Stop(t, sn, loads)
    decreases loads
  {
    if sn in t && t[sn].parent != "" {
      SameBelow(t, id, row, z, t[sn].parent, loads - 1);
    }
  }

  /** One that did goes on from the new row. */
  lemma {:induction false} Through(t: Table, id: string, row: Row, z: Table, sn: string, loads: nat, more: nat)
    requires Adds(t, id, row, z) && Stop(t, sn, loads) == Some(id) && Stop(z, id, more).Some?
    ensures Stop(z, sn, loads + more) == Stop(z, id, more)
    decreases loads
  {
    if sn == id {
      StopMore(z, id, more, loads + more);
    } else {
      Through(t, id, row, z, t[sn].parent, loads - 1, more);
    }
  }

  /** When the way up from the new row's parent comes back to the new name, going up from there never stops. */
  lemma {:induction false} Never(t: Table, id: string, row: Row, z: Table, loads: nat, sn: string, n: nat, m: nat)
    requires Adds(t, id, row, z) && row.parent != "" && Stop(t, row.parent, loads) == Some(id)
    requires Stop(t, sn, n) == Some(id)
    ensures Stop(z, sn, m) == None
    decreases m
  {
    if m > 0 {
      if sn == id {
        Never(t, id, row, z, loads, row.parent, loads, m - 1);
      } else {
        Never(t, id, row, z, loads, t[sn].parent, n - 1, m - 1);
      }
    }
  }

  /** A way up that stops with the new row stopped without it, there or at the new name. */
  lemma {:induction false} StoppedBefore(t: Table, id: string, row: Row, z: Table, sn: string, loads: nat)
    requires Adds(t, id, row, z) && Stop(z, sn, loads).Some?
    ensures Stop(t, sn, loads) == Stop(z, sn, loads) || Stop(t, sn, loads) == Some(id)
    decreases loads
  {
    if sn in t && t[sn].parent != "" {
      StoppedBefore(t, id, row, z, t[sn].parent, loads - 1);
    }
  }

  /** The new row with a parent: the way up from it stops where the parent's did, unless that is the new name. */
  lemma NewRowStops(t: Table, id: string, row: Row, z: Table, loads: nat)
    requires Adds(t, id, row, z) && row.parent != "" && Stop(z, id, loads).Some?
    ensures loads > 0 && Stop(t, row.parent, loads - 1) == Stop(z, id, loads) != Some(id)
  {
    StoppedBefore(t, id, row, z, row.parent, loads - 1);
    if Stop(t, row.parent, loads - 1) == Some(id) {
      Never(t, id, row, z, loads - 1, id, 0, loads);
    }
  }

  /** As many loads as rows are enough, on every table. */
  lemma {:induction false} TopIsEnough(t: Table, sn: string, loads: nat)
    requires Stop(t, sn, loads).Some?
    ensures Top(t, sn) == Stop(t, sn, loads)
    decreases |t|
  {
    if sn in t && t[sn].parent != "" {
      var less := t - {sn};
      assert Adds(less, sn, t[sn], t);
      AddsSize(less, sn, t[sn], t);
      NewRowStops(less, sn, t[sn], t, loads);
      TopIsEnough(less, t[sn].parent, loads - 1);
      SameBelow(less, sn, t[sn], t, t[sn].parent, |less|);
    }
  }

  /** So where going up leads decides whether the walk ends, and how. */
  lemma WalkFollowsTop(t: Table, cert: Cert)
    requires IdsOk(t)
    ensures WalkEnds(t, cert) <==> Top(t, Sn(cert)).Some?
    ensures WalkSucceeds(t, cert) <==> Top(t, Sn(cert)).Some? && Top(t, Sn(cert)).value in t
  {
    forall calls: nat | RetrieveWithin(t, cert, Sn(cert), calls).Some?
      ensures Top(t, Sn(cert)).Some? && (RetrieveWithin(t, cert, Sn(cert), calls).value.Ok? <==> Top(t, Sn(cert)).value in t)
    {
      EndsThenStops(t, cert, Sn(cert), calls);
      TopIsEnough(t, Sn(cert), calls);
    }
    if Top(t, Sn(cert)).Some? {
      StopsThenEnds(t, cert, Sn(cert), |t|);
    }
  }

  // ----- saves

  /** A certificate with this name may be saved under this parent without closing a cycle: the way up from the parent
      does not lead to the name. */
  predicate ClosesNoCycle(t: Table, parent: string, id: string) {
    parent == "" || Top(t, parent) != Some(id)
  }

  lemma NewTop(t: Table, id: string, row: Row, z: Table)
    requires Adds(t, id, row, z)
    ensures Top(z, id) ==
      if row.parent == "" then Some(id) else if Top(t, row.parent) == Some(id) then None else Top(t, row.parent)
  {
    AddsSize(t, id, row, z);
    if row.parent != "" {
      if Top(z, id).Some? {
        NewRowStops(t, id, row, z, |z|);
      } else if Top(t, row.parent).Some? && Top(t, row.parent) != Some(id) {
        SameBelow(t, id, row, z, row.parent, |t|);
      }
    }
  }

  /** The walk from a newly saved certificate ends exactly when it has no parent or the way up from the parent stops, and
      not at the new name; it succeeds exactly when that stops at a stored row. */
  lemma WalkEndsIff(t: Table, kind: int, name: string, caSn: string, cert: Cert)
    requires IdsOk(t) && Save(t, kind, name, caSn, cert).Some?
    ensures var z := Save(t, kind, name, caSn, cert).value;
      var p := ParentFor(kind, caSn);
      && (WalkEnds(z, cert) <==> p == "" || (Top(t, p).Some? && Top(t, p) != Some(Sn(cert))))
      && (WalkSucceeds(z, cert) <==> p == "" || (Top(t, p).Some? && Top(t, p).value in t))
  {
    var z := Save(t, kind, name, caSn, cert).value;
    var row := Row(kind, name, MaxVersion(t, kind, name) + 1, true, ParentFor(kind, caSn), cert, |t|);
    SaveAdds(t, kind, name, caSn, cert);
    AddsIds(t, Sn(cert), row, z);
    NewTop(t, Sn(cert), row, z);
    WalkFollowsTop(z, cert);
  }

  lemma AllTops(t: Table)
    requires IdsOk(t)
    ensures AllWalksEnd(t) <==> forall sn :: sn in t ==> Top(t, sn).Some?
  {
    forall sn | sn in t ensures WalkEnds(t, t[sn].cert) <==> Top(t, sn).Some? {
      RowStored(t, sn);
      WalkFollowsTop(t, t[sn].cert);
    }
  }

  lemma OldTops(t: Table, id: string, row: Row, z: Table, sn: string)
    requires Adds(t, id, row, z) && sn in t
    ensures Top(z, sn).Some? ==> Top(t, sn).Some?
    ensures Top(t, sn).Some? && Top(z, id).Some? ==> Top(z, sn).Some?
  {
    if Top(z, sn).Some? {
      StoppedBefore(t, id, row, z, sn, |z|);
      TopIsEnough(t, sn, |z|);
    } else if Top(t, sn).Some? && Top(z, id).Some? {
      if Top(t, sn) == Some(id) {
        Through(t, id, row, z, sn, |t|, |z|);
        TopIsEnough(z, sn, |t| + |z|);
      } else {
        SameBelow(t, id, row, z, sn, |t|);
        TopIsEnough(z, sn, |t|);
      }
    }
  }

  lemma AddsTops(t: Table, id: string, row: Row, z: Table)
    requires Adds(t, id, row, z)
    ensures (forall sn :: sn in z ==> Top(z, sn).Some?) <==>
      (forall sn :: sn in t ==> Top(t, sn).Some?) && Top(z, id).Some?
  {
    forall sn | sn in t
      ensures Top(z, sn).Some? ==> Top(t, sn).Some?
      ensures Top(t, sn).Some? && Top(z, id).Some? ==> Top(z, sn).Some?
    {
      OldTops(t, id, row, z, sn);
    }
  }

  /** A save leaves a table on which every walk ends exactly when every walk ended before and it closes no cycle. */
  lemma SaveKeepsWalksIff(t: Table, kind: int, name: string, caSn: string, cert: Cert)
    requires IdsOk(t) && Save(t, kind, name, caSn, cert).Some?
    ensures var z := Save(t, kind, name, caSn, cert).value;
      IdsOk(z) && (AllWalksEnd(z) <==> AllWalksEnd(t) && ClosesNoCycle(t, ParentFor(kind, caSn), Sn(cert)))
  {
    var z := Save(t, kind, name, caSn, cert).value;
    var row := Row(kind, name, MaxVersion(t, kind, name) + 1, true, ParentFor(kind, caSn), cert, |t|);
    SaveAdds(t, kind, name, caSn, cert);
    AddsIds(t, Sn(cert), row, z);
    NewTop(t, Sn(cert), row, z);
    AddsTops(t, Sn(cert), row, z);
    AllTops(t);
    AllTops(z);
  }

  // ----- every sequence of saves

  datatype SaveCall = SaveCall(kind: int, name: string, caSn: string, cert: Cert)

  /** A refused save changes nothing. */
  function After(t: Table, calls: seq<SaveCall>): Table {
    if calls == [] then t
    else
      var before := After(t, calls[..|calls| - 1]);
      var call := calls[|calls| - 1];
      match Save(before, call.kind, call.name, call.caSn, call.cert)
      case None => before
      case Some(z) => z
  }

  /** The call is refused or closes no cycle. */
  predicate Harmless(t: Table, call: SaveCall) {
    Sn(call.cert) in t || ClosesNoCycle(t, ParentFor(call.kind, call.caSn), Sn(call.cert))
  }

  /** Each save of a run is harmless when it comes. */
  ghost predicate AllHarmless(t: Table, calls: seq<SaveCall>) {
    forall i {:trigger HarmlessAt(t, calls, i)} :: 0 <= i < |calls| ==> HarmlessAt(t, calls, i)
  }

  predicate HarmlessAt(t: Table, calls: seq<SaveCall>, i: int)
    requires 0 <= i < |calls|
  {
    Harmless(After(t, calls[..i]), calls[i])
  }

  lemma LastHarmless(t: Table, front: seq<SaveCall>, last: SaveCall)
    ensures AllHarmless(t, front + [last]) <==> AllHarmless(t, front) && Harmless(After(t, front), last)
  {
    var calls := front + [last];
    forall i | 0 <= i < |front| ensures HarmlessAt(t, calls, i) <==> HarmlessAt(t, front, i) {
      assert calls[..i] == front[..i];
    }
    assert calls[..|front|] == front;
    assert HarmlessAt(t, calls, |front|) <==> Harmless(After(t, front), last);
  }

  lemma SaveOrRefuse(t: Table, call: SaveCall)
    requires IdsOk(t)
    ensures IdsOk(After(t, [call]))
    ensures AllWalksEnd(After(t, [call])) <==> AllWalksEnd(t) && Harmless(t, call)
  {
    assert After(t, [call][..0]) == t;
    if Save(t, call.kind, call.name, call.caSn, call.cert).Some? {
      SaveKeepsWalksIff(t, call.kind, call.name, call.caSn, call.cert);
    }
  }

  lemma AfterLast(t: Table, front: seq<SaveCall>, last: SaveCall)
    ensures After(t, front + [last]) == After(After(t, front), [last])
  {
    assert (front + [last])[..|front|] == front;
    assert After(After(t, front), [last][..0]) == After(t, front);
  }

  lemma {:induction false} RunKeepsWalksIff(t: Table, calls: seq<SaveCall>)
    requires IdsOk(t)
    ensures IdsOk(After(t, calls))
    ensures AllWalksEnd(After(t, calls)) <==> AllWalksEnd(t) && AllHarmless(t, calls)
    decreases |calls|
  {
    if calls != [] {
      var front, last := calls[..|calls| - 1], calls[|calls| - 1];
      assert calls == front + [last];
      RunKeepsWalksIff(t, front);
      SaveOrRefuse(After(t, front), last);
      AfterLast(t, front, last);
      LastHarmless(t, front, last);
    }
  }

  /** After any saves into an empty table every walk ends if and only if none of them closed a cycle. Rows are never
      removed, so a walk that does not end stays so. */
  lemma EveryWalkEndsIff(calls: seq<SaveCall>)
    ensures AllWalksEnd(After(map[], calls)) <==> AllHarmless(map[], calls)
  {
    RunKeepsWalksIff(map[], calls);
  }

  // ----- instances

  /** A stored certificate that is its own parent: the recursive walk never ends. */
  lemma {:induction false} OwnParentNeverEnds(t: Table, cert: Cert, calls: nat)
    requires Stored(t, cert) && t[Sn(cert)].parent == Sn(cert) != ""
    ensures RetrieveWithin(t, cert, Sn(cert), calls) == None
  {
    if calls > 0 {
      OwnParentNeverEnds(t, cert, calls - 1);
    }
  }

  /** Two saves into an empty table, the second under a parent that is stored and another certificate, and the walk never
      ends. */
  lemma CycleOfTwo(kinds: (int, int), names: (string, string), a: Cert, b: Cert)
    requires kinds.0 != ROOT_KIND && kinds.1 != ROOT_KIND && Sn(a) != Sn(b) && Sn(a) != "" && Sn(b) != ""
    ensures var calls := [SaveCall(kinds.0, names.0, Sn(b), a), SaveCall(kinds.1, names.1, Sn(a), b)];
      && Stored(After(map[], calls[..1]), a) && Stored(After(map[], calls), b)
      && !WalkEnds(After(map[], calls), b)
  {
    var calls := [SaveCall(kinds.0, names.0, Sn(b), a), SaveCall(kinds.1, names.1, Sn(a), b)];
    var empty: Table := map[];
    assert calls[..1] == [calls[0]] && calls[..1][..0] == [] && calls[..|calls| - 1] == calls[..1];
    var one := After(empty, calls[..1]);
    assert After(empty, []) == empty;
    assert Save(empty, kinds.0, names.0, Sn(b), a) == Some(one);
    SaveAdds(empty, kinds.0, names.0, Sn(b), a);
    AddsSize(empty, Sn(a), one[Sn(a)], one);
    AddsIds(empty, Sn(a), one[Sn(a)], one);
    assert Top(one, Sn(a)) == Stop(one, Sn(b), 0) == Some(Sn(b));
    SaveAdds(one, kinds.1, names.1, Sn(a), b);
    WalkEndsIff(one, kinds.1, names.1, Sn(a), b);
  }

  // ----- well-formed tables

  lemma WithinStep(t: Table, cert: Cert, sn: string, calls: nat)
    requires WellFormed(t) && sn in t && t[sn].parent != "" && calls > 0
    ensures var p := t[sn].parent;
      p in t && RetrieveWithin(t, cert, sn, calls) ==
        match RetrieveWithin(t, t[p].cert, p, calls - 1)
        case None => None
        case Some(above) => Some(Append(above, cert))
  {
    ParentLoads(t, sn);
  }

  lemma WithinEnd(t: Table, cert: Cert, sn: string, calls: nat)
    requires WellFormed(t) && calls > 0 && (sn in t ==> t[sn].parent == "")
    ensures RetrieveWithin(t, cert, sn, calls) == Some(RecursiveRetrieve(t, cert, sn))
  {
  }

  lemma EnoughStep(t: Table, cert: Cert, sn: string, calls: nat)
    requires WellFormed(t) && sn in t && t[sn].parent != "" && t[sn].parent in t && calls > 0
    requires var p := t[sn].parent;
      RetrieveWithin(t, t[p].cert, p, calls - 1) == Some(RecursiveRetrieve(t, t[p].cert, p))
    ensures RetrieveWithin(t, cert, sn, calls) == Some(RecursiveRetrieve(t, cert, sn))
  {
    RecursiveStep(t, cert, sn);
    WithinStep(t, cert, sn, calls);
  }

  /** With more calls than rows older than the certificate, the cut-off walk is the walk. */
  lemma {:induction false} EnoughCalls(t: Table, cert: Cert, sn: string, calls: nat)
    requires WellFormed(t) && calls > Birth(t, sn) + 1
    ensures RetrieveWithin(t, cert, sn, calls) == Some(RecursiveRetrieve(t, cert, sn))
    decreases calls
  {
    if sn in t && t[sn].parent != "" {
      ParentLoads(t, sn);
      EnoughCalls(t, t[t[sn].parent].cert, t[sn].parent, calls - 1);
      EnoughStep(t, cert, sn, calls);
    } else {
      WithinEnd(t, cert, sn, calls);
    }
  }

  lemma WellFormedTop(t: Table, sn: string)
    requires WellFormed(t) && sn in t
    ensures Top(t, sn).Some? && Top(t, sn).value in t
  {
    var calls := Birth(t, sn) + 2;
    RecursiveIsChain(t, sn);
    EnoughCalls(t, t[sn].cert, sn, calls);
    EndsThenStops(t, t[sn].cert, sn, calls);
    TopIsEnough(t, sn, calls);
  }

  /** Into a well-formed table: the walk ends unless the certificate was saved as its own parent, and succeeds exactly when
      the parent is stored or there is none. */
  lemma WalkEndsOnWellFormed(t: Table, kind: int, name: string, caSn: string, cert: Cert)
    requires WellFormed(t) && Save(t, kind, name, caSn, cert).Some?
    ensures var z := Save(t, kind, name, caSn, cert).value;
      var p := ParentFor(kind, caSn);
      && (WalkEnds(z, cert) <==> p == "" || p != Sn(cert))
      && (WalkSucceeds(z, cert) <==> p == "" || p in t)
  {
    var p := ParentFor(kind, caSn);
    WalkEndsIff(t, kind, name, caSn, cert);
    if p in t {
      WellFormedTop(t, p);
    }
  }
}
