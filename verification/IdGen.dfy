/** The id generator (utility/idgen/id.go): 48 bits of time, 16 of node, 32 of element, 32 of counter. */
module IdGen {
  import opened Wrappers
  import opened Bits
  import opened Bytes
  import Order

  const MAX_INT32: int := 0x7fff_ffff

  /** Two signed 64-bit words. */
  datatype IdType = IdType(hi: Int64, lo: Int64)

  function CompareTo(a: IdType, b: IdType): int {
    if a.hi > b.hi then 1
    else if a.hi < b.hi then -1
    else if a.lo > b.lo then 1
    else if a.lo < b.lo then -1
    else 0
  }

  function MakeId(time: int, nodeIdMask: Int64, elementIdMask: Int64, seqno: int, start: int): IdType {
    IdType(OrWords(ShiftLeft(time - start, 16), nodeIdMask), OrWords(elementIdMask, seqno % TWO_32))
  }

  function NodeMask(nodeId: int): (m: Int64)
    ensures 0 <= m < TWO_16
  {
    nodeId % TWO_16
  }

  function ElementMask(elementId: int): Int64 {
    ShiftLeft(elementId % TWO_32, 32)
  }

  // ----- the generator

  /** The fields Next reads and writes. */
  datatype Gen = Gen(time: int, seqno: int, noRewindBefore: int)

  /** One call: the clock read before the lock, and the readings of the spin loop should it be needed. */
  datatype Call = Call(reading: int, spin: seq<int>)

  /** What a call issues: the time and counter packed into the id, or the clock-backward error. */
  datatype Outcome = Issued(time: int, seqno: int) | ClockBackward

  /** The first reading above the given time. */
  function FirstAfter(readings: seq<int>, time: int): Option<int> {
    if readings == [] then None
    else if readings[0] > time then Some(readings[0])
    else FirstAfter(readings[1..], time)
  }

  /** t is the first of the readings that is later than time. */
  predicate IsFirstAfter(readings: seq<int>, time: int, t: int) {
    t > time && exists i :: 0 <= i < |readings| && readings[i] == t && forall j :: 0 <= j < i ==> readings[j] <= time
  }

  lemma {:induction false} FirstAfterIs(readings: seq<int>, time: int)
    ensures match FirstAfter(readings, time)
      case None => forall i :: 0 <= i < |readings| ==> readings[i] <= time
      case Some(t) => IsFirstAfter(readings, time, t)
  {
    if readings != [] {
      FirstAfterIs(readings[1..], time);
      if readings[0] <= time {
        assert forall i :: 0 < i < |readings| ==> readings[i] == readings[1..][i - 1];
        if FirstAfter(readings[1..], time).Some? {
          var t := FirstAfter(readings[1..], time).value;
          var i :| 0 <= i < |readings[1..]| && readings[1..][i] == t && forall j :: 0 <= j < i ==> readings[1..][j] <= time;
          assert readings[i + 1] == t && forall j :: 0 <= j < i + 1 ==> readings[j] <= time;
        }
      }
    }
  }

  /** The clock moves on eventually when a call has to wait. */
  predicate ClockAdvances(g: Gen, c: Call) {
    c.reading == g.time && g.seqno >= MAX_INT32 ==> exists i :: 0 <= i < |c.spin| && c.spin[i] > c.reading
  }

  function Rewind(g: Gen): int {
    if g.noRewindBefore < g.seqno then 0 else g.seqno
  }

  function NextSpec(g: Gen, c: Call): (Gen, Outcome)
    requires ClockAdvances(g, c)
  {
    FirstAfterIs(c.spin, c.reading);
    if c.reading > g.time then (Gen(c.reading, Rewind(g), g.noRewindBefore), Issued(c.reading, 0))
    else if c.reading < g.time then (g, ClockBackward)
    else if g.seqno < MAX_INT32 then (g.(seqno := g.seqno + 1), Issued(g.time, g.seqno + 1))
    else
      var t := FirstAfter(c.spin, c.reading).value;
      (Gen(t, Rewind(g), g.noRewindBefore), Issued(t, 0))
  }

  /** What a call does, outright. It fails exactly when the clock stands behind the last id. Otherwise the counter goes on
      within the same millisecond; a new millisecond, the one read, or the first later one when the counter is used up,
      starts at counter 0, and rewinds the counter unless the option keeps it low. */
  predicate Answers(was: Gen, c: Call, now: Gen, out: Outcome) {
    && (out.ClockBackward? <==> c.reading < was.time)
    && (out.ClockBackward? ==> now == was)
    && (out.Issued? ==>
          && now.time == out.time >= c.reading && now.noRewindBefore == was.noRewindBefore
          && (if c.reading == was.time && was.seqno < MAX_INT32
              then out.time == c.reading && out.seqno == was.seqno + 1 == now.seqno
              else out.seqno == 0 && now.seqno == if was.noRewindBefore < was.seqno then 0 else was.seqno)
          && (if c.reading == was.time && was.seqno >= MAX_INT32
              then IsFirstAfter(c.spin, c.reading, out.time) else out.time == c.reading))
  }

  /** Only one state and outcome is such an answer. */
  lemma AnswersOnce(was: Gen, c: Call, now: Gen, out: Outcome)
    requires ClockAdvances(was, c)
    ensures Answers(was, c, now, out) <==> (now, out) == NextSpec(was, c)
  {
    FirstAfterIs(c.spin, c.reading);
  }

  class Generator {
    var time: int
    var seqno: int
    const nodeIdMask: Int64
    const elementIdMask: Int64
    const noRewindBefore: int
    const startTimeMillis: int

    ghost function State(): Gen
      reads this
    {
      Gen(time, seqno, noRewindBefore)
    }

    constructor (nodeId: int, elementId: int, noRewindBefore: int, startTimeMillis: int)
      ensures State() == Gen(0, 0, noRewindBefore)
      ensures nodeIdMask == NodeMask(nodeId) && elementIdMask == ElementMask(elementId)
      ensures this.startTimeMillis == if startTimeMillis == 0 then 1521639000000 else startTimeMillis
    {
      time := 0;
      seqno := 0;
      this.nodeIdMask := NodeMask(nodeId);
      this.elementIdMask := ElementMask(elementId);
      this.noRewindBefore := noRewindBefore;
      this.startTimeMillis := if startTimeMillis == 0 then 1521639000000 else startTimeMillis;
    }

    static method TillNextMillisecond(time: int, readings: seq<int>) returns (newTime: int)
      requires exists i :: 0 <= i < |readings| && readings[i] > time
      ensures IsFirstAfter(readings, time, newTime)
    {
      var i := 0;
      while readings[i] <= time
        invariant 0 <= i < |readings| && (forall j :: 0 <= j < i ==> readings[j] <= time)
        invariant exists j :: i <= j < |readings| && readings[j] > time
        decreases |readings| - i
      {
        i := i + 1;
      }
      newTime := readings[i];
    }

    /** With AnswersOnce: the one state and outcome that NextSpec gives. */
    method Next(c: Call) returns (id: Option<IdType>)
      requires ClockAdvances(State(), c)
      modifies this`time, this`seqno
      ensures id == None <==> c.reading < old(time)
      ensures var n := if c.reading == old(time) && old(seqno) < MAX_INT32 then old(seqno) + 1 else 0;
        && Answers(old(State()), c, State(), if id == None then ClockBackward else Issued(time, n))
        && (id.Some? ==> id == Some(MakeId(time, nodeIdMask, elementIdMask, n, startTimeMillis)))
    {
      var timeInMills := c.reading;
      if timeInMills > time {
        time := timeInMills;
        if noRewindBefore < seqno {
          seqno := 0;
        }
        return Some(MakeId(timeInMills, nodeIdMask, elementIdMask, 0, startTimeMillis));
      } else if timeInMills == time {
        if seqno < MAX_INT32 {
          seqno := seqno + 1;
          return Some(MakeId(timeInMills, nodeIdMask, elementIdMask, seqno, startTimeMillis));
        } else {
          var newTime := TillNextMillisecond(timeInMills, c.spin);
          time := newTime;
          if noRewindBefore < seqno {
            seqno := 0;
          }
          return Some(MakeId(newTime, nodeIdMask, elementIdMask, 0, startTimeMillis));
        }
      } else {
        return None;
      }
    }
  }

  // ----- runs

  predicate Advances(g: Gen, calls: seq<Call>)
    decreases |calls|
  {
    calls == [] || (ClockAdvances(g, calls[0]) && Advances(NextSpec(g, calls[0]).0, calls[1..]))
  }

  /** Everything a run of Next issues, in order. */
  function IssuedBy(g: Gen, calls: seq<Call>): seq<Outcome>
    requires Advances(g, calls)
    decreases |calls|
  {
    if calls == [] then []
    else
      var (h, out) := NextSpec(g, calls[0]);
      (if out.Issued? then [out] else []) + IssuedBy(h, calls[1..])
  }

  predicate Before(a: Outcome, b: Outcome) {
    a.Issued? && b.Issued? && (a.time < b.time || (a.time == b.time && a.seqno < b.seqno))
  }

  predicate CounterOk(g: Gen) {
    0 <= g.seqno <= MAX_INT32
  }

  /** A later issue is above anything issued so far: the generator stands at or beyond it. */
  predicate Passed(g: Gen, out: Outcome) {
    out.Issued? && 0 <= out.seqno && (out.time < g.time || (out.time == g.time && out.seqno <= g.seqno))
  }

  lemma NextPasses(g: Gen, c: Call)
    requires CounterOk(g) && ClockAdvances(g, c)
    ensures var (h, out) := NextSpec(g, c);
      && CounterOk(h)
      && (out.Issued? ==> Passed(h, out) && out.seqno <= MAX_INT32)
      && (forall o: Outcome :: Passed(g, o) ==> Passed(h, o) && (out.Issued? ==> Before(o, out)))
  {
    AnswersOnce(g, c, NextSpec(g, c).0, NextSpec(g, c).1);
  }

  /** Issued in strictly increasing order of time, then counter. */
  predicate Increases(outs: seq<Outcome>) {
    && (forall i :: 0 <= i < |outs| ==> outs[i].Issued? && 0 <= outs[i].seqno <= MAX_INT32)
    && (forall i, j :: 0 <= i < j < |outs| ==> Before(outs[i], outs[j]))
  }

  predicate AllAfter(o: Outcome, outs: seq<Outcome>) {
    forall i :: 0 <= i < |outs| ==> Before(o, outs[i])
  }

  lemma IncreasesCons(out: Outcome, rest: seq<Outcome>)
    requires out.Issued? && 0 <= out.seqno <= MAX_INT32 && Increases(rest) && AllAfter(out, rest)
    ensures Increases([out] + rest)
  {
  }

  /** Time and counter of everything issued strictly increase, whatever the clock did. */
  lemma {:induction false} RunIncreases(g: Gen, calls: seq<Call>)
    requires CounterOk(g) && Advances(g, calls)
    ensures Increases(IssuedBy(g, calls))
    ensures forall o :: Passed(g, o) ==> AllAfter(o, IssuedBy(g, calls))
    decreases |calls|
  {
    if calls != [] {
      var (h, out) := NextSpec(g, calls[0]);
      var rest := IssuedBy(h, calls[1..]);
      NextPasses(g, calls[0]);
      RunIncreases(h, calls[1..]);
      if out.Issued? {
        IncreasesCons(out, rest);
        assert IssuedBy(g, calls) == [out] + rest;
      } else {
        assert IssuedBy(g, calls) == rest;
      }
    }
  }

  /** Readings that never go back: each call's own, then those of its spin loop. */
  predicate ClockForward(time: int, calls: seq<Call>)
    decreases |calls|
  {
    calls == [] ||
    (time <= calls[0].reading && ClockForward(calls[0].reading, calls[1..])
     && forall i :: 0 <= i < |calls[0].spin| ==> ClockForward(calls[0].spin[i], calls[1..]))
  }

  /** While the clock does not go back, every call issues an id. */
  lemma {:induction false} EveryCallIssues(g: Gen, calls: seq<Call>)
    requires Advances(g, calls) && ClockForward(g.time, calls)
    ensures |IssuedBy(g, calls)| == |calls|
    decreases |calls|
  {
    if calls != [] {
      var (h, out) := NextSpec(g, calls[0]);
      AnswersOnce(g, calls[0], h, out);
      EveryCallIssues(h, calls[1..]);
    }
  }

  // ----- packing

  /** The time domain: 48 signed bits around the start time. */
  predicate InWindow(time: int, start: int) {
    -0x8000_0000_0000 <= time - start < 0x8000_0000_0000
  }

  /** What the words of an id show: time and node in one, element and counter in the other. */
  predicate Shows(id: IdType, time: int, nodeId: int, elementId: int, seqno: int, start: int) {
    id.hi == Wrap48(time - start) * TWO_16 + nodeId % TWO_16
    && id.lo == Signed(elementId % TWO_32 * TWO_32 + seqno % TWO_32)
  }

  lemma PackedHigh(time: int, nodeId: int, start: int)
    ensures OrWords(ShiftLeft(time - start, 16), NodeMask(nodeId)) == Wrap48(time - start) * TWO_16 + nodeId % TWO_16
  {
    HighWord(time - start, NodeMask(nodeId));
  }

  lemma PackedLow(elementId: int, seqno: int)
    ensures OrWords(ElementMask(elementId), seqno % TWO_32) == Signed(elementId % TWO_32 * TWO_32 + seqno % TWO_32)
  {
    LowWord(elementId % TWO_32, seqno % TWO_32);
  }

  /** Every id shows its fields. */
  lemma Packed(time: int, nodeId: int, elementId: int, seqno: int, start: int)
    ensures Shows(MakeId(time, NodeMask(nodeId), ElementMask(elementId), seqno, start),
                  time, nodeId, elementId, seqno, start)
  {
    PackedHigh(time, nodeId, start);
    PackedLow(elementId, seqno);
  }

  function TimeOf(id: IdType, start: int): int { id.hi / TWO_16 + start }

  function NodeOf(id: IdType): int { id.hi % TWO_16 }

  function ElementOf(id: IdType): int { Unsigned(id.lo) / TWO_32 }

  function SeqOf(id: IdType): int { Unsigned(id.lo) % TWO_32 }

  lemma WrapExact(d: int)
    ensures Wrap48(d) == d <==> -0x8000_0000_0000 <= d < 0x8000_0000_0000
  {
  }

  lemma FieldsOf(id: IdType, time: int, nodeId: int, elementId: int, seqno: int, start: int)
    requires Shows(id, time, nodeId, elementId, seqno, start)
    ensures NodeOf(id) == nodeId % TWO_16 && ElementOf(id) == elementId % TWO_32 && SeqOf(id) == seqno % TWO_32
    ensures TimeOf(id, start) == Wrap48(time - start) + start
  {
    DivMod(Wrap48(time - start), nodeId % TWO_16, TWO_16);
    DivMod(elementId % TWO_32, seqno % TWO_32, TWO_32);
    UnsignedSigned(elementId % TWO_32 * TWO_32 + seqno % TWO_32);
  }

  /** Node, element and counter are always recovered from an id; the time exactly within its 48-bit domain. */
  lemma Recovered(time: int, nodeId: int, elementId: int, seqno: int, start: int)
    requires 0 <= seqno <= MAX_INT32
    ensures var id := MakeId(time, NodeMask(nodeId), ElementMask(elementId), seqno, start);
      && NodeOf(id) == nodeId % TWO_16 && ElementOf(id) == elementId % TWO_32 && SeqOf(id) == seqno
      && (TimeOf(id, start) == time <==> InWindow(time, start))
  {
    var id := MakeId(time, NodeMask(nodeId), ElementMask(elementId), seqno, start);
    assert NodeOf(id) == nodeId % TWO_16 && ElementOf(id) == elementId % TWO_32 && SeqOf(id) == seqno % TWO_32
           && TimeOf(id, start) == Wrap48(time - start) + start by {
      Packed(time, nodeId, elementId, seqno, start);
      FieldsOf(id, time, nodeId, elementId, seqno, start);
    }
    SmallCounter(seqno);
    WrapExact(time - start);
  }

  lemma SmallCounter(seqno: int)
    requires 0 <= seqno <= MAX_INT32
    ensures seqno % TWO_32 == seqno
  {
  }

  lemma NarrowInjective(a: int, b: int, half: int)
    requires half > 0 && -half <= a < half && -half <= b < half && a % (2 * half) == b % (2 * half)
    ensures a == b
  {
    var m := 2 * half;
    assert a == a / m * m + a % m && b == b / m * m + b % m;
    if a / m > b / m {
      assert a / m * m - b / m * m == (a / m - b / m) * m;
      AtLeastOnce(a / m - b / m, m);
    } else if a / m < b / m {
      assert b / m * m - a / m * m == (b / m - a / m) * m;
      AtLeastOnce(b / m - a / m, m);
    }
  }

  /** Generators that differ in node or element never issue the same id, at any times and counters. */
  lemma NeverCollide(t1: int, n1: int, e1: int, s1: int, start1: int, t2: int, n2: int, e2: int, s2: int, start2: int)
    requires -0x8000 <= n1 < 0x8000 && -0x8000 <= n2 < 0x8000
    requires -0x8000_0000 <= e1 < 0x8000_0000 && -0x8000_0000 <= e2 < 0x8000_0000
    requires n1 != n2 || e1 != e2
    ensures MakeId(t1, NodeMask(n1), ElementMask(e1), s1, start1) != MakeId(t2, NodeMask(n2), ElementMask(e2), s2, start2)
  {
    var a := MakeId(t1, NodeMask(n1), ElementMask(e1), s1, start1);
    var b := MakeId(t2, NodeMask(n2), ElementMask(e2), s2, start2);
    Packed(t1, n1, e1, s1, start1);
    Packed(t2, n2, e2, s2, start2);
    FieldsOf(a, t1, n1, e1, s1, start1);
    FieldsOf(b, t2, n2, e2, s2, start2);
    if a == b {
      NarrowInjective(n1, n2, 0x8000);
      NarrowInjective(e1, e2, 0x8000_0000);
    }
  }

  /** Ids of one generator compare as their wrapped times, then as their counters. */
  lemma ShownOrder(a: IdType, b: IdType, t1: int, t2: int, s1: int, s2: int, nodeId: int, elementId: int, start: int)
    requires 0 <= s1 <= MAX_INT32 && 0 <= s2 <= MAX_INT32
    requires Shows(a, t1, nodeId, elementId, s1, start) && Shows(b, t2, nodeId, elementId, s2, start)
    ensures CompareTo(a, b) == -1 <==>
      Wrap48(t1 - start) < Wrap48(t2 - start) || (Wrap48(t1 - start) == Wrap48(t2 - start) && s1 < s2)
  {
    var w1, w2 := Wrap48(t1 - start), Wrap48(t2 - start);
    var n, e := nodeId % TWO_16, elementId % TWO_32;
    assert a.hi < b.hi <==> w1 < w2;
    assert a.hi == b.hi <==> w1 == w2;
    LowOrder(e, s1, s2);
  }

  lemma LowOrder(e: nat, s1: int, s2: int)
    requires e < TWO_32 && 0 <= s1 <= MAX_INT32 && 0 <= s2 <= MAX_INT32
    ensures s1 % TWO_32 == s1 && s2 % TWO_32 == s2
    ensures Signed(e * TWO_32 + s1) < Signed(e * TWO_32 + s2) <==> s1 < s2
    ensures Signed(e * TWO_32 + s2) < Signed(e * TWO_32 + s1) <==> s2 < s1
  {
  }

  /** Exactly how CompareTo orders any two ids of one generator, at any times: by the times as 48 bits hold them, then
      by the counters. */
  lemma OrderIff(t1: int, t2: int, nodeId: int, elementId: int, s1: int, s2: int, start: int)
    requires 0 <= s1 <= MAX_INT32 && 0 <= s2 <= MAX_INT32
    ensures CompareTo(MakeId(t1, NodeMask(nodeId), ElementMask(elementId), s1, start),
                      MakeId(t2, NodeMask(nodeId), ElementMask(elementId), s2, start)) == -1
      <==> Wrap48(t1 - start) < Wrap48(t2 - start) || (Wrap48(t1 - start) == Wrap48(t2 - start) && s1 < s2)
  {
    Packed(t1, nodeId, elementId, s1, start);
    Packed(t2, nodeId, elementId, s2, start);
    ShownOrder(MakeId(t1, NodeMask(nodeId), ElementMask(elementId), s1, start),
               MakeId(t2, NodeMask(nodeId), ElementMask(elementId), s2, start),
               t1, t2, s1, s2, nodeId, elementId, start);
  }

  /** One millisecond past the domain the order is reversed: the later id compares as the smaller one. */
  lemma ReversedPastWindow(nodeId: int, elementId: int, s1: int, s2: int, start: int)
    requires 0 <= s1 <= MAX_INT32 && 0 <= s2 <= MAX_INT32
    ensures var last := MakeId(start + 0x7fff_ffff_ffff, NodeMask(nodeId), ElementMask(elementId), s1, start);
      var next := MakeId(start + 0x8000_0000_0000, NodeMask(nodeId), ElementMask(elementId), s2, start);
      CompareTo(next, last) == -1
  {
    OrderIff(start + 0x8000_0000_0000, start + 0x7fff_ffff_ffff, nodeId, elementId, s2, s1, start);
    WrapAhead(0x7fff_ffff_ffff, 0x8000_0000_0000);
  }

  /** Within the time domain CompareTo orders ids of one generator by time, then counter. */
  lemma PackingKeepsOrder(a: Outcome, b: Outcome, nodeId: int, elementId: int, start: int)
    requires Before(a, b) && InWindow(a.time, start) && InWindow(b.time, start)
    requires 0 <= a.seqno <= MAX_INT32 && 0 <= b.seqno <= MAX_INT32
    ensures CompareTo(MakeId(a.time, NodeMask(nodeId), ElementMask(elementId), a.seqno, start),
                      MakeId(b.time, NodeMask(nodeId), ElementMask(elementId), b.seqno, start)) == -1
  {
    OrderIff(a.time, b.time, nodeId, elementId, a.seqno, b.seqno, start);
    WrapExact(a.time - start);
    WrapExact(b.time - start);
  }

  /** The bound is exact: for a later time less than one 48-bit turn ahead, order is kept if and only if that time
      is still in the domain. */
  lemma WindowIsExact(t1: int, t2: int, nodeId: int, elementId: int, s1: int, s2: int, start: int)
    requires InWindow(t1, start) && t1 < t2 < t1 + TWO_48
    requires 0 <= s1 <= MAX_INT32 && 0 <= s2 <= MAX_INT32
    ensures CompareTo(MakeId(t1, NodeMask(nodeId), ElementMask(elementId), s1, start),
                      MakeId(t2, NodeMask(nodeId), ElementMask(elementId), s2, start)) == -1
      <==> InWindow(t2, start)
  {
    OrderIff(t1, t2, nodeId, elementId, s1, s2, start);
    WrapAhead(t1 - start, t2 - start);
  }

  lemma WrapAhead(d1: int, d2: int)
    requires -0x8000_0000_0000 <= d1 < 0x8000_0000_0000 && d1 < d2 < d1 + TWO_48
    ensures Wrap48(d1) == d1 && Wrap48(d2) == if d2 < 0x8000_0000_0000 then d2 else d2 - TWO_48
  {
  }

  predicate AllInWindow(outs: seq<Outcome>, start: int) {
    forall i :: 0 <= i < |outs| ==> outs[i].Issued? && InWindow(outs[i].time, start)
  }

  /** All ids of any run of Next on one generator strictly increase under CompareTo, for arbitrary clock readings
      (repeated, backwards, stale) and any rewind option, counter exhaustion included. */
  lemma IdsIncrease(noRewindBefore: int, calls: seq<Call>, nodeId: int, elementId: int, start: int, i: nat, j: nat)
    requires Advances(Gen(0, 0, noRewindBefore), calls)
    requires AllInWindow(IssuedBy(Gen(0, 0, noRewindBefore), calls), start)
    requires i < j < |IssuedBy(Gen(0, 0, noRewindBefore), calls)|
    ensures var outs := IssuedBy(Gen(0, 0, noRewindBefore), calls);
      CompareTo(MakeId(outs[i].time, NodeMask(nodeId), ElementMask(elementId), outs[i].seqno, start),
                MakeId(outs[j].time, NodeMask(nodeId), ElementMask(elementId), outs[j].seqno, start)) == -1
  {
    var g := Gen(0, 0, noRewindBefore);
    RunIncreases(g, calls);
    PackingKeepsOrder(IssuedBy(g, calls)[i], IssuedBy(g, calls)[j], nodeId, elementId, start);
  }

  // ----- hexadecimal form

  function IdBytes(id: IdType): (bs: seq<Byte>)
    ensures |bs| == 16
  {
    BigEndian(Unsigned(id.hi), 8) + BigEndian(Unsigned(id.lo), 8)
  }

  function HexString(id: IdType): string {
    Hex(IdBytes(id))
  }

  function FromHexString(s: string): Option<IdType> {
    match UnHex(s)
    case None => None
    case Some(b) => if |b| != 16 then None else Some(IdType(ToWord(b[..8]), ToWord(b[8..])))
  }

  function ToWord(b: seq<Byte>): Int64
    requires |b| == 8
  {
    ValueBound(b);
    Pow256At8();
    Signed(Value(b))
  }

  lemma WordBytes(x: Int64)
    ensures Value(BigEndian(Unsigned(x), 8)) == Unsigned(x) && ToWord(BigEndian(Unsigned(x), 8)) == x
  {
    Pow256At8();
    ValueOfBigEndian(Unsigned(x), 8);
    SignedUnsigned(x);
  }

  /** Hex decode undoes hex encode for every id. */
  lemma HexRoundTrip(id: IdType)
    ensures FromHexString(HexString(id)) == Some(id)
  {
    UnHexOfHex(IdBytes(id));
    var a, b := BigEndian(Unsigned(id.hi), 8), BigEndian(Unsigned(id.lo), 8);
    assert (a + b)[..8] == a && (a + b)[8..] == b;
    WordBytes(id.hi);
    WordBytes(id.lo);
  }

  /** One more byte at the end of a concatenation. */
  lemma ConcatStep(high: nat, p: nat, low: nat, b: nat)
    ensures (high * p + low) * 256 + b == high * (256 * p) + (low * 256 + b)
  {
    ScaleByte(high, p);
  }

  lemma {:induction false} ValueOfConcat(a: seq<Byte>, b: seq<Byte>)
    ensures Value(a + b) == Value(a) * Pow256(|b|) + Value(b)
  {
    if b == [] {
      assert a + b == a;
    } else {
      var n := |b| - 1;
      ValueOfConcat(a, b[..n]);
      assert (a + b)[..|a + b| - 1] == a + b[..n];
      ConcatStep(Value(a), Pow256(n), Value(b[..n]), b[n]);
    }
  }

  lemma ValueOfId(id: IdType)
    ensures Value(IdBytes(id)) == Unsigned(id.hi) * TWO_64 + Unsigned(id.lo)
  {
    WordBytes(id.hi);
    WordBytes(id.lo);
    Pow256At8();
    ValueOfConcat(BigEndian(Unsigned(id.hi), 8), BigEndian(Unsigned(id.lo), 8));
  }

  /** For ids with non-negative words the hex strings sort as the ids compare. */
  lemma HexSortsLikeIds(a: IdType, b: IdType)
    requires 0 <= a.hi && 0 <= a.lo && 0 <= b.hi && 0 <= b.lo
    ensures Order.Less(HexString(a), HexString(b)) <==> CompareTo(a, b) == -1
  {
    HexOrder(IdBytes(a), IdBytes(b));
    ValueOfId(a);
    ValueOfId(b);
    LeadDecides(Unsigned(a.hi), Unsigned(b.hi), TWO_64, Unsigned(a.lo), Unsigned(b.lo));
    UnsignedSmall(a.hi);
    UnsignedSmall(b.hi);
    UnsignedSmall(a.lo);
    UnsignedSmall(b.lo);
  }
}
