/** The write-ahead log (db/alpha/replication/wal.go, model.go): record framing, positions, recovery by scanning. */
module Wal {
  import opened Wrappers
  import opened Bytes

  const HEADER_SIZE: nat := 32     // position 16, size 4, checksum 4, zero 8

  const UINT32_LIMIT: nat := 0x1_0000_0000

  const POSITION_LIMIT: nat := 0x8000_0000_0000_0000

  /** File index and record index, both below 2^63. */
  datatype Position = Position(file: nat, index: nat) {
    function ToBytes(): (bs: seq<Byte>)
      ensures |bs| == 16
    {
      Word(file) + Word(index)
    }
  }

  function PositionFromBytes(data: seq<Byte>): Option<Position> {
    if |data| != 16 then None
    else Some(Position(Value(data[..8]) % POSITION_LIMIT, Value(data[8..]) % POSITION_LIMIT))
  }

  /** Every position the log can reach survives its bytes. */
  lemma PositionRoundTrip(p: Position)
    requires p.file < POSITION_LIMIT && p.index < POSITION_LIMIT
    ensures PositionFromBytes(p.ToBytes()) == Some(p)
  {
    WordRoundTrip(p.file);
    WordRoundTrip(p.index);
    Halves(Word(p.file), Word(p.index));
  }

  lemma Halves(a: seq<Byte>, b: seq<Byte>)
    requires |a| == |b| == 8
    ensures (a + b)[..8] == a && (a + b)[8..] == b
  {
  }

  /** A word of a position: big-endian, masked with the largest signed 64-bit number. */
  function Word(n: nat): (bs: seq<Byte>)
    ensures |bs| == 8
  {
    BigEndian(n % POSITION_LIMIT, 8)
  }

  lemma WordRoundTrip(n: nat)
    requires n < POSITION_LIMIT
    ensures Value(Word(n)) == n
  {
    var m := n % POSITION_LIMIT;
    assert m == n;
    Pow256At8();
    ValueOfBigEndian(m, 8);
  }

  const ZERO_8: seq<Byte> := [0, 0, 0, 0, 0, 0, 0, 0]

  /** The Adler-32 sums; the reader never checks them. */
  function AdlerSums(data: seq<Byte>): (ab: (nat, nat))
    ensures ab.0 < 65521 && ab.1 < 65521
  {
    if data == [] then (1, 0)
    else
      var (a, b) := AdlerSums(data[..|data| - 1]);
      var a' := (a + data[|data| - 1]) % 65521;
      (a', (b + a') % 65521)
  }

  function Checksum(data: seq<Byte>): (c: nat)
    ensures c < UINT32_LIMIT
  {
    AdlerSums(data).1 * 65536 + AdlerSums(data).0
  }

  /** The length field holds the low 32 bits. */
  function Size(payload: seq<Byte>): (bs: seq<Byte>)
    ensures |bs| == 4
  {
    BigEndian(|payload| % UINT32_LIMIT, 4)
  }

  lemma SizeIsExact(n: nat)
    requires n < UINT32_LIMIT
    ensures Value(BigEndian(n % UINT32_LIMIT, 4)) == n
  {
    assert n % UINT32_LIMIT == n;
    Pow256At4();
    ValueOfBigEndian(n, 4);
  }

  lemma SizeRoundTrip(payload: seq<Byte>)
    requires |payload| < UINT32_LIMIT
    ensures Value(Size(payload)) == |payload|
  {
    SizeIsExact(|payload|);
  }

  /** Everything of a record header after the position. */
  function HeaderTail(payload: seq<Byte>): (bs: seq<Byte>)
    ensures |bs| == 16
  {
    Size(payload) + BigEndian(Checksum(payload), 4) + ZERO_8
  }

  function Header(pos: Position, payload: seq<Byte>): (bs: seq<Byte>)
    ensures |bs| == HEADER_SIZE
  {
    pos.ToBytes() + HeaderTail(payload)
  }

  function Record(pos: Position, payload: seq<Byte>): seq<Byte> {
    Header(pos, payload) + payload
  }

  /** The log that writing the payloads in order produces, the first at the given index. */
  function Log(file: nat, first: nat, payloads: seq<seq<Byte>>): seq<Byte>
    decreases |payloads|
  {
    if payloads == [] then []
    else Record(Position(file, first), payloads[0]) + Log(file, first + 1, payloads[1..])
  }

  lemma Associative<T>(a: seq<T>, b: seq<T>, c: seq<T>)
    ensures a + (b + c) == (a + b) + c
  {
  }

  lemma {:induction false} LogAppend(file: nat, first: nat, payloads: seq<seq<Byte>>, p: seq<Byte>)
    ensures Log(file, first, payloads + [p])
      == Log(file, first, payloads) + Record(Position(file, first + |payloads|), p)
    decreases |payloads|
  {
    if payloads == [] {
      assert [p][1..] == [] && [] + [p] == [p];
    } else {
      var head := Record(Position(file, first), payloads[0]);
      var middle := Log(file, first + 1, payloads[1..]);
      var tail := Record(Position(file, first + |payloads|), p);
      assert Log(file, first + 1, payloads[1..] + [p]) == middle + tail by {
        LogAppend(file, first + 1, payloads[1..], p);
      }
      assert Log(file, first, payloads + [p]) == head + (middle + tail) by {
        assert (payloads + [p])[1..] == payloads[1..] + [p] && (payloads + [p])[0] == payloads[0];
      }
      Associative(head, middle, tail);
    }
  }

  // ----- the scanner

  /** A record as the scanner sees it: the index in its header and its payload. */
  datatype Frame = Frame(index: nat, payload: seq<Byte>)

  function SizeIn(header: seq<Byte>): nat
    requires |header| == HEADER_SIZE
  {
    Value(header[16..20])
  }

  function IndexIn(header: seq<Byte>): nat
    requires |header| == HEADER_SIZE
  {
    Value(header[8..16]) % POSITION_LIMIT
  }

  /** io.ReadFull into the reused header buffer: a short read overwrites only its first part, and the scanner
      does not look at the error of a short read. */
  function ReadHeader(src: seq<Byte>, buffer: seq<Byte>): (h: seq<Byte>)
    requires |buffer| == HEADER_SIZE
    ensures |h| == HEADER_SIZE
  {
    if |src| >= HEADER_SIZE then src[..HEADER_SIZE] else src + buffer[|src|..]
  }

  function AfterHeader(src: seq<Byte>): seq<Byte> {
    if |src| >= HEADER_SIZE then src[HEADER_SIZE..] else []
  }

  /** The frames the scan loop visits; None when a payload is cut short. The measure is the bytes left. */
  function Scan(src: seq<Byte>, buffer: seq<Byte>): Option<seq<Frame>>
    requires |buffer| == HEADER_SIZE
    decreases |src|
  {
    if src == [] then Some([])
    else
      var h := ReadHeader(src, buffer);
      var rest := AfterHeader(src);
      if |rest| < SizeIn(h) then None
      else
        Then([Frame(IndexIn(h), rest[..SizeIn(h)])], Scan(rest[SizeIn(h)..], h))
  }

  function Then(seen: seq<Frame>, more: Option<seq<Frame>>): Option<seq<Frame>> {
    match more
    case None => None
    case Some(frames) => Some(seen + frames)
  }

  lemma ThenThen(a: seq<Frame>, b: seq<Frame>, more: Option<seq<Frame>>)
    ensures Then(a, Then(b, more)) == Then(a + b, more)
    ensures Then([], more) == more
  {
    if more.Some? {
      Associative(a, b, more.value);
      assert [] + more.value == more.value;
    }
  }

  function ZeroHeader(): (h: seq<Byte>)
    ensures |h| == HEADER_SIZE
  {
    ZERO_8 + ZERO_8 + ZERO_8 + ZERO_8
  }

  function LastIndex(frames: seq<Frame>): nat {
    if frames == [] then 0 else frames[|frames| - 1].index
  }

  /** What readLastPos returns for a log file. */
  function Recover(src: seq<Byte>): Option<nat> {
    match Scan(src, ZeroHeader())
    case None => None
    case Some(frames) => Some(LastIndex(frames))
  }

  /** One turn of the scan. */
  lemma ScanTurns(src: seq<Byte>, buffer: seq<Byte>)
    requires |buffer| == HEADER_SIZE && src != []
    ensures var h := ReadHeader(src, buffer);
      var rest := AfterHeader(src);
      Scan(src, buffer) ==
        if |rest| < SizeIn(h) then None
        else Then([Frame(IndexIn(h), rest[..SizeIn(h)])], Scan(rest[SizeIn(h)..], h))
  {
  }

  /** What follows a record is a later part of the file. */
  lemma RestOf(src: seq<Byte>, at: nat, size: nat)
    requires at < |src| && size <= |AfterHeader(src[at..])|
    ensures var rest := AfterHeader(src[at..]);
      at < |src| - |rest| + size <= |src| && src[|src| - |rest| + size..] == rest[size..]
  {
  }

  /** Where the scan stands after some records: seen is what it has visited, the rest is still to come. */
  predicate Standing(total: Option<seq<Frame>>, seen: seq<Frame>, rest: seq<Byte>, header: seq<Byte>) {
    |header| == HEADER_SIZE && total == Then(seen, Scan(rest, header))
  }

  lemma StandingOn(total: Option<seq<Frame>>, seen: seq<Frame>, rest: seq<Byte>, header: seq<Byte>,
                   frame: Frame, next: seq<Byte>, h: seq<Byte>)
    requires Standing(total, seen, rest, header) && |h| == HEADER_SIZE
    requires Scan(rest, header) == Then([frame], Scan(next, h))
    ensures Standing(total, seen + [frame], next, h)
  {
    ThenThen(seen, [frame], Scan(next, h));
  }

  /** One turn of the loop. */
  lemma NextTurn(total: Option<seq<Frame>>, seen: seq<Frame>, rest: seq<Byte>, header: seq<Byte>)
    requires rest != [] && Standing(total, seen, rest, header)
    ensures var h := ReadHeader(rest, header);
      var body := AfterHeader(rest);
      if |body| < SizeIn(h) then total == None
      else Standing(total, seen + [Frame(IndexIn(h), body[..SizeIn(h)])], body[SizeIn(h)..], h)
  {
    var h := ReadHeader(rest, header);
    var body := AfterHeader(rest);
    ScanTurns(rest, header);
    if SizeIn(h) <= |body| {
      StandingOn(total, seen, rest, header, Frame(IndexIn(h), body[..SizeIn(h)]), body[SizeIn(h)..], h);
    }
  }

  /** The same as a step through the file. */
  lemma FileTurn(total: Option<seq<Frame>>, seen: seq<Frame>, src: seq<Byte>, at: nat, header: seq<Byte>,
                 h: seq<Byte>, rest: seq<Byte>, next: int)
    requires at < |src| && Standing(total, seen, src[at..], header)
    requires h == ReadHeader(src[at..], header) && rest == AfterHeader(src[at..]) && next == |src| - |rest| + SizeIn(h)
    ensures |rest| < SizeIn(h) ==> total == None
    ensures SizeIn(h) <= |rest| ==>
      at < next <= |src| && Standing(total, seen + [Frame(IndexIn(h), rest[..SizeIn(h)])], src[next..], h)
  {
    NextTurn(total, seen, src[at..], header);
    if SizeIn(h) <= |rest| {
      RestOf(src, at, SizeIn(h));
      StandingSame(total, seen + [Frame(IndexIn(h), rest[..SizeIn(h)])], rest[SizeIn(h)..], src[next..], h);
    }
  }

  lemma StandingSame(total: Option<seq<Frame>>, seen: seq<Frame>, a: seq<Byte>, b: seq<Byte>, header: seq<Byte>)
    requires Standing(total, seen, a, header) && a == b
    ensures Standing(total, seen, b, header)
  {
  }

  lemma ScanEnds(total: Option<seq<Frame>>, seen: seq<Frame>, header: seq<Byte>)
    requires Standing(total, seen, [], header)
    ensures total == Some(seen)
  {
    assert seen + [] == seen;
  }

  lemma ScanStarts(src: seq<Byte>)
    ensures Standing(Scan(src, ZeroHeader()), [], src, ZeroHeader())
  {
    ThenThen([], [], Scan(src, ZeroHeader()));
  }

  method ReadLastPos(src: seq<Byte>, file: nat) returns (pos: Option<Position>)
    ensures pos == match Recover(src) case None => None case Some(index) => Some(Position(file, index))
  {
    var header := ZeroHeader();
    var at := 0;
    var index := 0;
    ghost var seen: seq<Frame> := [];
    ghost var total := Scan(src, header);
    ScanStarts(src);
    assert src[0..] == src;
    while at < |src|
      invariant 0 <= at <= |src| && index == LastIndex(seen) && |header| == HEADER_SIZE
      invariant Standing(total, seen, src[at..], header)
      decreases |src| - at
    {
      var h := ReadHeader(src[at..], header);
      var rest := AfterHeader(src[at..]);
      var size := SizeIn(h);
      var next := |src| - |rest| + size;
      FileTurn(total, seen, src, at, header, h, rest, next);
      if |rest| < size {
        return None;
      }
      seen := seen + [Frame(IndexIn(h), rest[..size])];
      header, at, index := h, next, IndexIn(h);
    }
    assert src[at..] == [];
    ScanEnds(total, seen, header);
    pos := Some(Position(file, index));
  }

  // ----- the scanner undoes the writer

  /** Payloads the length field can hold, at indices the position field can hold. */
  predicate Writable(first: nat, payloads: seq<seq<Byte>>) {
    first + |payloads| <= POSITION_LIMIT && forall i :: 0 <= i < |payloads| ==> |payloads[i]| < UINT32_LIMIT
  }

  function Frames(first: nat, payloads: seq<seq<Byte>>): (fs: seq<Frame>)
    ensures |fs| == |payloads| && forall i :: 0 <= i < |fs| ==> fs[i] == Frame(first + i, payloads[i])
  {
    seq(|payloads|, i requires 0 <= i < |payloads| => Frame(first + i, payloads[i]))
  }

  lemma HeaderReads(pos: Position, payload: seq<Byte>)
    requires |payload| < UINT32_LIMIT && pos.index < POSITION_LIMIT
    ensures SizeIn(Header(pos, payload)) == |payload| && IndexIn(Header(pos, payload)) == pos.index
  {
    var h := Header(pos, payload);
    Halves(Word(pos.file), Word(pos.index));
    assert h[8..16] == pos.ToBytes()[8..] == Word(pos.index);
    WordRoundTrip(pos.index);
    assert h[16..20] == Size(payload);
    SizeRoundTrip(payload);
  }

  function LastHeader(file: nat, first: nat, payloads: seq<seq<Byte>>, buffer: seq<Byte>): (h: seq<Byte>)
    requires |buffer| == HEADER_SIZE
    ensures |h| == HEADER_SIZE
  {
    if payloads == [] then buffer
    else Header(Position(file, first + |payloads| - 1), payloads[|payloads| - 1])
  }

  /** One turn of the scan, whatever the header and the payload are. */
  lemma ScanTurn(src: seq<Byte>, buffer: seq<Byte>, h: seq<Byte>, payload: seq<Byte>, tail: seq<Byte>)
    requires |buffer| == HEADER_SIZE && |h| == HEADER_SIZE && src != []
    requires ReadHeader(src, buffer) == h && AfterHeader(src) == payload + tail && SizeIn(h) == |payload|
    ensures Scan(src, buffer) == Then([Frame(IndexIn(h), payload)], Scan(tail, h))
  {
    assert (payload + tail)[..|payload|] == payload && (payload + tail)[|payload|..] == tail;
  }

  lemma AfterFullHeader(h: seq<Byte>, rest: seq<Byte>, buffer: seq<Byte>)
    requires |h| == HEADER_SIZE && |buffer| == HEADER_SIZE
    ensures ReadHeader(h + rest, buffer) == h && AfterHeader(h + rest) == rest
  {
  }

  lemma ScanOneRecord(file: nat, index: nat, payload: seq<Byte>, tail: seq<Byte>, buffer: seq<Byte>)
    requires |payload| < UINT32_LIMIT && index < POSITION_LIMIT && |buffer| == HEADER_SIZE
    ensures Scan(Record(Position(file, index), payload) + tail, buffer)
      == Then([Frame(index, payload)], Scan(tail, Header(Position(file, index), payload)))
  {
    var h := Header(Position(file, index), payload);
    HeaderReads(Position(file, index), payload);
    Associative(h, payload, tail);
    AfterFullHeader(h, payload + tail, buffer);
    ScanTurn(h + (payload + tail), buffer, h, payload, tail);
  }

  /** Putting one more record in front of a log already scanned. */
  lemma ScanCons(file: nat, index: nat, payload: seq<Byte>, rest: seq<Byte>, buffer: seq<Byte>,
                 frames: seq<Frame>, last: Option<seq<Frame>>)
    requires |payload| < UINT32_LIMIT && index < POSITION_LIMIT && |buffer| == HEADER_SIZE
    requires Scan(rest, Header(Position(file, index), payload)) == Then(frames, last)
    ensures Scan(Record(Position(file, index), payload) + rest, buffer) == Then([Frame(index, payload)] + frames, last)
  {
    ScanOneRecord(file, index, payload, rest, buffer);
    ThenThen([Frame(index, payload)], frames, last);
  }

  lemma ConsFacts(file: nat, first: nat, payloads: seq<seq<Byte>>, buffer: seq<Byte>)
    requires Writable(first, payloads) && |buffer| == HEADER_SIZE && payloads != []
    ensures Writable(first + 1, payloads[1..]) && |payloads[0]| < UINT32_LIMIT
    ensures [Frame(first, payloads[0])] + Frames(first + 1, payloads[1..]) == Frames(first, payloads)
    ensures LastHeader(file, first + 1, payloads[1..], Header(Position(file, first), payloads[0]))
      == LastHeader(file, first, payloads, buffer)
  {
    FramesCons(first, payloads);
    LastHeaderCons(file, first, payloads, buffer);
  }

  lemma FramesCons(first: nat, payloads: seq<seq<Byte>>)
    requires payloads != []
    ensures [Frame(first, payloads[0])] + Frames(first + 1, payloads[1..]) == Frames(first, payloads)
  {
  }

  lemma LastHeaderCons(file: nat, first: nat, payloads: seq<seq<Byte>>, buffer: seq<Byte>)
    requires |buffer| == HEADER_SIZE && payloads != []
    ensures LastHeader(file, first + 1, payloads[1..], Header(Position(file, first), payloads[0]))
      == LastHeader(file, first, payloads, buffer)
  {
    if |payloads| > 1 {
      assert payloads[1..][|payloads| - 2] == payloads[|payloads| - 1];
    }
  }

  lemma LogFirst(file: nat, first: nat, payloads: seq<seq<Byte>>, tail: seq<Byte>)
    requires payloads != []
    ensures Log(file, first, payloads) + tail
      == Record(Position(file, first), payloads[0]) + (Log(file, first + 1, payloads[1..]) + tail)
  {
    Associative(Record(Position(file, first), payloads[0]), Log(file, first + 1, payloads[1..]), tail);
  }

  lemma ScanNothing(file: nat, first: nat, tail: seq<Byte>, buffer: seq<Byte>)
    requires |buffer| == HEADER_SIZE
    ensures Scan(Log(file, first, []) + tail, buffer) == Then(Frames(first, []), Scan(tail, buffer))
  {
    assert Log(file, first, []) + tail == tail && Frames(first, []) == [];
    ThenThen([], [], Scan(tail, buffer));
  }

  /** Whole records are visited one by one, whatever their bytes, and then the scan goes on with what follows. */
  lemma {:induction false} ScanPrefix(file: nat, first: nat, payloads: seq<seq<Byte>>, tail: seq<Byte>, buffer: seq<Byte>)
    requires Writable(first, payloads) && |buffer| == HEADER_SIZE
    ensures Scan(Log(file, first, payloads) + tail, buffer)
      == Then(Frames(first, payloads), Scan(tail, LastHeader(file, first, payloads, buffer)))
    decreases |payloads|
  {
    if payloads == [] {
      ScanNothing(file, first, tail, buffer);
    } else {
      var more := payloads[1..];
      var h := Header(Position(file, first), payloads[0]);
      var last := Scan(tail, LastHeader(file, first, payloads, buffer));
      ConsFacts(file, first, payloads, buffer);
      ScanPrefix(file, first + 1, more, tail, h);
      ScanCons(file, first, payloads[0], Log(file, first + 1, more) + tail, buffer, Frames(first + 1, more), last);
      LogFirst(file, first, payloads, tail);
    }
  }

  /** The scanner is the inverse of the writer. */
  lemma ScanUndoesLog(file: nat, first: nat, payloads: seq<seq<Byte>>)
    requires Writable(first, payloads)
    ensures Scan(Log(file, first, payloads), ZeroHeader()) == Some(Frames(first, payloads))
  {
    ScanPrefix(file, first, payloads, [], ZeroHeader());
    assert Log(file, first, payloads) + [] == Log(file, first, payloads);
    assert Frames(first, payloads) + [] == Frames(first, payloads);
  }

  lemma RecoverLast(file: nat, payloads: seq<seq<Byte>>)
    requires Writable(1, payloads)
    ensures Recover(Log(file, 1, payloads)) == Some(|payloads|)
  {
    ScanUndoesLog(file, 1, payloads);
  }

  // ----- the writer

  /** What Write hands to the queue: the whole record with the position still zero. */
  function Prepared(payload: seq<Byte>): (bs: seq<Byte>)
    ensures |bs| == HEADER_SIZE + |payload|
  {
    ZERO_8 + ZERO_8 + HeaderTail(payload) + payload
  }

  method CopyInto(buf: array<Byte>, at: nat, src: seq<Byte>)
    requires at + |src| <= buf.Length
    modifies buf
    ensures buf[..] == Over(old(buf[..]), at, src)
  {
    for i := 0 to |src|
      invariant buf[..at] == old(buf[..at]) && buf[at + i..] == old(buf[at + i..])
      invariant buf[at..at + i] == src[..i]
    {
      buf[at + i] := src[i];
      assert src[..i + 1] == src[..i] + [src[i]];
    }
    assert buf[..] == buf[..at] + buf[at..at + |src|] + buf[at + |src|..];
    assert src[..|src|] == src;
  }

  method PrepareWriteEntry(data: seq<Byte>) returns (newBuf: array<Byte>)
    ensures fresh(newBuf) && newBuf[..] == Prepared(data)
  {
    newBuf := new Byte[|data| + HEADER_SIZE](_ => 0);
    ghost var zeros := newBuf[..];
    CopyInto(newBuf, 16, Size(data));
    CopyInto(newBuf, 20, BigEndian(Checksum(data), 4));
    CopyInto(newBuf, HEADER_SIZE, data);
    FillRecord(zeros, Size(data), BigEndian(Checksum(data), 4), data);
  }

  /** bytes with src written over the part from at on. */
  function Over(bytes: seq<Byte>, at: nat, src: seq<Byte>): (r: seq<Byte>)
    requires at + |src| <= |bytes|
    ensures |r| == |bytes|
  {
    bytes[..at] + src + bytes[at + |src|..]
  }

  /** Writing size, checksum and payload over a zero buffer gives the prepared record. */
  lemma FillRecord(zeros: seq<Byte>, size: seq<Byte>, sum: seq<Byte>, data: seq<Byte>)
    requires |zeros| == HEADER_SIZE + |data| && |size| == 4 && |sum| == 4
    requires forall i :: 0 <= i < |zeros| ==> zeros[i] == 0
    ensures Over(Over(Over(zeros, 16, size), 20, sum), HEADER_SIZE, data) == ZERO_8 + ZERO_8 + (size + sum + ZERO_8) + data
  {
    var s1 := Over(zeros, 16, size);
    assert s1[..16] == ZERO_8 + ZERO_8 && s1[16..20] == size && s1[24..32] == ZERO_8;
    var s2 := Over(s1, 20, sum);
    assert s2[..16] == s1[..16] && s2[16..20] == size && s2[20..24] == sum && s2[24..32] == ZERO_8;
    assert s2[..HEADER_SIZE] == s2[..16] + s2[16..20] + s2[20..24] + s2[24..32];
  }

  /** Writing the position over a prepared record gives the record. */
  lemma NumberedRecord(pos: Position, payload: seq<Byte>)
    ensures Over(Prepared(payload), 0, pos.ToBytes()) == Record(pos, payload)
  {
    PositionOver(pos.ToBytes(), HeaderTail(payload), payload);
  }

  lemma PositionOver(pos: seq<Byte>, tail: seq<Byte>, payload: seq<Byte>)
    requires |pos| == |tail| == 16
    ensures Over(ZERO_8 + ZERO_8 + tail + payload, 0, pos) == pos + tail + payload
  {
    assert (ZERO_8 + ZERO_8 + tail + payload)[16..] == tail + payload;
  }

  datatype WriteResult = Written(pos: Position) | WriteError

  /** The log of one process lifetime over a disk that outlives it. stored lists the payloads on disk. */
  class WriteAheadLog {
    var disk: seq<Byte>
    var currentPosition: Position
    var writeQueue: seq<array<Byte>>
    ghost var queued: seq<seq<Byte>>
    ghost var stored: seq<seq<Byte>>

    ghost predicate OnDisk()
      reads this
    {
      disk == Log(1, 1, stored) && Writable(1, stored)
    }

    ghost predicate QueueOk()
      reads this, set b | b in writeQueue
    {
      && |queued| == |writeQueue|
      && (forall i, j :: 0 <= i < j < |writeQueue| ==> writeQueue[i] != writeQueue[j])
      && (forall i :: 0 <= i < |writeQueue| ==> writeQueue[i][..] == Prepared(queued[i]) && |queued[i]| < UINT32_LIMIT)
    }

    ghost predicate Valid()
      reads this, set b | b in writeQueue
    {
      OnDisk() && QueueOk() && currentPosition == Position(1, |stored|)
    }

    /** NewWal over a disk left by an earlier process: the position is not known yet. */
    constructor (disk0: seq<Byte>, ghost stored0: seq<seq<Byte>>)
      requires disk0 == Log(1, 1, stored0) && Writable(1, stored0)
      ensures OnDisk() && QueueOk() && stored == stored0 && disk == disk0 && writeQueue == [] && queued == []
    {
      disk := disk0;
      currentPosition := Position(1, 0);
      writeQueue := [];
      queued := [];
      stored := stored0;
    }

    /** Startup recovers exactly the index of the last record on disk. */
    method Startup() returns (ok: bool)
      requires OnDisk() && writeQueue == [] && queued == []
      modifies this`currentPosition
      ensures ok && Valid()
    {
      RecoverLast(1, stored);
      var pos := ReadLastPos(disk, 1);
      if pos == None {
        return false;
      }
      currentPosition := pos.value;
      ok := true;
    }

    /** The sending half of Write. */
    method Submit(data: seq<Byte>)
      requires Valid() && |data| < UINT32_LIMIT
      modifies this`writeQueue, this`queued
      ensures Valid() && queued == old(queued) + [data]
      ensures forall b :: b in writeQueue ==> b in old(writeQueue) || fresh(b)
    {
      var buf := PrepareWriteEntry(data);
      writeQueue := writeQueue + [buf];
      queued := queued + [data];
    }

    method SubmitAll(writes: seq<seq<Byte>>)
      requires Valid() && queued == [] && forall i :: 0 <= i < |writes| ==> |writes[i]| < UINT32_LIMIT
      modifies this`writeQueue, this`queued
      ensures Valid() && queued == writes && forall b :: b in writeQueue ==> fresh(b)
    {
      for i := 0 to |writes|
        invariant Valid() && queued == writes[..i]
        invariant forall b :: b in writeQueue ==> fresh(b)
      {
        Submit(writes[i]);
        assert writes[..i + 1] == writes[..i] + [writes[i]];
      }
      assert writes[..|writes|] == writes;
    }

    /** doWrite: number the record, append it, and only then move the position. A failed write leaves no bytes. */
    method DoWrite(data: array<Byte>, ghost payload: seq<Byte>, writeOk: bool) returns (res: WriteResult)
      requires OnDisk() && currentPosition == Position(1, |stored|)
      requires data[..] == Prepared(payload) && |payload| < UINT32_LIMIT && |stored| + 2 <= POSITION_LIMIT
      modifies data, this`disk, this`currentPosition, this`stored
      ensures OnDisk() && currentPosition == Position(1, |stored|)
      ensures if writeOk then res == Written(Position(1, |stored|)) && stored == old(stored) + [payload]
        else res == WriteError && stored == old(stored) && disk == old(disk)
    {
      var newPos := Position(currentPosition.file, currentPosition.index + 1);
      CopyInto(data, 0, newPos.ToBytes());
      NumberedRecord(newPos, payload);
      if !writeOk {
        return WriteError;
      }
      LogAppend(1, 1, stored, payload);
      disk := disk + data[..];
      stored := stored + [payload];
      currentPosition := newPos;
      res := Written(newPos);
    }

    /** The write loop over everything queued, in order. oks says which file writes succeed. */
    method WriteLoop(oks: seq<bool>) returns (results: seq<WriteResult>)
      requires Valid() && |oks| == |writeQueue| && |stored| + |writeQueue| + 1 <= POSITION_LIMIT
      modifies this, set b | b in writeQueue
      ensures Valid() && writeQueue == [] && old(stored) <= stored && |results| == |oks|
      ensures forall i :: 0 <= i < |oks| ==> Answered(oks[i], results[i], old(queued)[i], stored)
      ensures Indices(results) == Consecutive(|old(stored)|, |stored| - |old(stored)|)
      ensures |stored| <= |old(stored)| + |oks|
    {
      results := [];
      ghost var all := queued;
      ghost var before := stored;
      ServingStarts(before, all, oks);
      while writeQueue != []
        invariant Valid() && |results| + |writeQueue| == |oks|
        invariant forall b :: b in writeQueue ==> b in old(writeQueue)
        invariant Serving(before, stored, all, oks, results, queued)
        decreases |writeQueue|
      {
        ghost var was, waiting := stored, queued;
        var res := Next(oks[|results|]);
        ServingStep(before, was, stored, all, oks, results, waiting, res);
        results := results + [res];
      }
      ServingEnds(before, stored, all, oks, results, queued);
    }

    /** One turn of the loop: take the oldest request and write it. */
    method Next(writeOk: bool) returns (res: WriteResult)
      requires Valid() && writeQueue != [] && |stored| + 2 <= POSITION_LIMIT
      modifies this, writeQueue[0]
      ensures Valid() && writeQueue == old(writeQueue)[1..] && queued == old(queued)[1..]
      ensures if writeOk then res == Written(Position(1, |stored|)) && stored == old(stored) + [old(queued)[0]]
        else res == WriteError && stored == old(stored)
    {
      var req := writeQueue[0];
      ghost var payload := queued[0];
      res := DoWrite(req, payload, writeOk);
      writeQueue := writeQueue[1..];
      queued := queued[1..];
    }
  }

  /** The caller of a successful write holds the index of its own record; a failed one holds an error. */
  predicate Answered(writeOk: bool, res: WriteResult, payload: seq<Byte>, stored: seq<seq<Byte>>) {
    if writeOk then
      res.Written? && res.pos.file == 1 && 1 <= res.pos.index <= |stored| && stored[res.pos.index - 1] == payload
    else res == WriteError
  }

  /** What the loop has done so far: from `before` to `stored`, answering the first requests. */
  predicate Progress(before: seq<seq<Byte>>, stored: seq<seq<Byte>>, payloads: seq<seq<Byte>>, oks: seq<bool>,
                     results: seq<WriteResult>) {
    && |results| == |oks| == |payloads|
    && before <= stored && |stored| <= |before| + |results|
    && (forall i :: 0 <= i < |results| ==> Answered(oks[i], results[i], payloads[i], stored))
    && Indices(results) == Consecutive(|before|, |stored| - |before|)
  }

  lemma ProgressStep(before: seq<seq<Byte>>, was: seq<seq<Byte>>, now: seq<seq<Byte>>, payloads: seq<seq<Byte>>,
                     oks: seq<bool>, results: seq<WriteResult>, payload: seq<Byte>, writeOk: bool, res: WriteResult)
    requires Progress(before, was, payloads, oks, results)
    requires if writeOk then res == Written(Position(1, |now|)) && now == was + [payload]
      else res == WriteError && now == was
    ensures Progress(before, now, payloads + [payload], oks + [writeOk], results + [res])
  {
    IndicesAppend(results, res);
  }

  /** The loop has answered the first requests of all; the others wait. */
  predicate Serving(before: seq<seq<Byte>>, stored: seq<seq<Byte>>, all: seq<seq<Byte>>, oks: seq<bool>,
                    results: seq<WriteResult>, waiting: seq<seq<Byte>>) {
    && |results| <= |oks| == |all| && waiting == all[|results|..]
    && Progress(before, stored, all[..|results|], oks[..|results|], results)
  }

  lemma ServingStarts(before: seq<seq<Byte>>, all: seq<seq<Byte>>, oks: seq<bool>)
    requires |oks| == |all|
    ensures Serving(before, before, all, oks, [], all)
  {
  }

  lemma ServingStep(before: seq<seq<Byte>>, was: seq<seq<Byte>>, now: seq<seq<Byte>>, all: seq<seq<Byte>>,
                    oks: seq<bool>, results: seq<WriteResult>, waiting: seq<seq<Byte>>, res: WriteResult)
    requires Serving(before, was, all, oks, results, waiting) && waiting != []
    requires if oks[|results|] then res == Written(Position(1, |now|)) && now == was + [waiting[0]]
      else res == WriteError && now == was
    ensures Serving(before, now, all, oks, results + [res], waiting[1..])
  {
    var i := |results|;
    ProgressStep(before, was, now, all[..i], oks[..i], results, all[i], oks[i], res);
    SliceGrows(all, i);
    SliceGrows(oks, i);
  }

  lemma ServingEnds(before: seq<seq<Byte>>, stored: seq<seq<Byte>>, all: seq<seq<Byte>>, oks: seq<bool>,
                    results: seq<WriteResult>, waiting: seq<seq<Byte>>)
    requires Serving(before, stored, all, oks, results, waiting) && |results| == |oks|
    ensures Progress(before, stored, all, oks, results)
  {
    assert all[..|oks|] == all && oks[..|oks|] == oks;
  }

  /** The indices handed out, in order. */
  function Indices(results: seq<WriteResult>): seq<nat> {
    if results == [] then []
    else
      var rest := Indices(results[..|results| - 1]);
      var last := results[|results| - 1];
      if last.Written? then rest + [last.pos.index] else rest
  }

  function Consecutive(n: nat, k: nat): (s: seq<nat>)
    ensures |s| == k && forall i :: 0 <= i < k ==> s[i] == n + 1 + i
  {
    seq(k, i => n + 1 + i)
  }

  lemma SliceGrows<T>(s: seq<T>, i: nat)
    requires i < |s|
    ensures s[..i + 1] == s[..i] + [s[i]] && s[i..][0] == s[i] && s[i..][1..] == s[i + 1..]
  {
  }

  lemma ConsecutiveAppend(n: nat, k: nat)
    ensures Consecutive(0, n) + Consecutive(n, k) == Consecutive(0, n + k)
  {
  }

  lemma IndicesAppend(results: seq<WriteResult>, res: WriteResult)
    ensures Indices(results + [res]) == if res.Written? then Indices(results) + [res.pos.index] else Indices(results)
  {
    assert (results + [res])[..|results|] == results;
  }

  // ----- restarts

  /** The writes one process lifetime manages to serve, and which of them the disk accepts. */
  datatype Session = Session(writes: seq<seq<Byte>>, oks: seq<bool>)

  function Total(sessions: seq<Session>): nat {
    if sessions == [] then 0 else Total(sessions[..|sessions| - 1]) + |sessions[|sessions| - 1].writes|
  }

  method RunSession(disk: seq<Byte>, ghost stored: seq<seq<Byte>>, session: Session)
    returns (results: seq<WriteResult>, disk': seq<Byte>, ghost stored': seq<seq<Byte>>)
    requires disk == Log(1, 1, stored) && Writable(1, stored)
    requires |session.oks| == |session.writes| && |stored| + |session.writes| + 1 <= POSITION_LIMIT
    requires forall i :: 0 <= i < |session.writes| ==> |session.writes[i]| < UINT32_LIMIT
    ensures disk' == Log(1, 1, stored') && Writable(1, stored') && stored <= stored'
    ensures |results| == |session.writes| && |stored'| <= |stored| + |session.writes|
    ensures SessionAnswered(session, results, stored')
    ensures Indices(results) == Consecutive(|stored|, |stored'| - |stored|)
  {
    var wal := new WriteAheadLog(disk, stored);
    var ok := wal.Startup();
    assert ok;
    wal.SubmitAll(session.writes);
    results := wal.WriteLoop(session.oks);
    disk', stored' := wal.disk, wal.stored;
  }

  /** The positions handed out over several lifetimes, in order. */
  function Handed(answers: seq<seq<WriteResult>>): seq<nat> {
    if answers == [] then [] else Handed(answers[..|answers| - 1]) + Indices(answers[|answers| - 1])
  }

  /** Every write of a session is answered by the log as it is now. */
  predicate SessionAnswered(session: Session, answers: seq<WriteResult>, stored: seq<seq<Byte>>) {
    && |answers| == |session.writes| == |session.oks|
    && forall i :: 0 <= i < |answers| ==> Answered(session.oks[i], answers[i], session.writes[i], stored)
  }

  lemma AnsweredStays(session: Session, answers: seq<WriteResult>, was: seq<seq<Byte>>, now: seq<seq<Byte>>)
    requires SessionAnswered(session, answers, was) && was <= now
    ensures SessionAnswered(session, answers, now)
  {
  }

  lemma HandedAppend(answers: seq<seq<WriteResult>>, results: seq<WriteResult>)
    ensures Handed(answers + [results]) == Handed(answers) + Indices(results)
  {
    assert (answers + [results])[..|answers|] == answers;
  }

  /** Any number of lifetimes over one log file: every write of every lifetime holds the index of its own record in
      the final log, the positions handed out are 1, 2, 3, ... across all restarts, and the next startup recovers
      exactly the last of them. */
  method Lifetimes(sessions: seq<Session>)
    returns (answers: seq<seq<WriteResult>>, disk: seq<Byte>, ghost stored: seq<seq<Byte>>)
    requires Total(sessions) + 1 <= POSITION_LIMIT
    requires forall s :: 0 <= s < |sessions| ==> |sessions[s].oks| == |sessions[s].writes|
    requires forall s, i :: 0 <= s < |sessions| && 0 <= i < |sessions[s].writes| ==> |sessions[s].writes[i]| < UINT32_LIMIT
    ensures |answers| == |sessions| && disk == Log(1, 1, stored)
    ensures forall s :: 0 <= s < |sessions| ==> SessionAnswered(sessions[s], answers[s], stored)
    ensures Handed(answers) == Consecutive(0, |stored|)
    ensures Recover(disk) == Some(|Handed(answers)|)
  {
    answers, disk, stored := [], [], [];
    for s := 0 to |sessions|
      invariant disk == Log(1, 1, stored) && Writable(1, stored) && |stored| <= Total(sessions[..s])
      invariant Served(sessions[..s], answers, stored)
    {
      TotalGrows(sessions, s);
      SliceGrows(sessions, s);
      assert sessions[..s + 1][..s] == sessions[..s];
      ghost var before := stored;
      var results;
      results, disk, stored := RunSession(disk, stored, sessions[s]);
      ServedStep(sessions[..s], answers, before, sessions[s], results, stored);
      answers := answers + [results];
    }
    assert sessions[..|sessions|] == sessions;
    RecoverLast(1, stored);
  }

  /** The answers of some lifetimes, next to the records on disk after them. */
  predicate Served(sessions: seq<Session>, answers: seq<seq<WriteResult>>, stored: seq<seq<Byte>>) {
    && |answers| == |sessions| && Handed(answers) == Consecutive(0, |stored|)
    && forall s :: 0 <= s < |sessions| ==> SessionAnswered(sessions[s], answers[s], stored)
  }

  lemma ServedStep(sessions: seq<Session>, answers: seq<seq<WriteResult>>, was: seq<seq<Byte>>, session: Session,
                   results: seq<WriteResult>, now: seq<seq<Byte>>)
    requires Served(sessions, answers, was) && was <= now && SessionAnswered(session, results, now)
    requires Indices(results) == Consecutive(|was|, |now| - |was|)
    ensures Served(sessions + [session], answers + [results], now)
  {
    HandedAppend(answers, results);
    ConsecutiveAppend(|was|, |now| - |was|);
    forall s | 0 <= s < |sessions| ensures SessionAnswered(sessions[s], answers[s], now) {
      AnsweredStays(sessions[s], answers[s], was, now);
    }
  }

  lemma {:induction false} TotalGrows(sessions: seq<Session>, s: nat)
    requires s < |sessions|
    ensures Total(sessions[..s]) + |sessions[s].writes| <= Total(sessions)
  {
    var n := |sessions| - 1;
    if s < n {
      TotalGrows(sessions[..n], s);
      assert sessions[..n][..s] == sessions[..s];
    }
  }
}
