/** What the recovery of db/alpha/replication/wal.go makes of a log file that was cut anywhere. */
module WalCut {
  import opened Wrappers
  import opened Bytes
  import opened Wal

  /** The first k records and r bytes of the next one. */
  function Cut(file: nat, payloads: seq<seq<Byte>>, k: nat, r: nat): seq<Byte>
    requires k < |payloads| && r <= HEADER_SIZE + |payloads[k]|
  {
    Log(file, 1, payloads[..k]) + Record(Position(file, 1 + k), payloads[k])[..r]
  }

  /** The header buffer after a cut inside the header: new bytes over those of the record before. */
  function TornHeader(file: nat, payloads: seq<seq<Byte>>, k: nat, r: nat): seq<Byte>
    requires k < |payloads| && r <= HEADER_SIZE
  {
    Header(Position(file, 1 + k), payloads[k])[..r] + LastHeader(file, 1, payloads[..k], ZeroHeader())[r..]
  }

  /** At a record boundary a cut log opens; inside a payload it never does; inside a header it opens when the mixed header
      shows size zero, with the index it shows. */
  lemma CutScans(file: nat, payloads: seq<seq<Byte>>, k: nat, r: nat)
    requires Writable(1, payloads) && k < |payloads| && r < HEADER_SIZE + |payloads[k]|
    ensures Recover(Cut(file, payloads, k, r)) ==
      if r == 0 then Some(k)
      else if r < HEADER_SIZE && SizeIn(TornHeader(file, payloads, k, r)) == 0 then
        Some(IndexIn(TornHeader(file, payloads, k, r)))
      else None
  {
    var pos := Position(file, 1 + k);
    var tail := Record(pos, payloads[k])[..r];
    var buffer := LastHeader(file, 1, payloads[..k], ZeroHeader());
    ScanPrefix(file, 1, payloads[..k], tail, ZeroHeader());
    if r == 0 {
      assert Frames(1, payloads[..k]) + [] == Frames(1, payloads[..k]);
    } else if r < HEADER_SIZE {
      assert tail == Header(pos, payloads[k])[..r];
      assert ReadHeader(tail, buffer) == TornHeader(file, payloads, k, r);
      assert Scan([], TornHeader(file, payloads, k, r)) == Some([]);
    } else {
      HeaderReads(pos, payloads[k]);
      assert ReadHeader(tail, buffer) == Header(pos, payloads[k]);
      assert |AfterHeader(tail)| == r - HEADER_SIZE < |payloads[k]|;
    }
  }

  // ----- big-endian numbers spliced together

  /** Quotient and remainder one byte further up. */
  lemma DivModByte(n: nat, p: nat)
    requires p >= 1
    ensures n / (256 * p) == n / 256 / p && n % (256 * p) == 256 * (n / 256 % p) + n % 256
  {
    var q, s := n / 256 / p, n / 256 % p;
    assert n / 256 == q * p + s;
    assert n == 256 * (q * p + s) + n % 256;
    assert 256 * (q * p) == q * (256 * p);
    DivMod(q, 256 * s + n % 256, 256 * p);
  }

  /** The first bytes of one number before the last bytes of another. */
  function Splice(a: seq<Byte>, b: seq<Byte>, first: nat): (bs: seq<Byte>)
    requires |a| == |b| && first <= |a|
    ensures |bs| == |a|
  {
    a[..first] + b[first..]
  }

  lemma SpliceLast(n: nat, m: nat, first: nat, len: nat)
    requires first < len
    ensures Splice(BigEndian(n, len), BigEndian(m, len), first)
      == Splice(BigEndian(n / 256, len - 1), BigEndian(m / 256, len - 1), first) + [m % 256]
  {
  }

  lemma ValueOfLast(bs: seq<Byte>, b: Byte)
    ensures Value(bs + [b]) == Value(bs) * 256 + b
  {
    assert (bs + [b])[..|bs|] == bs;
  }

  lemma SpliceSum(n: nat, m: nat, p: nat, v: nat)
    requires p >= 1 && v == n / 256 / p * p + m / 256 % p
    ensures v * 256 + m % 256 == n / (256 * p) * (256 * p) + m % (256 * p)
  {
    DivModByte(n, p);
    DivModByte(m, p);
    ScaleByte(n / 256 / p, p);
  }

  lemma WholeSplice(n: nat, m: nat, len: nat)
    requires n < Pow256(len)
    ensures Value(Splice(BigEndian(n, len), BigEndian(m, len), len)) == n
  {
    ValueOfBigEndian(n, len);
    assert Splice(BigEndian(n, len), BigEndian(m, len), len) == BigEndian(n, len);
  }

  lemma LongerSplice(n: nat, m: nat, first: nat, len: nat, p: nat, q: nat)
    requires first < len && p >= 1 && q == 256 * p
    requires Value(Splice(BigEndian(n / 256, len - 1), BigEndian(m / 256, len - 1), first)) == n / 256 / p * p + m / 256 % p
    ensures Value(Splice(BigEndian(n, len), BigEndian(m, len), first)) == n / q * q + m % q
  {
    var shorter := Splice(BigEndian(n / 256, len - 1), BigEndian(m / 256, len - 1), first);
    SpliceLast(n, m, first, len);
    ValueOfLast(shorter, m % 256);
    SpliceSum(n, m, p, Value(shorter));
  }

  /** It is the one number above, the other below the cut. */
  lemma {:induction false} SpliceValue(n: nat, m: nat, first: nat, len: nat, p: nat)
    requires first <= len && n < Pow256(len) && p == Pow256(len - first)
    ensures Value(Splice(BigEndian(n, len), BigEndian(m, len), first)) == n / p * p + m % p
    decreases len
  {
    if first == len {
      WholeSplice(n, m, len);
    } else {
      var shorter := Pow256(len - 1 - first);
      assert p == 256 * shorter && n / 256 < Pow256(len - 1);
      SpliceValue(n / 256, m / 256, first, len - 1, shorter);
      LongerSplice(n, m, first, len, shorter, p);
    }
  }

  // ----- the mixed header

  /** The size field of the header left in the buffer by the records before the cut: the zero buffer's at first. */
  function SizeBefore(payloads: seq<seq<Byte>>, k: nat): nat
    requires k <= |payloads|
  {
    if k == 0 then 0 else |payloads[k - 1]|
  }

  /** How many bytes of the size field a cut after r bytes leaves to the record before. */
  function SizeLeft(r: nat): nat {
    if r <= 16 then 4 else if r < 20 then 20 - r else 0
  }

  /** The same for the index field. */
  function IndexLeft(r: nat): nat {
    if r <= 8 then 8 else if r < 16 then 16 - r else 0
  }

  lemma BigEndianOfMod(n: nat, limit: nat, len: nat)
    requires n < limit
    ensures BigEndian(n % limit, len) == BigEndian(n, len)
  {
    var m := n % limit;
    assert m == n;
  }

  lemma HeaderFields(pos: Position, payload: seq<Byte>)
    ensures Header(pos, payload)[8..16] == Word(pos.index) && Header(pos, payload)[16..20] == Size(payload)
  {
    Halves(Word(pos.file), Word(pos.index));
    assert Header(pos, payload)[8..16] == pos.ToBytes()[8..];
  }

  lemma HeaderParts(pos: Position, payload: seq<Byte>)
    requires pos.index < POSITION_LIMIT && |payload| < UINT32_LIMIT
    ensures Header(pos, payload)[8..16] == BigEndian(pos.index, 8)
    ensures Header(pos, payload)[16..20] == BigEndian(|payload|, 4)
  {
    HeaderFields(pos, payload);
    BigEndianOfMod(pos.index, POSITION_LIMIT, 8);
    BigEndianOfMod(|payload|, UINT32_LIMIT, 4);
  }

  lemma {:induction false} ZeroFields(h: seq<Byte>, at: nat, len: nat)
    requires at + len <= |h| && forall i :: 0 <= i < |h| ==> h[i] == 0
    ensures h[at..at + len] == BigEndian(0, len)
  {
    if len > 0 {
      ZeroFields(h, at, len - 1);
    }
  }

  lemma ZeroHeaderFields()
    ensures ZeroHeader()[8..16] == BigEndian(0, 8) && ZeroHeader()[16..20] == BigEndian(0, 4)
  {
    ZeroFields(ZeroHeader(), 8, 8);
    ZeroFields(ZeroHeader(), 16, 4);
  }

  lemma HeaderBefore(file: nat, payloads: seq<seq<Byte>>, k: nat)
    requires k < |payloads|
    ensures LastHeader(file, 1, payloads[..k], ZeroHeader())
      == if k == 0 then ZeroHeader() else Header(Position(file, k), payloads[k - 1])
  {
  }

  /** Index and size in the buffer the scanner comes to a cut with. */
  lemma BufferBefore(file: nat, payloads: seq<seq<Byte>>, k: nat)
    requires Writable(1, payloads) && k < |payloads|
    ensures var h := LastHeader(file, 1, payloads[..k], ZeroHeader());
      h[8..16] == BigEndian(k, 8) && h[16..20] == BigEndian(SizeBefore(payloads, k), 4)
  {
    HeaderBefore(file, payloads, k);
    if k == 0 {
      ZeroHeaderFields();
    } else {
      HeaderParts(Position(file, k), payloads[k - 1]);
    }
  }

  /** A part of a splice is the parts spliced. */
  lemma SpliceSlice(a: seq<Byte>, b: seq<Byte>, r: nat, lo: nat, hi: nat, first: nat)
    requires |a| == |b| && r <= |a| && lo <= hi <= |a|
    requires first == if r <= lo then 0 else if r < hi then r - lo else hi - lo
    ensures Splice(a, b, r)[lo..hi] == Splice(a[lo..hi], b[lo..hi], first)
  {
    var whole, part := Splice(a, b, r)[lo..hi], Splice(a[lo..hi], b[lo..hi], first);
    forall i | 0 <= i < hi - lo ensures whole[i] == part[i] {
      assert whole[i] == if lo + i < r then a[lo + i] else b[lo + i];
    }
    assert whole == part;
  }

  /** A field of a spliced header is the fields spliced. */
  lemma SpliceFields(a: seq<Byte>, b: seq<Byte>, r: nat)
    requires |a| == |b| == HEADER_SIZE && r <= HEADER_SIZE
    ensures Splice(a, b, r)[8..16] == Splice(a[8..16], b[8..16], 8 - IndexLeft(r))
    ensures Splice(a, b, r)[16..20] == Splice(a[16..20], b[16..20], 4 - SizeLeft(r))
  {
    SpliceSlice(a, b, r, 8, 16, 8 - IndexLeft(r));
    SpliceSlice(a, b, r, 16, 20, 4 - SizeLeft(r));
  }

  /** What the mixed header shows: the new number above the cut, the old one below it. */
  lemma TornReads(file: nat, payloads: seq<seq<Byte>>, k: nat, r: nat)
    requires Writable(1, payloads) && k < |payloads| && r <= HEADER_SIZE
    ensures var h := TornHeader(file, payloads, k, r);
      var p := Pow256(IndexLeft(r));
      var q := Pow256(SizeLeft(r));
      && Value(h[8..16]) == (k + 1) / p * p + k % p
      && SizeIn(h) == |payloads[k]| / q * q + SizeBefore(payloads, k) % q
  {
    var a := Header(Position(file, 1 + k), payloads[k]);
    var b := LastHeader(file, 1, payloads[..k], ZeroHeader());
    BufferBefore(file, payloads, k);
    HeaderParts(Position(file, 1 + k), payloads[k]);
    SpliceFields(a, b, r);
    Pow256At8();
    Pow256At4();
    SpliceValue(k + 1, k, 8 - IndexLeft(r), 8, Pow256(IndexLeft(r)));
    SpliceValue(|payloads[k]|, SizeBefore(payloads, k), 4 - SizeLeft(r), 4, Pow256(SizeLeft(r)));
  }

  /** The number after n over n: n itself, but a whole step up where the low part of the next number is zero. */
  lemma NextOverThis(n: nat, p: nat)
    requires p >= 1
    ensures (n + 1) / p * p + n % p == if (n + 1) % p == 0 then n + p else n
  {
    var q, s := n / p, n % p;
    assert n == q * p + s;
    if s + 1 < p {
      DivMod(q, s + 1, p);
    } else {
      assert n + 1 == (q + 1) * p;
      DivMod(q + 1, 0, p);
    }
  }

  lemma ZeroAbove(n: nat, m: nat, p: nat)
    requires p >= 1
    ensures n / p * p + m % p == 0 <==> n < p && m % p == 0
  {
    if n >= p {
      DivMod(n / p, n % p, p);
      AtLeastOnce(n / p, p);
    }
  }

  // ----- exactly what a cut log recovers

  /** A log cut inside a header opens when the new part of the size field and what is left of the old one are zero. */
  predicate Opens(payloads: seq<seq<Byte>>, k: nat, r: nat)
    requires k < |payloads|
  {
    |payloads[k]| < Pow256(SizeLeft(r)) && SizeBefore(payloads, k) % Pow256(SizeLeft(r)) == 0
  }

  /** Then it reports index k, but a whole step more when the bytes of the index k + 1 not yet written are zero. */
  function IndexFound(k: nat, r: nat): nat {
    if (k + 1) % Pow256(IndexLeft(r)) == 0 then k + Pow256(IndexLeft(r)) else k
  }

  lemma {:induction false} LimitSplits(left: nat) returns (q: nat)
    requires left <= 7
    ensures q * Pow256(left) == POSITION_LIMIT
    decreases 7 - left
  {
    if left == 7 {
      Pow256At8();
      q := 128;
    } else {
      var above := LimitSplits(left + 1);
      q := 256 * above;
      ScaleByte(above, Pow256(left));
    }
  }

  lemma ScaleOrder(a: int, b: int, p: nat)
    requires a <= b
    ensures a * p <= b * p
  {
    assert b * p == a * p + (b - a) * p;
  }

  lemma QuotientBelow(n: nat, p: nat, q: nat)
    requires p >= 1 && n < q * p
    ensures n / p < q
  {
    if q <= n / p {
      ScaleOrder(q, n / p, p);
    }
  }

  lemma BelowMultiple(n: nat, m: nat, p: nat, q: nat)
    requires p >= 1 && n < q * p
    ensures n / p * p + m % p < q * p
  {
    var d := n / p;
    QuotientBelow(n, p, q);
    ScaleOrder(d + 1, q, p);
    assert (d + 1) * p == d * p + p;
  }

  lemma BelowOne(n: nat, m: nat, p: nat)
    requires m <= n < p
    ensures n / p * p + m % p == m
  {
    assert n / p == 0 && m % p == m;
  }

  /** The index shown never reaches the sign bit. */
  lemma IndexFits(n: nat, left: nat)
    requires n + 1 < POSITION_LIMIT && left <= 8
    ensures var p := Pow256(left); (n + 1) / p * p + n % p < POSITION_LIMIT
  {
    if left == 8 {
      Pow256At8();
      BelowOne(n + 1, n, Pow256(8));
    } else {
      var q := LimitSplits(left);
      BelowMultiple(n + 1, n, Pow256(left), q);
    }
  }

  lemma IndexShown(h: seq<Byte>, n: nat, p: nat)
    requires |h| == HEADER_SIZE && p >= 1 && Value(h[8..16]) == (n + 1) / p * p + n % p < POSITION_LIMIT
    ensures IndexIn(h) == if (n + 1) % p == 0 then n + p else n
  {
    NextOverThis(n, p);
  }

  lemma TornShows(file: nat, payloads: seq<seq<Byte>>, k: nat, r: nat)
    requires Writable(1, payloads) && k < |payloads| && r <= HEADER_SIZE
    ensures SizeIn(TornHeader(file, payloads, k, r)) == 0 <==> Opens(payloads, k, r)
    ensures IndexIn(TornHeader(file, payloads, k, r)) == IndexFound(k, r)
  {
    TornReads(file, payloads, k, r);
    ZeroAbove(|payloads[k]|, SizeBefore(payloads, k), Pow256(SizeLeft(r)));
    IndexFits(k, IndexLeft(r));
    IndexShown(TornHeader(file, payloads, k, r), k, Pow256(IndexLeft(r)));
  }

  /** Exactly what recovery makes of a log cut anywhere: after whole records their number, inside a payload an error, and
      inside a header an error unless it opens, with the index found. */
  lemma CutLogOpensIff(file: nat, payloads: seq<seq<Byte>>, k: nat, r: nat)
    requires Writable(1, payloads) && k < |payloads| && r < HEADER_SIZE + |payloads[k]|
    ensures Recover(Cut(file, payloads, k, r)) ==
      if r == 0 then Some(k) else if r < HEADER_SIZE && Opens(payloads, k, r) then Some(IndexFound(k, r)) else None
  {
    CutScans(file, payloads, k, r);
    if r < HEADER_SIZE {
      TornShows(file, payloads, k, r);
    }
  }

  /** In plain terms: up to the end of the position it opens exactly behind a record without payload or none, from the end
      of the size on exactly when the record cut has no payload. Up to the middle of the position the index is right; after
      the position it is that of the record cut. */
  lemma OpensPlainly(payloads: seq<seq<Byte>>, k: nat, r: nat)
    requires Writable(1, payloads) && k < |payloads| && 0 < r < HEADER_SIZE
    ensures r <= 16 ==> (Opens(payloads, k, r) <==> k == 0 || payloads[k - 1] == [])
    ensures r >= 20 ==> (Opens(payloads, k, r) <==> payloads[k] == [])
    ensures r <= 8 ==> IndexFound(k, r) == k
    ensures r >= 16 ==> IndexFound(k, r) == k + 1
  {
    Pow256At4();
    Pow256At8();
  }

  /** Behind a record without payload, or none, a cut right after the position recovers the index of a record whose size
      and payload were never written. */
  lemma CutAfterPositionOpens(file: nat, payloads: seq<seq<Byte>>, k: nat)
    requires Writable(1, payloads) && k < |payloads| && (k == 0 || payloads[k - 1] == [])
    ensures Recover(Cut(file, payloads, k, 16)) == Some(k + 1)
  {
    CutLogOpensIff(file, payloads, k, 16);
    OpensPlainly(payloads, k, 16);
  }

  lemma PowOfOne()
    ensures Pow256(1) == 256
  {
    assert Pow256(0) == 1;
  }

  /** Cut one byte earlier it recovers the new index with the last byte of the one before. */
  lemma CutInsidePositionMixes(file: nat, payloads: seq<seq<Byte>>, k: nat)
    requires Writable(1, payloads) && k < |payloads| && (k == 0 || payloads[k - 1] == [])
    ensures Recover(Cut(file, payloads, k, 15)) == Some((k + 1) / 256 * 256 + k % 256)
  {
    CutLogOpensIff(file, payloads, k, 15);
    OpensPlainly(payloads, k, 15);
    NextOverThis(k, Pow256(IndexLeft(15)));
    PowOfOne();
  }

  /** So a log of 255 records without payload, cut inside the next header, recovers position 511, never written. */
  lemma RecoversUnwrittenPosition(file: nat)
    ensures var payloads := seq(256, _ => []);
      Recover(Cut(file, payloads, 255, 15)) == Some(511)
  {
    var payloads: seq<seq<Byte>> := seq(256, _ => []);
    assert Writable(1, payloads);
    CutInsidePositionMixes(file, payloads, 255);
  }
}
