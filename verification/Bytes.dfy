/** Bytes, big-endian numbers and hexadecimal text (section 8 of RFC 4648). */
module Bytes {
  import opened Wrappers
  import Order

  type Byte = x: int | 0 <= x < 256

  function Pow256(n: nat): (p: nat)
    ensures p >= 1
  {
    if n == 0 then 1 else 256 * Pow256(n - 1)
  }

  // ----- big-endian numbers

  /** The low len bytes of n, most significant first. */
  function BigEndian(n: nat, len: nat): (bs: seq<Byte>)
    ensures |bs| == len
  {
    if len == 0 then [] else BigEndian(n / 256, len - 1) + [n % 256]
  }

  function Value(bs: seq<Byte>): nat {
    if bs == [] then 0 else Value(bs[..|bs| - 1]) * 256 + bs[|bs| - 1]
  }

  lemma {:induction false} ValueBound(bs: seq<Byte>)
    ensures Value(bs) < Pow256(|bs|)
  {
    if bs != [] {
      ValueBound(bs[..|bs| - 1]);
    }
  }

  /** Reading back a number that fits. */
  lemma {:induction false} ValueOfBigEndian(n: nat, len: nat)
    requires n < Pow256(len)
    ensures Value(BigEndian(n, len)) == n
  {
    if len > 0 {
      ValueOfBigEndian(n / 256, len - 1);
      assert BigEndian(n, len)[..len - 1] == BigEndian(n / 256, len - 1);
    }
  }

  lemma Pow256At4()
    ensures Pow256(4) == 0x1_0000_0000
  {
    assert Pow256(1) == 256 && Pow256(2) == 65536 && Pow256(3) == 16777216;
  }

  lemma Pow256At8()
    ensures Pow256(8) == 0x1_0000_0000_0000_0000
  {
    Pow256At4();
    assert Pow256(5) == 256 * Pow256(4) && Pow256(6) == 256 * Pow256(5) && Pow256(7) == 256 * Pow256(6);
  }

  // ----- hexadecimal

  function HexDigit(d: int): (c: char)
    requires 0 <= d < 16
    ensures ('0' <= c <= '9') || ('a' <= c <= 'f')
  {
    if d < 10 then '0' + d as char else 'a' + (d - 10) as char
  }

  /** The decoder takes both cases. */
  function HexValue(c: char): (d: int)
    ensures -1 <= d < 16
  {
    if '0' <= c <= '9' then c as int - '0' as int
    else if 'a' <= c <= 'f' then c as int - 'a' as int + 10
    else if 'A' <= c <= 'F' then c as int - 'A' as int + 10
    else -1
  }

  function Hex(bs: seq<Byte>): (s: string)
    ensures |s| == 2 * |bs|
  {
    if bs == [] then "" else [HexDigit(bs[0] / 16), HexDigit(bs[0] % 16)] + Hex(bs[1..])
  }

  function UnHex(s: string): (r: Option<seq<Byte>>)
  {
    if s == "" then Some([])
    else if |s| == 1 || HexValue(s[0]) < 0 || HexValue(s[1]) < 0 then None
    else
      match UnHex(s[2..])
      case None => None
      case Some(rest) => Some([HexValue(s[0]) * 16 + HexValue(s[1])] + rest)
  }

  lemma HexDigitValue(d: int)
    requires 0 <= d < 16
    ensures HexValue(HexDigit(d)) == d
  {
  }

  lemma {:induction false} UnHexOfHex(bs: seq<Byte>)
    ensures UnHex(Hex(bs)) == Some(bs)
  {
    if bs != [] {
      UnHexOfHex(bs[1..]);
      var s := Hex(bs);
      assert s[2..] == Hex(bs[1..]);
      HexDigitValue(bs[0] / 16);
      HexDigitValue(bs[0] % 16);
      assert bs == [bs[0]] + bs[1..];
    }
  }

  lemma {:induction false} HexAlphabet(bs: seq<Byte>)
    ensures forall i :: 0 <= i < |Hex(bs)| ==> ('0' <= Hex(bs)[i] <= '9') || ('a' <= Hex(bs)[i] <= 'f')
  {
    if bs != [] {
      HexAlphabet(bs[1..]);
    }
  }

  lemma HexInjective(a: seq<Byte>, b: seq<Byte>)
    ensures Hex(a) == Hex(b) <==> a == b
  {
    UnHexOfHex(a);
    UnHexOfHex(b);
  }

  // ----- order

  lemma DigitOrder(a: int, b: int)
    requires 0 <= a < 16 && 0 <= b < 16
    ensures HexDigit(a) < HexDigit(b) <==> a < b
    ensures HexDigit(a) == HexDigit(b) <==> a == b
  {
  }

  lemma {:induction false} ValueFromFront(bs: seq<Byte>)
    requires bs != []
    ensures Value(bs) == bs[0] * Pow256(|bs| - 1) + Value(bs[1..])
  {
    if |bs| > 1 {
      var n := |bs| - 1;
      ValueFromFront(bs[..n]);
      assert bs[1..][..n - 1] == bs[..n][1..];
      assert Pow256(n) == 256 * Pow256(n - 1);
      assert (bs[0] * Pow256(n - 1)) * 256 == bs[0] * Pow256(n);
    }
  }

  /** Hexadecimal texts of equal length sort as the numbers they show. */
  lemma {:induction false} HexOrder(a: seq<Byte>, b: seq<Byte>)
    requires |a| == |b|
    ensures Order.Less(Hex(a), Hex(b)) <==> Value(a) < Value(b)
  {
    if a != [] {
      HexOrder(a[1..], b[1..]);
      HexStep(a, b);
      ValueStep(a, b);
    }
  }

  lemma HexStep(a: seq<Byte>, b: seq<Byte>)
    requires |a| == |b| > 0
    ensures Order.Less(Hex(a), Hex(b)) <==> a[0] < b[0] || (a[0] == b[0] && Order.Less(Hex(a[1..]), Hex(b[1..])))
  {
    var x, y := Hex(a), Hex(b);
    DigitOrder(a[0] / 16, b[0] / 16);
    DigitOrder(a[0] % 16, b[0] % 16);
    assert x[1..][1..] == x[2..] == Hex(a[1..]) && y[1..][1..] == y[2..] == Hex(b[1..]);
    assert a[0] == a[0] / 16 * 16 + a[0] % 16 && b[0] == b[0] / 16 * 16 + b[0] % 16;
    assert Order.Less(x[1..], y[1..]) <==>
      HexDigit(a[0] % 16) < HexDigit(b[0] % 16)
      || (HexDigit(a[0] % 16) == HexDigit(b[0] % 16) && Order.Less(x[2..], y[2..]));
  }

  lemma ValueStep(a: seq<Byte>, b: seq<Byte>)
    requires |a| == |b| > 0
    ensures Value(a) < Value(b) <==> a[0] < b[0] || (a[0] == b[0] && Value(a[1..]) < Value(b[1..]))
  {
    ValueFromFront(a);
    ValueFromFront(b);
    ValueBound(a[1..]);
    ValueBound(b[1..]);
    LeadDecides(a[0], b[0], Pow256(|a| - 1), Value(a[1..]), Value(b[1..]));
  }

  lemma AtLeastOnce(d: int, p: nat)
    requires d >= 1
    ensures d * p >= p
  {
    assert d * p == (d - 1) * p + p;
  }

  lemma ScaleByte(q: nat, p: nat)
    ensures 256 * (q * p) == q * (256 * p)
  {
  }

  lemma DivMod(q: int, r: int, m: int)
    requires 0 <= r < m
    ensures (q * m + r) / m == q && (q * m + r) % m == r
  {
    var n := q * m + r;
    assert n == n / m * m + n % m;
    if n / m < q {
      assert q * m == (n / m) * m + (q - n / m) * m;
      AtLeastOnce(q - n / m, m);
    } else if n / m > q {
      assert (n / m) * m == q * m + (n / m - q) * m;
      AtLeastOnce(n / m - q, m);
    }
  }

  lemma LeadDecides(x: int, y: int, p: nat, u: nat, v: nat)
    requires u < p && v < p
    ensures x * p + u < y * p + v <==> x < y || (x == y && u < v)
  {
    if x < y {
      AtLeastOnce(y - x, p);
      assert y * p == x * p + (y - x) * p;
    } else if y < x {
      AtLeastOnce(x - y, p);
      assert x * p == y * p + (x - y) * p;
    }
  }
}
