/** 64-bit two's complement words and the bit operations on them. */
module Bits {
  const TWO_16: nat := 0x1_0000

  const TWO_32: nat := 0x1_0000_0000

  const TWO_48: nat := 0x1_0000_0000_0000

  const TWO_64: nat := 0x1_0000_0000_0000_0000

  /** The range of int64. */
  type Int64 = x: int | -0x8000_0000_0000_0000 <= x < 0x8000_0000_0000_0000

  function Unsigned(x: int): (u: nat)
    ensures u < TWO_64
  {
    x % TWO_64
  }

  function Signed(u: int): (x: Int64)
    requires 0 <= u < TWO_64
  {
    if u < 0x8000_0000_0000_0000 then u else u - TWO_64
  }

  lemma SignedUnsigned(x: Int64)
    ensures Signed(Unsigned(x)) == x
  {
  }

  function Pow2(k: nat): (p: nat)
    ensures p >= 1
  {
    if k == 0 then 1 else 2 * Pow2(k - 1)
  }

  /** Bitwise or, bit by bit. */
  function Or(a: nat, b: nat): nat
    decreases a + b
  {
    if a == 0 && b == 0 then 0
    else 2 * Or(a / 2, b / 2) + (if a % 2 == 1 || b % 2 == 1 then 1 else 0)
  }

  lemma {:induction false} OrZero(a: nat)
    ensures Or(a, 0) == a
  {
    if a > 0 {
      OrZero(a / 2);
    }
  }

  lemma OrStep(x: nat, b: nat)
    ensures Or(2 * x, b) == 2 * Or(x, b / 2) + b % 2
  {
    assert 2 * x / 2 == x && 2 * x % 2 == 0;
  }

  /** a with k zero bits behind it. */
  function Shifted(a: nat, k: nat): nat {
    if k == 0 then a else 2 * Shifted(a, k - 1)
  }

  lemma Doubled(a: nat, p: nat)
    ensures a * (2 * p) == 2 * (a * p)
  {
  }

  lemma {:induction false} ShiftedIs(a: nat, k: nat)
    ensures Shifted(a, k) == a * Pow2(k)
  {
    if k > 0 {
      ShiftedIs(a, k - 1);
      Doubled(a, Pow2(k - 1));
    }
  }

  lemma {:induction false} OrOfShifted(a: nat, b: nat, k: nat)
    requires b < Pow2(k)
    ensures Or(Shifted(a, k), b) == Shifted(a, k) + b
  {
    if k == 0 {
      OrZero(a);
    } else {
      OrOfShifted(a, b / 2, k - 1);
      OrStep(Shifted(a, k - 1), b);
    }
  }

  /** Or of operands with no common bit is their sum. */
  lemma OrDisjoint(a: nat, b: nat, k: nat)
    requires b < Pow2(k)
    ensures Or(a * Pow2(k), b) == a * Pow2(k) + b
  {
    ShiftedIs(a, k);
    OrOfShifted(a, b, k);
  }

  lemma Pow2At16()
    ensures Pow2(16) == TWO_16
  {
    assert Pow2(4) == 16;
    assert Pow2(8) == 256;
    assert Pow2(12) == 4096;
  }

  lemma Pow2At32()
    ensures Pow2(32) == TWO_32
  {
    Pow2At16();
    assert Pow2(20) == 16 * Pow2(16);
    assert Pow2(24) == 16 * Pow2(20);
    assert Pow2(28) == 16 * Pow2(24);
    assert Pow2(32) == 16 * Pow2(28);
  }

  /** x << k on int64. */
  function ShiftLeft(x: int, k: nat): Int64 {
    Signed(Unsigned(x * Pow2(k)))
  }

  /** x | y on int64. */
  function OrWords(x: int, y: int): Int64 {
    Signed(Unsigned(Or(Unsigned(x), Unsigned(y))))
  }

  /** d reduced to 48 signed bits: what is left of it above a 16-bit shift. */
  function Wrap48(d: int): (w: int)
    ensures -0x8000_0000_0000 <= w < 0x8000_0000_0000
  {
    (d + 0x8000_0000_0000) % TWO_48 - 0x8000_0000_0000
  }

  lemma ShiftKeeps48(d: int)
    ensures Unsigned(d * TWO_16) == (d % TWO_48) * TWO_16
  {
    var q, r := d / TWO_48, d % TWO_48;
    assert d * TWO_16 == q * TWO_64 + r * TWO_16;
    assert 0 <= r * TWO_16 < TWO_64;
    ModOfSum(q, r * TWO_16);
  }

  lemma ModOfSum(q: int, r: nat)
    requires r < TWO_64
    ensures (q * TWO_64 + r) % TWO_64 == r
  {
  }

  /** Words without a common bit: the or is the sum. */
  lemma OrApart(x: nat, b: nat)
    requires Or(x, b) == x + b < TWO_64
    ensures OrWords(Signed(x), b) == Signed(x + b)
  {
    OrOfWords(x, b);
    UnsignedSmall(x + b);
  }

  lemma OrOfWords(x: nat, b: nat)
    requires x < TWO_64 && b < TWO_64
    ensures OrWords(Signed(x), b) == Signed(Unsigned(Or(x, b)))
  {
    UnsignedSigned(x);
    UnsignedSmall(b);
  }

  lemma UnsignedSmall(u: nat)
    requires u < TWO_64
    ensures Unsigned(u) == u
  {
  }

  lemma UnsignedSigned(u: nat)
    requires u < TWO_64
    ensures Unsigned(Signed(u)) == u
  {
  }

  /** The high word of an id: 48 bits of time over 16 bits of node. */
  lemma HighWord(d: int, node: nat)
    requires node < TWO_16
    ensures OrWords(ShiftLeft(d, 16), node) == Wrap48(d) * TWO_16 + node
  {
    var r := d % TWO_48;
    Pow2At16();
    ShiftKeeps48(d);
    OrDisjoint(r, node, 16);
    OrApart(r * TWO_16, node);
    WrapOfMod(d);
  }

  lemma WrapOfMod(d: int)
    ensures Wrap48(d) == if d % TWO_48 < 0x8000_0000_0000 then d % TWO_48 else d % TWO_48 - TWO_48
  {
  }

  /** The low word: 32 bits of element over a non-negative 32-bit counter. */
  lemma LowWord(element: nat, seqno: nat)
    requires element < TWO_32 && seqno < TWO_32
    ensures OrWords(ShiftLeft(element, 32), seqno) == Signed(element * TWO_32 + seqno)
  {
    Pow2At32();
    UnsignedSmall(element * TWO_32);
    OrDisjoint(element, seqno, 32);
    OrApart(element * TWO_32, seqno);
  }
}
