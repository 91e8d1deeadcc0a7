/** Signed decimal numbers as fmt prints them with %d and reads them back. */
module Decimal {
  import opened Wrappers

  const MIN_INT64 := -0x8000_0000_0000_0000

  const MAX_INT64 := 0x7fff_ffff_ffff_ffff

  predicate IsInt64(n: int) {
    MIN_INT64 <= n <= MAX_INT64
  }

  predicate IsDigit(c: char) {
    '0' <= c <= '9'
  }

  function DigitChar(d: nat): (c: char)
    requires d < 10
    ensures IsDigit(c) && DigitValue(c) == d
  {
    (d + '0' as int) as char
  }

  function DigitValue(c: char): nat
    requires IsDigit(c)
  {
    c as int - '0' as int
  }

  function Digits(n: nat): (s: string)
    ensures s != "" && forall i :: 0 <= i < |s| ==> IsDigit(s[i])
  {
    if n < 10 then [DigitChar(n)] else Digits(n / 10) + [DigitChar(n % 10)]
  }

  function Print(n: int): string {
    if n < 0 then "-" + Digits(-n) else Digits(n)
  }

  /** How many characters of s are digits before the first other one. */
  function DigitRun(s: string): (n: nat)
    ensures n <= |s| && forall i :: 0 <= i < n ==> IsDigit(s[i])
    ensures n < |s| ==> !IsDigit(s[n])
  {
    if s != "" && IsDigit(s[0]) then DigitRun(s[1..]) + 1 else 0
  }

  function Number(ds: string): nat
    requires forall i :: 0 <= i < |ds| ==> IsDigit(ds[i])
  {
    if ds == "" then 0 else Number(ds[..|ds| - 1]) * 10 + DigitValue(ds[|ds| - 1])
  }

  function Signed(n: nat, negative: bool): int {
    if negative then 0 - n else n
  }

  function Unsigned(s: string, negative: bool): Option<(int, string)> {
    var k := DigitRun(s);
    if k == 0 then None
    else
      var n := Signed(Number(s[..k]), negative);
      if IsInt64(n) then Some((n, s[k..])) else None
  }

  /** The %d verb after blanks: an optional sign, at least one digit, in range; with what follows the digits. */
  function Scan(s: string): Option<(int, string)> {
    if s != "" && s[0] == '-' then Unsigned(s[1..], true)
    else if s != "" && s[0] == '+' then Unsigned(s[1..], false)
    else Unsigned(s, false)
  }

  lemma {:induction false} NumberOfDigits(n: nat)
    ensures Number(Digits(n)) == n
  {
    if n >= 10 {
      NumberOfDigits(n / 10);
      assert Digits(n)[..|Digits(n)| - 1] == Digits(n / 10);
    }
  }

  lemma {:induction false} RunStops(ds: string, rest: string)
    requires forall i :: 0 <= i < |ds| ==> IsDigit(ds[i])
    requires rest == "" || !IsDigit(rest[0])
    ensures DigitRun(ds + rest) == |ds|
  {
    if ds == "" {
      assert ds + rest == rest;
    } else {
      RunStops(ds[1..], rest);
      assert (ds + rest)[1..] == ds[1..] + rest;
    }
  }

  lemma UnsignedReads(n: nat, negative: bool, rest: string)
    requires rest == "" || !IsDigit(rest[0])
    ensures var v := Signed(n, negative);
      Unsigned(Digits(n) + rest, negative) == if IsInt64(v) then Some((v, rest)) else None
  {
    var ds := Digits(n);
    RunStops(ds, rest);
    assert (ds + rest)[..|ds|] == ds && (ds + rest)[|ds|..] == rest;
    NumberOfDigits(n);
  }

  lemma ScanNegative(ds: string, rest: string)
    ensures Scan("-" + ds + rest) == Unsigned(ds + rest, true)
  {
    assert ("-" + ds + rest)[1..] == ds + rest;
  }

  lemma ScanUnsigned(ds: string, rest: string)
    requires ds != "" && IsDigit(ds[0])
    ensures Scan(ds + rest) == Unsigned(ds + rest, false)
  {
    assert (ds + rest)[0] == ds[0];
  }

  /** Reading undoes printing exactly for the 64-bit numbers. */
  lemma ScanOfPrint(n: int, rest: string)
    requires rest == "" || !IsDigit(rest[0])
    ensures Scan(Print(n) + rest) == if IsInt64(n) then Some((n, rest)) else None
  {
    if n < 0 {
      ScanNegative(Digits(-n), rest);
      UnsignedReads(-n, true, rest);
    } else {
      ScanUnsigned(Digits(n), rest);
      UnsignedReads(n, false, rest);
    }
  }
}
