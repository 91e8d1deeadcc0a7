/** Base64 with the standard alphabet and padding (section 4 of RFC 4648). */
module Base64 {
  import opened Wrappers
  import opened Bytes

  /** The character of a 6-bit value. */
  function Symbol(v: nat): (c: char)
    requires v < 64
    ensures IsSymbol(c)
  {
    if v < 26 then (v + 'A' as int) as char
    else if v < 52 then (v - 26 + 'a' as int) as char
    else if v < 62 then (v - 52 + '0' as int) as char
    else if v == 62 then '+'
    else '/'
  }

  predicate IsSymbol(c: char) {
    'A' <= c <= 'Z' || 'a' <= c <= 'z' || '0' <= c <= '9' || c == '+' || c == '/'
  }

  /** The value of a character, -1 outside the alphabet. */
  function Code(c: char): (v: int)
    ensures -1 <= v < 64 && (v >= 0 <==> IsSymbol(c))
  {
    if 'A' <= c <= 'Z' then c as int - 'A' as int
    else if 'a' <= c <= 'z' then c as int - 'a' as int + 26
    else if '0' <= c <= '9' then c as int - '0' as int + 52
    else if c == '+' then 62
    else if c == '/' then 63
    else -1
  }

  lemma CodeOfSymbol(v: nat)
    requires v < 64
    ensures Code(Symbol(v)) == v
  {
  }

  /** Three bytes become four characters; a shorter last group is padded. */
  function Group(a: Byte, b: Byte, c: Byte): (s: string)
    ensures |s| == 4
  {
    [Symbol(a / 4), Symbol(a % 4 * 16 + b / 16), Symbol(b % 16 * 4 + c / 64), Symbol(c % 64)]
  }

  function Encode(bs: seq<Byte>): string {
    if |bs| == 0 then ""
    else if |bs| == 1 then [Symbol(bs[0] / 4), Symbol(bs[0] % 4 * 16), '=', '=']
    else if |bs| == 2 then [Symbol(bs[0] / 4), Symbol(bs[0] % 4 * 16 + bs[1] / 16), Symbol(bs[1] % 16 * 4), '=']
    else Group(bs[0], bs[1], bs[2]) + Encode(bs[3..])
  }

  /** The decoder reads groups of four; padding may only end the last one, and spare bits are not checked. */
  function Decode(s: string): Option<seq<Byte>>
  {
    if s == "" then Some([])
    else if |s| < 4 || Code(s[0]) < 0 || Code(s[1]) < 0 then None
    else
      var first := Code(s[0]) * 4 + Code(s[1]) / 16;
      if s[2] == '=' then if |s| == 4 && s[3] == '=' then Some([first]) else None
      else if Code(s[2]) < 0 then None
      else
        var second := Code(s[1]) % 16 * 16 + Code(s[2]) / 4;
        if s[3] == '=' then if |s| == 4 then Some([first, second]) else None
        else if Code(s[3]) < 0 then None
        else
          match Decode(s[4..])
          case None => None
          case Some(rest) => Some([first, second, Code(s[2]) % 4 * 64 + Code(s[3])] + rest)
  }

  lemma GroupReads(a: Byte, b: Byte, c: Byte)
    ensures var s := Group(a, b, c);
      && s[2] != '=' && s[3] != '=' && (forall i :: 0 <= i < 4 ==> Code(s[i]) >= 0)
      && Code(s[0]) * 4 + Code(s[1]) / 16 == a && Code(s[1]) % 16 * 16 + Code(s[2]) / 4 == b
      && Code(s[2]) % 4 * 64 + Code(s[3]) == c
  {
    CodeOfSymbol(a / 4);
    CodeOfSymbol(a % 4 * 16 + b / 16);
    CodeOfSymbol(b % 16 * 4 + c / 64);
    CodeOfSymbol(c % 64);
  }

  lemma OneReads(a: Byte)
    ensures Code(Symbol(a / 4)) * 4 + Code(Symbol(a % 4 * 16)) / 16 == a
  {
    CodeOfSymbol(a / 4);
    CodeOfSymbol(a % 4 * 16);
  }

  lemma TwoRead(a: Byte, b: Byte)
    ensures Code(Symbol(a / 4)) * 4 + Code(Symbol(a % 4 * 16 + b / 16)) / 16 == a
    ensures Code(Symbol(a % 4 * 16 + b / 16)) % 16 * 16 + Code(Symbol(b % 16 * 4)) / 4 == b
  {
    CodeOfSymbol(a / 4);
    CodeOfSymbol(a % 4 * 16 + b / 16);
    CodeOfSymbol(b % 16 * 4);
  }

  lemma PaddedOne(x: char, y: char)
    requires IsSymbol(x) && IsSymbol(y)
    ensures Decode([x, y, '=', '=']) == Some([Code(x) * 4 + Code(y) / 16])
  {
  }

  lemma PaddedTwo(x: char, y: char, z: char)
    requires IsSymbol(x) && IsSymbol(y) && IsSymbol(z)
    ensures Decode([x, y, z, '=']) == Some([Code(x) * 4 + Code(y) / 16, Code(y) % 16 * 16 + Code(z) / 4])
  {
    assert Code('=') == -1;
  }

  lemma OneDecodes(a: Byte)
    ensures Decode(Encode([a])) == Some([a])
  {
    OneReads(a);
    PaddedOne(Symbol(a / 4), Symbol(a % 4 * 16));
    assert Encode([a]) == [Symbol(a / 4), Symbol(a % 4 * 16), '=', '='];
  }

  lemma TwoDecode(a: Byte, b: Byte)
    ensures Decode(Encode([a, b])) == Some([a, b])
  {
    TwoRead(a, b);
    PaddedTwo(Symbol(a / 4), Symbol(a % 4 * 16 + b / 16), Symbol(b % 16 * 4));
    assert Encode([a, b]) == [Symbol(a / 4), Symbol(a % 4 * 16 + b / 16), Symbol(b % 16 * 4), '='];
  }

  lemma FourDecode(x: char, y: char, z: char, w: char, rest: string, bytes: seq<Byte>)
    requires IsSymbol(x) && IsSymbol(y) && IsSymbol(z) && IsSymbol(w) && Decode(rest) == Some(bytes)
    ensures Decode([x, y, z, w] + rest) ==
      Some([Code(x) * 4 + Code(y) / 16, Code(y) % 16 * 16 + Code(z) / 4, Code(z) % 4 * 64 + Code(w)] + bytes)
  {
    var s := [x, y, z, w] + rest;
    assert s[4..] == rest && s[0] == x && s[1] == y && s[2] == z && s[3] == w;
    assert Code('=') == -1;
  }

  /** A whole group in front of an encoding. */
  lemma GroupDecodes(a: Byte, b: Byte, c: Byte, rest: string, bytes: seq<Byte>)
    requires Decode(rest) == Some(bytes)
    ensures Decode(Group(a, b, c) + rest) == Some([a, b, c] + bytes)
  {
    GroupReads(a, b, c);
    var s := Group(a, b, c);
    FourDecode(s[0], s[1], s[2], s[3], rest, bytes);
    assert s == [s[0], s[1], s[2], s[3]];
  }

  lemma {:induction false} DecodeOfEncode(bs: seq<Byte>)
    ensures Decode(Encode(bs)) == Some(bs)
  {
    if bs == [] {
    } else if |bs| == 1 {
      assert bs == [bs[0]];
      OneDecodes(bs[0]);
    } else if |bs| == 2 {
      assert bs == [bs[0], bs[1]];
      TwoDecode(bs[0], bs[1]);
    } else {
      DecodeOfEncode(bs[3..]);
      GroupDecodes(bs[0], bs[1], bs[2], Encode(bs[3..]), bs[3..]);
      assert bs == [bs[0], bs[1], bs[2]] + bs[3..];
    }
  }

  lemma {:induction false} EncodeAlphabet(bs: seq<Byte>)
    ensures forall i :: 0 <= i < |Encode(bs)| ==> IsSymbol(Encode(bs)[i]) || Encode(bs)[i] == '='
  {
    if |bs| >= 3 {
      EncodeAlphabet(bs[3..]);
    }
  }
}
