/**
 The key envelopes: a key id and two byte strings as one text `$id$data$nonce`. Level-1 keys are wrapped by a root
 key with hexadecimal fields (configure/secret/unseal.local.go), level-2 keys by a level-1 key with base64 fields
 (configure/secretimpl/secret.pg.utils.go). Both are read with Sscanf and Split.
 */
module Envelope {
  import opened Wrappers
  import opened Text
  import Bytes
  import Base64
  import Decimal

  type Binary = seq<Bytes.Byte>

  datatype Coding = HexText | Base64Text

  function Encode(coding: Coding, bs: Binary): string {
    match coding
    case HexText => Bytes.Hex(bs)
    case Base64Text => Base64.Encode(bs)
  }

  function Decode(coding: Coding, s: string): Option<Binary> {
    match coding
    case HexText => Bytes.UnHex(s)
    case Base64Text => Base64.Decode(s)
  }

  function Format(coding: Coding, id: int, data: Binary, nonce: Binary): string {
    "$" + Decimal.Print(id) + "$" + Encode(coding, data) + "$" + Encode(coding, nonce)
  }

  // ----- Sscanf(s, "$%d$%s")

  /** Blanks before a verb are skipped; a line break is an error. */
  function SkipBlanks(s: string): Option<string> {
    if s == "" || !IsSpace(s[0]) then Some(s)
    else if s[0] == '\n' then None
    else SkipBlanks(s[1..])
  }

  /** The characters up to the first blank. */
  function Word(s: string): string {
    if s == "" || IsSpace(s[0]) then "" else [s[0]] + Word(s[1..])
  }

  function ScanWord(s: string): Option<string> {
    match SkipBlanks(s)
    case None => None
    case Some(t) => if t == "" then None else Some(Word(t))
  }

  function ScanId(s: string): Option<(int, string)> {
    match SkipBlanks(s)
    case None => None
    case Some(t) => Decimal.Scan(t)
  }

  function ScanEnvelope(s: string): Option<(int, string)> {
    if s == "" || s[0] != '$' then None
    else
      match ScanId(s[1..])
      case None => None
      case Some((id, more)) =>
        if more == "" || more[0] != '$' then None
        else
          match ScanWord(more[1..])
          case None => None
          case Some(rest) => Some((id, rest))
  }

  datatype Opened = Opened(id: int, data: Binary, nonce: Binary)

  function Parse(coding: Coding, s: string): Option<Opened> {
    match ScanEnvelope(s)
    case None => None
    case Some((id, rest)) =>
      var splits := Split(rest, '$');
      if |splits| != 2 then None
      else
        match (Decode(coding, splits[0]), Decode(coding, splits[1]))
        case (Some(data), Some(nonce)) => Some(Opened(id, data, nonce))
        case _ => None
  }

  // ----- the parser undoes the printer

  /** Text without separators and blanks. */
  predicate Plain(s: string) {
    forall i :: 0 <= i < |s| ==> s[i] != '$' && !IsSpace(s[i])
  }

  lemma EncodedPlain(coding: Coding, bs: Binary)
    ensures Plain(Encode(coding, bs)) && Decode(coding, Encode(coding, bs)) == Some(bs)
  {
    match coding
    case HexText =>
      Bytes.UnHexOfHex(bs);
      Bytes.HexAlphabet(bs);
    case Base64Text =>
      Base64.DecodeOfEncode(bs);
      Base64.EncodeAlphabet(bs);
  }

  lemma {:induction false} WordWhole(s: string)
    requires forall i :: 0 <= i < |s| ==> !IsSpace(s[i])
    ensures Word(s) == s
  {
    if s != "" {
      WordWhole(s[1..]);
    }
  }

  /** The two fields with their separator are read back as one word, however short they are. */
  lemma FieldsScan(a: string, b: string)
    requires Plain(a) && Plain(b)
    ensures ScanWord(a + "$" + b) == Some(a + "$" + b) && Split(a + "$" + b, '$') == [a, b]
  {
    var s := a + "$" + b;
    assert forall i :: 0 <= i < |s| ==> s[i] == (if i < |a| then a[i] else if i == |a| then '$' else b[i - |a| - 1]);
    WordWhole(s);
    SplitWhole(a, '$');
    SplitAppend(a, b, '$');
    assert a + ['$'] + b == s && [a] + [b] == [a, b];
  }

  lemma PrintStarts(id: int)
    ensures Decimal.Print(id) != "" && !IsSpace(Decimal.Print(id)[0])
  {
  }

  lemma IdScans(id: int, fields: string)
    ensures ScanId(Decimal.Print(id) + "$" + fields)
      == if Decimal.IsInt64(id) then Some((id, "$" + fields)) else None
  {
    PrintStarts(id);
    assert Decimal.Print(id) + "$" + fields == Decimal.Print(id) + ("$" + fields);
    Decimal.ScanOfPrint(id, "$" + fields);
  }

  lemma EnvelopeScans(id: int, a: string, b: string)
    requires Plain(a) && Plain(b)
    ensures ScanEnvelope("$" + Decimal.Print(id) + "$" + a + "$" + b)
      == if Decimal.IsInt64(id) then Some((id, a + "$" + b)) else None
  {
    var s := "$" + Decimal.Print(id) + "$" + a + "$" + b;
    var fields := a + "$" + b;
    assert s[1..] == Decimal.Print(id) + "$" + fields;
    IdScans(id, fields);
    assert ("$" + fields)[1..] == fields;
    FieldsScan(a, b);
  }

  /** Parsing an envelope gives back the id and both byte strings, for any bytes (none included) and exactly the
      64-bit ids. */
  lemma EnvelopeRoundTrip(coding: Coding, id: int, data: Binary, nonce: Binary)
    ensures Parse(coding, Format(coding, id, data, nonce))
      == if Decimal.IsInt64(id) then Some(Opened(id, data, nonce)) else None
  {
    EncodedPlain(coding, data);
    EncodedPlain(coding, nonce);
    var a, b := Encode(coding, data), Encode(coding, nonce);
    EnvelopeScans(id, a, b);
    FieldsScan(a, b);
  }

  /** Envelopes never collide. */
  lemma EnvelopeInjective(coding: Coding, x: Opened, y: Opened)
    requires Decimal.IsInt64(x.id) && Decimal.IsInt64(y.id)
    ensures Format(coding, x.id, x.data, x.nonce) == Format(coding, y.id, y.data, y.nonce) <==> x == y
  {
    EnvelopeRoundTrip(coding, x.id, x.data, x.nonce);
    EnvelopeRoundTrip(coding, y.id, y.data, y.nonce);
  }
}
