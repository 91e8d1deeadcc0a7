/** The string helpers of Go's standard library the selectors use. */
module Text {
  /** Unicode white space as strings.TrimSpace sees it. */
  predicate IsSpace(c: char) {
    || c == ' ' || '\t' <= c <= '\r' || c == '\U{85}' || c == '\U{a0}' || c == '\U{1680}'
    || '\U{2000}' <= c <= '\U{200a}' || c == '\U{2028}' || c == '\U{2029}' || c == '\U{202f}'
    || c == '\U{205f}' || c == '\U{3000}'
  }

  function TrimLeft(s: string): (t: string)
    ensures |t| <= |s|
  {
    if s != "" && IsSpace(s[0]) then TrimLeft(s[1..]) else s
  }

  function TrimRight(s: string): (t: string)
    ensures |t| <= |s|
  {
    if s != "" && IsSpace(s[|s| - 1]) then TrimRight(s[..|s| - 1]) else s
  }

  function Trim(s: string): (t: string)
    ensures |t| <= |s|
  {
    TrimRight(TrimLeft(s))
  }

  /** Nothing to trim at either end. */
  predicate Tight(s: string) {
    s == "" || (!IsSpace(s[0]) && !IsSpace(s[|s| - 1]))
  }

  lemma {:induction false} TrimLeftParts(s: string) returns (lead: string)
    ensures s == lead + TrimLeft(s) && forall i :: 0 <= i < |lead| ==> IsSpace(lead[i])
    ensures TrimLeft(s) == "" || !IsSpace(TrimLeft(s)[0])
  {
    if s != "" && IsSpace(s[0]) {
      var rest := TrimLeftParts(s[1..]);
      lead := [s[0]] + rest;
    } else {
      lead := "";
    }
  }

  lemma {:induction false} TrimRightParts(s: string) returns (trail: string)
    ensures s == TrimRight(s) + trail
    ensures TrimRight(s) == "" || (!IsSpace(TrimRight(s)[|TrimRight(s)| - 1]) && TrimRight(s)[0] == s[0])
  {
    if s != "" && IsSpace(s[|s| - 1]) {
      var rest := TrimRightParts(s[..|s| - 1]);
      trail := rest + [s[|s| - 1]];
    } else {
      trail := "";
    }
  }

  /** A string is blanks, its trimmed part, and a rest. */
  lemma TrimParts(s: string) returns (lead: string, trail: string)
    ensures s == lead + Trim(s) + trail && forall i :: 0 <= i < |lead| ==> IsSpace(lead[i])
    ensures Tight(Trim(s))
  {
    lead := TrimLeftParts(s);
    trail := TrimRightParts(TrimLeft(s));
    assert s == lead + TrimLeft(s) && TrimLeft(s) == Trim(s) + trail;
    Rejoin(lead, Trim(s), trail);
  }

  lemma Rejoin(a: string, b: string, c: string)
    ensures a + (b + c) == a + b + c
  {
  }

  lemma TrimKeepsOut(s: string, c: char)
    requires c !in s
    ensures c !in Trim(s)
  {
    var lead, trail := TrimParts(s);
    assert forall i :: 0 <= i < |Trim(s)| ==> Trim(s)[i] == s[|lead| + i];
  }

  /** A character that is no blank is in the trimmed text exactly when it is in the text. */
  lemma TrimKeepsIn(s: string, c: char)
    requires !IsSpace(c)
    ensures c in Trim(s) <==> c in s
  {
    TrimLeftKeepsIn(s, c);
    TrimRightKeepsIn(TrimLeft(s), c);
  }

  lemma {:induction false} TrimLeftKeepsIn(s: string, c: char)
    requires !IsSpace(c)
    ensures c in TrimLeft(s) <==> c in s
  {
    if s != "" && IsSpace(s[0]) {
      TrimLeftKeepsIn(s[1..], c);
      assert s == [s[0]] + s[1..];
    }
  }

  lemma {:induction false} TrimRightKeepsIn(s: string, c: char)
    requires !IsSpace(c)
    ensures c in TrimRight(s) <==> c in s
  {
    if s != "" && IsSpace(s[|s| - 1]) {
      TrimRightKeepsIn(s[..|s| - 1], c);
      assert s == s[..|s| - 1] + [s[|s| - 1]];
    }
  }

  lemma TightTrims(s: string)
    ensures Trim(s) == s <==> Tight(s)
  {
    if Trim(s) == s {
      var _, _ := TrimParts(s);
    }
  }

  /** strings.Index of one character. */
  function Index(s: string, c: char): (i: int)
    ensures -1 <= i < |s|
    ensures i == -1 <==> c !in s
    ensures i >= 0 ==> s[i] == c && c !in s[..i]
  {
    if s == "" then -1
    else if s[0] == c then 0
    else
      var j := Index(s[1..], c);
      if j < 0 then -1 else j + 1
  }

  /** strings.Split on one character. */
  function Split(s: string, c: char): (parts: seq<string>)
    ensures |parts| >= 1
    decreases |s|
  {
    var i := Index(s, c);
    if i < 0 then [s] else [s[..i]] + Split(s[i + 1..], c)
  }

  lemma {:induction false} SplitPieces(s: string, c: char)
    ensures forall i :: 0 <= i < |Split(s, c)| ==> c !in Split(s, c)[i]
    decreases |s|
  {
    var i := Index(s, c);
    if i >= 0 {
      SplitPieces(s[i + 1..], c);
    }
  }

  lemma {:induction false} IndexIs(s: string, c: char, i: nat)
    requires i < |s| && s[i] == c && c !in s[..i]
    ensures Index(s, c) == i
  {
    if i > 0 {
      assert s[0] in s[..i];
      assert s[1..][..i - 1] == s[..i][1..];
      IndexIs(s[1..], c, i - 1);
    }
  }

  lemma IndexAtSeparator(a: string, b: string, c: char)
    requires c !in a
    ensures Index(a + [c] + b, c) == |a|
  {
    assert (a + [c] + b)[..|a|] == a;
    IndexIs(a + [c] + b, c, |a|);
  }

  lemma SplitStep(s: string, c: char, i: nat)
    requires i < |s| && s[i] == c && c !in s[..i]
    ensures Split(s, c) == [s[..i]] + Split(s[i + 1..], c)
  {
    IndexIs(s, c, i);
  }

  lemma SplitWhole(s: string, c: char)
    requires c !in s
    ensures Split(s, c) == [s]
  {
  }

  lemma JoinParts(a: string, b: string, c: char, i: nat)
    requires i < |a|
    ensures (a + [c] + b)[..i] == a[..i] && (a + [c] + b)[i] == a[i]
    ensures (a + [c] + b)[i + 1..] == a[i + 1..] + [c] + b
  {
  }

  /** Splitting undoes joining, one piece at a time from the end. */
  lemma {:induction false} SplitAppend(a: string, b: string, c: char)
    requires c !in b
    ensures Split(a + [c] + b, c) == Split(a, c) + [b]
    decreases |a|
  {
    var s := a + [c] + b;
    if c !in a {
      assert s[..|a|] == a && s[|a| + 1..] == b;
      SplitStep(s, c, |a|);
      SplitWhole(a, c);
      SplitWhole(b, c);
    } else {
      var i := Index(a, c);
      var rest := a[i + 1..];
      JoinParts(a, b, c, i);
      SplitAppend(rest, b, c);
      SplitStep(a, c, i);
      SplitStep(s, c, i);
      assert [a[..i]] + (Split(rest, c) + [b]) == [a[..i]] + Split(rest, c) + [b];
    }
  }
}
