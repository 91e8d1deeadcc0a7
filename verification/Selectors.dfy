/** Canonical selectors (configure/configapi/protocol.go): the sorted print of a map and its parser. */
module Selectors {
  import opened Wrappers
  import opened Text
  import Order

  type Data = map<string, string>

  // ----- sorted keys

  /** ks lists the keys in strictly increasing order. */
  ghost predicate Lists(ks: seq<string>, keys: set<string>) {
    && (forall i, j :: 0 <= i < j < |ks| ==> Order.Less(ks[i], ks[j]))
    && (forall k :: k in ks <==> k in keys)
  }

  /** The same, told by the characters: each key once, and wherever two keys first differ the smaller character is in
      the earlier one, or the earlier one is the shorter. */
  predicate InCharOrder(ks: seq<string>, keys: set<string>) {
    && (forall i, j :: 0 <= i < j < |ks| ==> Order.Precedes(ks[i], ks[j]))
    && (forall k :: k in keys ==> k in ks) && (forall i :: 0 <= i < |ks| ==> ks[i] in keys)
  }

  lemma ListsIff(ks: seq<string>, keys: set<string>)
    ensures Lists(ks, keys) <==> InCharOrder(ks, keys)
  {
    forall i, j | 0 <= i < j < |ks| ensures Order.Less(ks[i], ks[j]) <==> Order.Precedes(ks[i], ks[j]) {
      Order.LessIff(ks[i], ks[j]);
    }
  }

  lemma {:induction false} ListingIsUnique(a: seq<string>, b: seq<string>, keys: set<string>)
    requires Lists(a, keys) && Lists(b, keys)
    ensures a == b
  {
    if a == [] || b == [] {
      EmptyListing(a, keys);
      EmptyListing(b, keys);
    } else {
      FirstIsLeast(a, keys, b[0]);
      FirstIsLeast(b, keys, a[0]);
      Order.LessTotal(a[0], b[0]);
      DropFirst(a, keys);
      DropFirst(b, keys);
      ListingIsUnique(a[1..], b[1..], keys - {a[0]});
      assert a == [a[0]] + a[1..] && b == [b[0]] + b[1..];
    }
  }

  lemma EmptyListing(a: seq<string>, keys: set<string>)
    requires Lists(a, keys)
    ensures a == [] <==> keys == {}
  {
    if a != [] {
      assert a[0] in a;
    }
    if keys != {} {
      var k :| k in keys;
      assert k in a;
    }
  }

  lemma FirstIsLeast(a: seq<string>, keys: set<string>, k: string)
    requires Lists(a, keys) && a != [] && k in keys
    ensures a[0] == k || Order.Less(a[0], k)
  {
    assert k in a;
    var i :| 0 <= i < |a| && a[i] == k;
  }

  lemma DropFirst(a: seq<string>, keys: set<string>)
    requires Lists(a, keys) && a != []
    ensures Lists(a[1..], keys - {a[0]})
  {
    forall k ensures k in a[1..] <==> k in keys - {a[0]} {
      Order.LessTotal(a[0], a[0]);
      if k in a[1..] {
        var i :| 0 <= i < |a[1..]| && a[1..][i] == k;
        assert a[i + 1] == k && k in a && Order.Less(a[0], a[i + 1]);
      } else if k in keys {
        assert k in a;
        var i :| 0 <= i < |a| && a[i] == k;
        assert i == 0;
      }
    }
  }

  /** slices.Sort. */
  function Insert(k: string, ks: seq<string>): seq<string> {
    if ks == [] then [k] else if Order.Less(k, ks[0]) then [k] + ks else [ks[0]] + Insert(k, ks[1..])
  }

  function Sort(ks: seq<string>): seq<string> {
    if ks == [] then [] else Insert(ks[0], Sort(ks[1..]))
  }

  lemma {:induction false} InsertLists(k: string, ks: seq<string>, keys: set<string>)
    requires Lists(ks, keys) && k !in keys
    ensures Lists(Insert(k, ks), keys + {k})
  {
    if ks != [] {
      assert ks[0] in keys;
      Order.LessTotal(k, ks[0]);
      if Order.Less(k, ks[0]) {
        forall j | 0 <= j < |ks| ensures Order.Less(k, ks[j]) {
          if j > 0 {
            Order.LessTransitive(k, ks[0], ks[j]);
          }
        }
      } else {
        DropFirst(ks, keys);
        InsertLists(k, ks[1..], keys - {ks[0]});
        var rest := Insert(k, ks[1..]);
        forall j | 0 <= j < |rest| ensures Order.Less(ks[0], rest[j]) {
          assert rest[j] in rest;
          if rest[j] != k {
            assert rest[j] in ks[1..];
          }
        }
        assert keys - {ks[0]} + {k} + {ks[0]} == keys + {k};
      }
    }
  }

  predicate NoRepeats(ks: seq<string>) {
    forall i, j :: 0 <= i < j < |ks| ==> ks[i] != ks[j]
  }

  lemma {:induction false} SortLists(ks: seq<string>)
    requires NoRepeats(ks)
    ensures Lists(Sort(ks), set k | k in ks)
  {
    if ks != [] {
      SortLists(ks[1..]);
      InsertLists(ks[0], Sort(ks[1..]), set k | k in ks[1..]);
      assert (set k | k in ks[1..]) + {ks[0]} == set k | k in ks;
    }
  }

  /** Whatever order the map yields its keys in, the sorted listing is the same. */
  lemma SortForgetsOrder(a: seq<string>, b: seq<string>)
    requires NoRepeats(a) && NoRepeats(b) && forall k :: k in a <==> k in b
    ensures Sort(a) == Sort(b)
  {
    SortLists(a);
    SortLists(b);
    assert (set k | k in a) == set k | k in b;
    ListingIsUnique(Sort(a), Sort(b), set k | k in a);
  }

  // ----- the canonical string

  function Entry(m: Data, k: string): string
    requires k in m
  {
    k + "=" + m[k]
  }

  predicate AllIn(ks: seq<string>, m: Data) {
    forall k :: k in ks ==> k in m
  }

  function Print(m: Data, ks: seq<string>): string
    requires AllIn(ks, m)
  {
    if ks == [] then ""
    else if |ks| == 1 then Entry(m, ks[0])
    else Print(m, ks[..|ks| - 1]) + "," + Entry(m, ks[|ks| - 1])
  }

  lemma {:induction false} ListingExists(keys: set<string>)
    ensures exists ks :: Lists(ks, keys)
  {
    if keys == {} {
      assert Lists([], keys);
    } else {
      var k :| k in keys;
      ListingExists(keys - {k});
      var ks :| Lists(ks, keys - {k});
      InsertLists(k, ks, keys - {k});
      assert keys - {k} + {k} == keys;
    }
  }

  ghost function Listing(keys: set<string>): (ks: seq<string>)
    ensures Lists(ks, keys)
  {
    ListingExists(keys);
    var ks :| Lists(ks, keys);
    ks
  }

  /** The string selectors are matched by. */
  ghost function Canonical(m: Data): string {
    Print(m, Listing(m.Keys))
  }

  // ----- the parser

  /** One `key=value` part. The separator is found in the trimmed text and used on the untrimmed one. */
  function ParsePart(v: string): Option<(string, string)> {
    var idx := Index(Trim(v), '=');
    if idx < 0 then None
    else Some((Trim(v[..idx]), Trim(v[idx + 1..])))
  }

  function ParseAll(parts: seq<string>): Option<Data> {
    if parts == [] then Some(map[])
    else
      match (ParseAll(parts[..|parts| - 1]), ParsePart(parts[|parts| - 1]))
      case (Some(m), Some(kv)) => Some(m[kv.0 := kv.1])
      case _ => None
  }

  function Parse(str: string): Option<Data> {
    var s := Trim(str);
    if s == "" then Some(map[]) else ParseAll(Split(s, ','))
  }

  // ----- exactly the maps that survive

  /** Keys without separators, values without the part separator, neither with blanks at the ends. */
  predicate Clean(m: Data) {
    forall k :: k in m ==> Tight(k) && '=' !in k && ',' !in k && Tight(m[k]) && ',' !in m[k]
  }

  /** The documented alphabet of selector keys and values, none of them empty. */
  predicate Documented(s: string) {
    s != "" && forall i :: 0 <= i < |s| ==>
      'A' <= s[i] <= 'Z' || 'a' <= s[i] <= 'z' || '0' <= s[i] <= '9' || s[i] in "_-."
  }

  lemma DocumentedIsClean(m: Data)
    requires forall k :: k in m ==> Documented(k) && Documented(m[k])
    ensures Clean(m)
  {
    forall k | k in m ensures Tight(k) && '=' !in k && ',' !in k && Tight(m[k]) && ',' !in m[k] {
      DocumentedChars(k);
      DocumentedChars(m[k]);
    }
  }

  lemma DocumentedChars(s: string)
    requires Documented(s)
    ensures Tight(s) && '=' !in s && ',' !in s
  {
    assert forall c :: c in "_-." <==> c == '_' || c == '-' || c == '.';
  }

  lemma PartRoundTrip(k: string, v: string)
    requires Tight(k) && '=' !in k && Tight(v)
    ensures ParsePart(k + "=" + v) == Some((k, v))
  {
    var s := k + "=" + v;
    assert Tight(s);
    TightTrims(s);
    IndexAtSeparator(k, v, '=');
    assert k + ['='] + v == s && s[..|k|] == k && s[|k| + 1..] == v;
    TightTrims(k);
    TightTrims(v);
  }

  /** The map restricted to listed keys. */
  function Part(m: Data, ks: seq<string>): Data
    requires AllIn(ks, m)
  {
    map k | k in ks :: m[k]
  }

  lemma EntryParses(m: Data, k: string)
    requires Clean(m) && k in m
    ensures ParsePart(Entry(m, k)) == Some((k, m[k])) && ',' !in Entry(m, k)
    ensures Tight(Entry(m, k)) && Entry(m, k) != ""
  {
    PartRoundTrip(k, m[k]);
  }

  lemma TightJoin(a: string, b: string)
    requires Tight(a) && a != "" && Tight(b) && b != ""
    ensures Tight(a + "," + b) && a + "," + b == a + [','] + b
  {
    var s := a + "," + b;
    assert s[0] == a[0] && s[|s| - 1] == b[|b| - 1];
  }

  lemma ParseMore(parts: seq<string>, e: string)
    requires ParseAll(parts).Some? && ParsePart(e).Some?
    ensures ParseAll(parts + [e]) == Some(ParseAll(parts).value[ParsePart(e).value.0 := ParsePart(e).value.1])
  {
    assert (parts + [e])[..|parts|] == parts;
  }

  lemma ParseOne(e: string)
    requires ',' !in e && ParsePart(e).Some?
    ensures ParseAll(Split(e, ',')) == Some(map[ParsePart(e).value.0 := ParsePart(e).value.1])
  {
    assert Split(e, ',') == [] + [e];
    ParseMore([], e);
  }

  lemma PartOneMore(m: Data, ks: seq<string>)
    requires AllIn(ks, m) && ks != []
    ensures var n := |ks| - 1; AllIn(ks[..n], m) && ks[n] in m && Part(m, ks) == Part(m, ks[..n])[ks[n] := m[ks[n]]]
  {
    assert ks == ks[..|ks| - 1] + [ks[|ks| - 1]];
  }

  /** A non-empty print, blank at neither end, that parses to the given map. */
  predicate Prints(p: string, want: Data) {
    Tight(p) && p != "" && ParseAll(Split(p, ',')) == Some(want)
  }

  lemma PrintOneMore(m: Data, have: Data, p: string, k: string)
    requires Clean(m) && k in m && Prints(p, have)
    ensures Prints(p + "," + Entry(m, k), have[k := m[k]])
  {
    var e := Entry(m, k);
    EntryParses(m, k);
    TightJoin(p, e);
    SplitAppend(p, e, ',');
    ParseMore(Split(p, ','), e);
  }

  lemma PrintStep(m: Data, ks: seq<string>, rest: seq<string>, k: string)
    requires AllIn(ks, m) && rest != [] && ks == rest + [k]
    ensures AllIn(rest, m) && k in m && Print(m, ks) == Print(m, rest) + "," + Entry(m, k)
  {
    assert ks[..|ks| - 1] == rest && k in ks && forall x :: x in rest ==> x in ks;
  }

  lemma PrintOne(m: Data, k: string)
    requires Clean(m) && k in m
    ensures Prints(Print(m, [k]), Part(m, [k]))
  {
    EntryParses(m, k);
    ParseOne(Entry(m, k));
    assert Part(m, [k]) == map[k := m[k]];
  }

  lemma {:induction false} PrintParses(m: Data, ks: seq<string>)
    requires Clean(m) && AllIn(ks, m) && ks != []
    ensures Prints(Print(m, ks), Part(m, ks))
  {
    var n := |ks| - 1;
    var rest, k := ks[..n], ks[n];
    assert ks == rest + [k];
    if rest == [] {
      assert k in ks;
      PrintOne(m, k);
    } else {
      PrintStep(m, ks, rest, k);
      PrintParses(m, rest);
      PrintOneMore(m, Part(m, rest), Print(m, rest), k);
      PartOneMore(m, ks);
    }
  }

  lemma CleanRoundTrip(m: Data)
    requires Clean(m)
    ensures Parse(Canonical(m)) == Some(m)
  {
    var ks := Listing(m.Keys);
    if ks == [] {
      assert m == map[] by {
        assert forall k :: k in m ==> k in ks;
      }
      assert Trim("") == "";
    } else {
      PrintParses(m, ks);
      TightTrims(Print(m, ks));
      assert Part(m, ks) == m;
    }
  }

  lemma ParsedPartIsClean(v: string)
    requires ',' !in v && ParsePart(v).Some?
    ensures var kv := ParsePart(v).value;
      Tight(kv.0) && '=' !in kv.0 && ',' !in kv.0 && Tight(kv.1) && ',' !in kv.1
  {
    var lead, trail := TrimParts(v);
    var t := Trim(v);
    var idx := Index(t, '=');
    forall i | 0 <= i < idx ensures v[i] != '=' {
      if i < |lead| {
        assert IsSpace(lead[i]) && v[i] == lead[i];
      } else {
        assert v[i] == t[i - |lead|] && t[i - |lead|] in t[..idx];
      }
    }
    var l1, t1 := TrimParts(v[..idx]);
    var l2, t2 := TrimParts(v[idx + 1..]);
    TrimKeepsOut(v[..idx], '=');
    TrimKeepsOut(v[..idx], ',');
    TrimKeepsOut(v[idx + 1..], ',');
  }

  lemma {:induction false} ParsedIsClean(parts: seq<string>)
    requires ParseAll(parts).Some? && forall i :: 0 <= i < |parts| ==> ',' !in parts[i]
    ensures Clean(ParseAll(parts).value)
  {
    if parts != [] {
      ParsedIsClean(parts[..|parts| - 1]);
      ParsedPartIsClean(parts[|parts| - 1]);
    }
  }

  /** The round trip holds for exactly the clean maps. */
  lemma RoundTripIff(m: Data)
    ensures Parse(Canonical(m)) == Some(m) <==> Clean(m)
  {
    if Clean(m) {
      CleanRoundTrip(m);
    } else if Parse(Canonical(m)) == Some(m) {
      SplitPieces(Trim(Canonical(m)), ',');
      if Trim(Canonical(m)) != "" {
        ParsedIsClean(Split(Trim(Canonical(m)), ','));
      }
    }
  }

  lemma PartParsesIff(v: string)
    ensures ParsePart(v).Some? <==> '=' in v
  {
    TrimKeepsIn(v, '=');
  }

  predicate AllSeparated(parts: seq<string>) {
    forall i :: 0 <= i < |parts| ==> '=' in parts[i]
  }

  lemma {:induction false} PartsParseIff(parts: seq<string>)
    ensures ParseAll(parts).Some? <==> AllSeparated(parts)
  {
    if parts != [] {
      PartsParseIff(parts[..|parts| - 1]);
      PartParsesIff(parts[|parts| - 1]);
    }
  }

  /** A text parses exactly when it is blank or each of its parts has a separator in it. */
  lemma ParsesIff(str: string)
    ensures Parse(str).Some? <==> Trim(str) == "" || AllSeparated(Split(Trim(str), ','))
  {
    PartsParseIff(Split(Trim(str), ','));
  }

  /** Two clean maps have the same canonical string exactly when they are equal. */
  lemma CanonicalInjective(a: Data, b: Data)
    requires Clean(a) && Clean(b)
    ensures Canonical(a) == Canonical(b) <==> a == b
  {
    CleanRoundTrip(a);
    CleanRoundTrip(b);
  }

  /** What the documentation promises, for all maps over its alphabet: the string gives the map back, and two maps share
      a string exactly when they are equal. */
  lemma DocumentedMapsMatchExactly(a: Data, b: Data)
    requires forall k :: k in a ==> Documented(k) && Documented(a[k])
    requires forall k :: k in b ==> Documented(k) && Documented(b[k])
    ensures Parse(Canonical(a)) == Some(a) && (Canonical(a) == Canonical(b) <==> a == b)
  {
    DocumentedIsClean(a);
    DocumentedIsClean(b);
    CleanRoundTrip(a);
    CanonicalInjective(a, b);
  }

  lemma ListingIs(m: Data, ks: seq<string>)
    requires Lists(ks, m.Keys)
    ensures Listing(m.Keys) == ks
  {
    ListingIsUnique(Listing(m.Keys), ks, m.Keys);
  }

  /** Off the clean maps the promise fails: a value with a separator in it prints as another map does, so the two share
      one key, and parsing gives the other map. */
  lemma TwoMapsOneKey()
    ensures var odd := map["a" := "b,c=d"];
      var clean := map["a" := "b", "c" := "d"];
      odd != clean && Canonical(odd) == Canonical(clean) && Parse(Canonical(odd)) == Some(clean)
  {
    var odd := map["a" := "b,c=d"];
    var clean := map["a" := "b", "c" := "d"];
    assert odd["a"] != clean["a"];
    OneEntryPrints(odd, "a");
    TwoEntriesPrint(clean, "a", "c");
    assert odd.Keys == {"a"} && clean.Keys == {"a", "c"};
    SameText();
    DocumentedChars("a");
    DocumentedChars("b");
    DocumentedChars("c");
    DocumentedChars("d");
    CleanRoundTrip(clean);
  }

  lemma OneEntryPrints(m: Data, a: string)
    requires m.Keys == {a}
    ensures Canonical(m) == Entry(m, a)
  {
    ListingIs(m, [a]);
  }

  lemma TwoEntriesPrint(m: Data, a: string, b: string)
    requires m.Keys == {a, b} && Order.Less(a, b)
    ensures Canonical(m) == Entry(m, a) + "," + Entry(m, b)
  {
    ListingIs(m, [a, b]);
    assert AllIn([a, b], m);
    PrintStep(m, [a, b], [a], b);
  }

  lemma SameText()
    ensures "a" + "=" + "b,c=d" == "a" + "=" + "b" + "," + ("c" + "=" + "d")
  {
  }

  // ----- exactly the maps that share their string

  /** A print is its first key, the separator and a rest, which is the value or has another separator in it. */
  lemma {:induction false} PrintShape(m: Data, ks: seq<string>) returns (rest: string)
    requires AllIn(ks, m) && ks != []
    ensures Print(m, ks) == ks[0] + "=" + rest
    ensures if |ks| == 1 then ks[0] in m && rest == m[ks[0]] else '=' in rest
  {
    var n := |ks| - 1;
    assert ks == ks[..n] + [ks[n]] && ks[0] in ks;
    if n == 0 {
      rest := m[ks[0]];
    } else {
      PrintStep(m, ks, ks[..n], ks[n]);
      var front := PrintShape(m, ks[..n]);
      rest := front + "," + Entry(m, ks[n]);
      JoinLeft(ks[0] + "=", front, "," + Entry(m, ks[n]));
      EntryHasSeparator(m, ks[n]);
    }
  }

  lemma JoinLeft(a: string, b: string, c: string)
    ensures a + b + c == a + (b + c)
  {
  }

  lemma EntryHasSeparator(m: Data, k: string)
    requires k in m
    ensures '=' in Entry(m, k)
  {
    assert Entry(m, k)[|k|] == '=';
  }

  /** A text with one separator splits in one way. */
  lemma OneSeparator(k: string, v: string, a: string, b: string)
    requires '=' !in k && '=' !in v && k + "=" + v == a + "=" + b
    ensures a == k && b == v
  {
    var s := k + "=" + v;
    forall i | 0 <= i < |s| && i != |k| ensures s[i] != '=' {
      if i < |k| {
        assert s[i] == k[i];
      } else {
        assert s[i] == v[i - |k| - 1];
      }
    }
    assert (a + "=" + b)[|a|] == '=';
    assert a == s[..|a|] && k == s[..|k|] && b == s[|a| + 1..] && v == s[|k| + 1..];
  }

  /** A text with a separator, cut at one. */
  lemma CutAtSeparator(s: string) returns (a: string, b: string)
    requires '=' in s
    ensures s == a + "=" + b
  {
    var i :| 0 <= i < |s| && s[i] == '=';
    a, b := s[..i], s[i + 1..];
  }

  predicate HasSeparator(m: Data) {
    exists k :: k in m && ('=' in k || '=' in m[k])
  }

  lemma ListingOfOne(m: Data, k: string)
    requires |m| == 1 && k in m
    ensures m == map[k := m[k]] && Canonical(m) == k + "=" + m[k]
  {
    assert |m.Keys - {k}| == 0;
    assert m.Keys == {k};
    OneEntryPrints(m, k);
  }

  /** What a canonical string looks like. */
  lemma CanonicalShape(m: Data) returns (k: string, rest: string)
    requires |m| > 0
    ensures k in m && Canonical(m) == k + "=" + rest
    ensures if |m| == 1 then m == map[k := rest] else '=' in rest
  {
    var ks := Listing(m.Keys);
    EmptyListing(ks, m.Keys);
    k := ks[0];
    assert k in ks;
    rest := PrintShape(m, ks);
    if |ks| == 1 {
      assert m.Keys == {k};
    }
    if |m| == 1 {
      ListingOfOne(m, k);
      OneEntryText(k, m[k], rest);
    }
  }

  lemma OneEntryText(k: string, v: string, rest: string)
    requires k + "=" + v == k + "=" + rest
    ensures v == rest
  {
    assert v == (k + "=" + v)[|k| + 1..] && rest == (k + "=" + rest)[|k| + 1..];
  }

  lemma OneEntryOther(k: string, v: string)
    ensures Canonical(map[k := v]) == k + "=" + v
  {
    var m: Data := map[k := v];
    OneEntryPrints(m, k);
  }

  /** A map with two entries, or a separator somewhere, and another one with its string. */
  lemma SharingPartner(m: Data) returns (o: Data)
    requires |m| >= 2 || HasSeparator(m)
    ensures o != m && Canonical(o) == Canonical(m)
  {
    var k, rest := CanonicalShape(m);
    if |m| >= 2 {
      o := map[k := rest];
      OneEntryOther(k, rest);
    } else if '=' in k {
      var a, b := CutAtSeparator(k);
      o := map[a := b + "=" + rest];
      OneEntryOther(a, b + "=" + rest);
      JoinLeft(a + "=", b, "=" + rest);
      assert a in o && a != k;
    } else {
      var a, b := CutAtSeparator(rest);
      o := map[k + "=" + a := b];
      OneEntryOther(k + "=" + a, b);
      JoinLeft(k + "=", a, "=" + b);
      assert k + "=" + a in o && k + "=" + a != k;
    }
  }

  /** A map with at most one entry and no separator in it has its string to itself. */
  lemma AloneWhenSimple(m: Data, o: Data)
    requires |m| < 2 && !HasSeparator(m) && Canonical(o) == Canonical(m)
    ensures o == m
  {
    if |m| == 0 {
      EmptyCanonical(m);
      if |o| > 0 {
        var k, rest := CanonicalShape(o);
        assert false;
      }
    } else {
      var k, v := CanonicalShape(m);
      assert '=' !in k && '=' !in m[k];
      if |o| == 0 {
        EmptyCanonical(o);
        assert false;
      }
      var a, b := CanonicalShape(o);
      OneSeparator(k, v, a, b);
    }
  }

  /** Exactly the maps that share their string with another map: those with two entries or more, documented ones included,
      and those with a separator in a key or value. */
  lemma SharesStringIff(m: Data)
    ensures (exists o: Data :: o != m && Canonical(o) == Canonical(m)) <==>
      |m| >= 2 || exists k :: k in m && ('=' in k || '=' in m[k])
  {
    if |m| >= 2 || HasSeparator(m) {
      var o := SharingPartner(m);
    } else {
      forall o: Data | Canonical(o) == Canonical(m) ensures o == m {
        AloneWhenSimple(m, o);
      }
    }
  }

  // ----- the object

  class SelectorSet {
    var data: Data
    var cached: string

    /** The cache is either not filled or the canonical string of the data. */
    ghost predicate Valid()
      reads this
    {
      cached == "" || cached == Canonical(data)
    }

    constructor (m: Data)
      ensures Valid() && data == m && cached == ""
    {
      data := m;
      cached := "";
    }

    /** Filling the cache from whatever order the map is iterated in. */
    method Cache()
      requires Valid()
      modifies this`cached
      ensures cached == Canonical(data)
      ensures exists ks :: InCharOrder(ks, data.Keys) && AllIn(ks, data) && cached == Print(data, ks)
    {
      ListsIff(Listing(data.Keys), data.Keys);
      if |data| == 0 {
        EmptyCanonical(data);
        return;
      }
      if cached == "" {
        var keySlice: seq<string> := [];
        var todo := data.Keys;
        while todo != {}
          invariant NoRepeats(keySlice) && todo <= data.Keys
          invariant forall k :: k in keySlice <==> k in data.Keys && k !in todo
        {
          var k :| k in todo;
          keySlice := keySlice + [k];
          todo := todo - {k};
        }
        SortLists(keySlice);
        keySlice := Sort(keySlice);
        ListingIsUnique(keySlice, Listing(data.Keys), data.Keys);
        cached := BuildString(data, keySlice);
      }
    }

    method Fill(str: string) returns (ok: bool)
      modifies this
      ensures ok <==> Parse(str).Some?
      ensures ok ==> data == Parse(str).value && cached == "" && Valid()
      ensures !ok ==> data == old(data) && cached == old(cached)
    {
      var m := Some(map[]);
      var s := Trim(str);
      if s != "" {
        m := FillParts(Split(s, ','));
      }
      ok := m.Some?;
      if ok {
        data := m.value;
        cached := "";
      }
    }
  }

  /** The parsing loop of Fill: it stops at the first part without a separator. */
  method FillParts(splits: seq<string>) returns (r: Option<Data>)
    ensures r == ParseAll(splits)
  {
    var m: Data := map[];
    for i := 0 to |splits|
      invariant ParseAll(splits[..i]) == Some(m)
    {
      assert splits[..i + 1][..i] == splits[..i];
      var kv := ParsePart(splits[i]);
      if kv == None {
        ParseStops(splits, i);
        return None;
      }
      m := m[kv.value.0 := kv.value.1];
    }
    assert splits[..|splits|] == splits;
    r := Some(m);
  }

  lemma EmptyCanonical(m: Data)
    requires |m| == 0
    ensures Canonical(m) == ""
  {
    var ks := Listing(m.Keys);
    assert m == map[];
    EmptyListing(ks, m.Keys);
  }

  lemma {:induction false} ParseStops(parts: seq<string>, i: nat)
    requires i < |parts| && ParsePart(parts[i]) == None
    ensures ParseAll(parts) == None
  {
    if i < |parts| - 1 {
      ParseStops(parts[..|parts| - 1], i);
    }
  }

  method BuildString(m: Data, ks: seq<string>) returns (buf: string)
    requires ks != [] && AllIn(ks, m)
    ensures buf == Print(m, ks)
  {
    assert ks[0] in ks;
    buf := ks[0] + "=" + m[ks[0]];
    assert ks[..1] == [ks[0]];
    for i := 1 to |ks|
      invariant buf == Print(m, ks[..i])
    {
      assert ks[i] in ks && ks[..i + 1][..i] == ks[..i] && AllIn(ks[..i + 1], m);
      buf := buf + "," + ks[i] + "=" + m[ks[i]];
      assert Print(m, ks[..i]) + "," + ks[i] + "=" + m[ks[i]] == Print(m, ks[..i]) + "," + Entry(m, ks[i]);
    }
    assert ks[..|ks|] == ks;
  }
}
