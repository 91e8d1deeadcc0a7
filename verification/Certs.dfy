/**
 The certificate table and its two chain walks (configure/secretimpl/secret.pg.cert.go,
 configure/secretserver/controller.cert.manage.go), and the serial numbers they go by (configure/secretapi/cert.go).
 */
module Certs {
  import opened Wrappers
  import opened Bytes
  import VersionTable

  // ----- serial numbers

  /** The shortest big-endian form, as big.Int.Bytes gives it: nothing for zero. */
  function MinBytes(n: nat): (bs: seq<Byte>)
    ensures bs != [] ==> bs[0] != 0
    ensures bs == [] <==> n == 0
  {
    if n == 0 then [] else MinBytes(n / 256) + [n % 256]
  }

  function Abs(i: int): nat {
    if i < 0 then -i else i
  }

  /** The sign is not kept. */
  function FromBigInt(i: int): string {
    Hex(MinBytes(Abs(i)))
  }

  function ToBigInt(sn: string): Option<nat> {
    match UnHex(sn)
    case None => None
    case Some(bs) => Some(Value(bs))
  }

  lemma {:induction false} ValueOfMinBytes(n: nat)
    ensures Value(MinBytes(n)) == n
  {
    if n > 0 {
      ValueOfMinBytes(n / 256);
      assert MinBytes(n)[..|MinBytes(n)| - 1] == MinBytes(n / 256);
    }
  }

  lemma {:induction false} MinBytesOfValue(bs: seq<Byte>)
    requires bs != [] ==> bs[0] != 0
    ensures MinBytes(Value(bs)) == bs
  {
    if bs != [] {
      var front := bs[..|bs| - 1];
      MinBytesOfValue(front);
      assert bs == front + [bs[|bs| - 1]];
      if front != [] {
        assert MinBytes(Value(front)) != [];
      }
      assert Value(bs) / 256 == Value(front) && Value(bs) % 256 == bs[|bs| - 1];
      assert Value(bs) > 0;
    }
  }

  /** A serial number text gives back the number it was made from, up to its sign, and no two numbers share one. */
  lemma SerialRoundTrip(i: int, j: int)
    ensures ToBigInt(FromBigInt(i)) == Some(Abs(i))
    ensures FromBigInt(i) == FromBigInt(j) <==> Abs(i) == Abs(j)
  {
    UnHexOfHex(MinBytes(Abs(i)));
    UnHexOfHex(MinBytes(Abs(j)));
    ValueOfMinBytes(Abs(i));
    ValueOfMinBytes(Abs(j));
  }

  /** The text of some bytes is what its number prints to exactly when no zero byte leads. */
  lemma CanonicalSerial(bs: seq<Byte>)
    ensures ToBigInt(Hex(bs)) == Some(Value(bs))
    ensures FromBigInt(Value(bs)) == Hex(bs) <==> (bs != [] ==> bs[0] != 0)
  {
    UnHexOfHex(bs);
    if bs != [] ==> bs[0] != 0 {
      MinBytesOfValue(bs);
    }
    HexInjective(MinBytes(Value(bs)), bs);
  }

  // ----- the table

  datatype Cert = Cert(serial: int, content: seq<Byte>)

  /** The id a certificate is stored under. */
  function Sn(cert: Cert): string {
    FromBigInt(cert.serial)
  }

  /** birth is history: how many rows there were before this one. */
  datatype Row = Row(kind: int, name: string, version: int, active: bool, parent: string, cert: Cert, birth: nat)

  type Table = map<string, Row>

  const ROOT_KIND := 1

  const MAX_LEVELS := 10

  function Versions(t: Table, kind: int, name: string): (vs: set<int>)
    ensures forall id :: id in t && t[id].kind == kind && t[id].name == name ==> t[id].version in vs
  {
    set id | id in t && t[id].kind == kind && t[id].name == name :: t[id].version
  }

  function MaxVersion(t: Table, kind: int, name: string): (m: int)
    ensures Versions(t, kind, name) == {} ==> m == 0
    ensures Versions(t, kind, name) != {} ==> m in Versions(t, kind, name)
    ensures forall v :: v in Versions(t, kind, name) ==> v <= m
  {
    var vs := Versions(t, kind, name);
    if vs == {} then 0
    else
      VersionTable.MaxExists(vs);
      var m :| m in vs && forall x :: x in vs ==> x <= m;
      m
  }

  function ParentFor(kind: int, caSn: string): string {
    if kind == ROOT_KIND then "" else caSn
  }

  /** saveInternal when no other save overlaps: archive every row of the type and name, insert the next version; the
      primary key may refuse. */
  function Save(t: Table, kind: int, name: string, caSn: string, cert: Cert): Option<Table> {
    var id := Sn(cert);
    if id in t then None
    else
      var archived := map o | o in t ::
        if t[o].kind == kind && t[o].name == name then t[o].(active := false) else t[o];
      Some(archived[id := Row(kind, name, MaxVersion(t, kind, name) + 1, true, ParentFor(kind, caSn), cert, |t|)])
  }

  // ----- the invariant

  predicate IdsOk(t: Table) {
    forall id {:trigger IdMatches(t, id)} :: id in t ==> IdMatches(t, id)
  }

  predicate IdMatches(t: Table, id: string)
    requires id in t
  {
    id == Sn(t[id].cert) && t[id].birth < |t|
  }

  /** Each row names no parent or one stored before it. */
  predicate ParentsOk(t: Table) {
    forall id {:trigger ParentStored(t, id)} :: id in t ==> ParentStored(t, id)
  }

  predicate ParentStored(t: Table, id: string)
    requires id in t
  {
    t[id].parent != "" ==> t[id].parent in t && t[t[id].parent].birth < t[id].birth
  }

  /** One row per type, name and version; active is exactly the newest. */
  predicate UniqueVersions(t: Table) {
    forall a, b :: a in t && b in t && a != b && t[a].kind == t[b].kind && t[a].name == t[b].name ==>
      t[a].version != t[b].version
  }

  predicate VersionsOk(t: Table) {
    && UniqueVersions(t)
    && (forall a :: a in t ==> (t[a].active <==> t[a].version == MaxVersion(t, t[a].kind, t[a].name)))
  }

  predicate WellFormed(t: Table) {
    IdsOk(t) && ParentsOk(t) && VersionsOk(t)
  }

  /** z is t with one more row; only statuses of other rows may differ. */
  predicate Adds(t: Table, id: string, row: Row, z: Table) {
    && id !in t && z.Keys == t.Keys + {id} && z[id] == row
    && forall o :: o in t ==> z[o] == t[o].(active := z[o].active)
  }

  lemma SaveAdds(t: Table, kind: int, name: string, caSn: string, cert: Cert)
    requires Save(t, kind, name, caSn, cert).Some?
    ensures Adds(t, Sn(cert), Row(kind, name, MaxVersion(t, kind, name) + 1, true, ParentFor(kind, caSn), cert, |t|),
                 Save(t, kind, name, caSn, cert).value)
  {
  }

  lemma AddsSize(t: Table, id: string, row: Row, z: Table)
    requires Adds(t, id, row, z)
    ensures |z| == |t| + 1
  {
    assert |z.Keys| == |t.Keys| + 1;
  }

  lemma AddsIds(t: Table, id: string, row: Row, z: Table)
    requires IdsOk(t) && Adds(t, id, row, z) && id == Sn(row.cert) && row.birth == |t|
    ensures IdsOk(z)
  {
    AddsSize(t, id, row, z);
    forall o | o in z ensures IdMatches(z, o) {
      assert o == id || (o in t && IdMatches(t, o));
    }
  }

  lemma AddsParentsIff(t: Table, id: string, row: Row, z: Table)
    requires IdsOk(t) && ParentsOk(t) && Adds(t, id, row, z) && row.birth == |t|
    ensures ParentsOk(z) <==> row.parent == "" || row.parent in t
  {
    if row.parent == "" || row.parent in t {
      forall o | o in z ensures ParentStored(z, o) {
        if o != id {
          assert o in t && ParentStored(t, o);
        } else if row.parent != "" {
          assert IdMatches(t, row.parent);
        }
      }
    } else {
      assert z[id] == row && (row.parent == id || row.parent !in z) && !ParentStored(z, id);
    }
  }

  lemma AddsVersions(t: Table, id: string, row: Row, z: Table, k: int, n: string)
    requires Adds(t, id, row, z)
    ensures Versions(z, k, n) == Versions(t, k, n) + if k == row.kind && n == row.name then {row.version} else {}
  {
    forall v | v in Versions(t, k, n) ensures v in Versions(z, k, n) {
      var o :| o in t && t[o].kind == k && t[o].name == n && t[o].version == v;
      assert z[o].kind == k && z[o].name == n && z[o].version == v;
    }
    forall v | v in Versions(z, k, n)
      ensures v in Versions(t, k, n) || (k == row.kind && n == row.name && v == row.version)
    {
      var o :| o in z && z[o].kind == k && z[o].name == n && z[o].version == v;
      assert o == id || (o in t && t[o].kind == k && t[o].name == n && t[o].version == v);
    }
    if k == row.kind && n == row.name {
      assert z[id].version in Versions(z, k, n);
    }
  }

  lemma AddsMax(t: Table, id: string, row: Row, z: Table, k: int, n: string)
    requires Adds(t, id, row, z) && row.version == MaxVersion(t, row.kind, row.name) + 1
    ensures MaxVersion(z, k, n) == if k == row.kind && n == row.name then row.version else MaxVersion(t, k, n)
  {
    AddsVersions(t, id, row, z, k, n);
  }

  /** A newer version makes every row of its type and name inactive but itself. */
  lemma SaveKeepsActive(t: Table, kind: int, name: string, caSn: string, cert: Cert, a: string)
    requires VersionsOk(t) && Save(t, kind, name, caSn, cert).Some? && a in Save(t, kind, name, caSn, cert).value
    ensures var z := Save(t, kind, name, caSn, cert).value;
      z[a].active <==> z[a].version == MaxVersion(z, z[a].kind, z[a].name)
  {
    var z := Save(t, kind, name, caSn, cert).value;
    var row := Row(kind, name, MaxVersion(t, kind, name) + 1, true, ParentFor(kind, caSn), cert, |t|);
    SaveAdds(t, kind, name, caSn, cert);
    AddsMax(t, Sn(cert), row, z, z[a].kind, z[a].name);
    if a != Sn(cert) {
      assert a in t && t[a].version in Versions(t, t[a].kind, t[a].name);
    }
  }

  lemma AddsUnique(t: Table, id: string, row: Row, z: Table)
    requires UniqueVersions(t) && Adds(t, id, row, z) && row.version == MaxVersion(t, row.kind, row.name) + 1
    ensures UniqueVersions(z)
  {
    forall a | a in t && t[a].kind == row.kind && t[a].name == row.name ensures z[a].version < row.version {
      assert t[a].version in Versions(t, row.kind, row.name);
    }
    forall a, b | a in z && b in z && a != b && z[a].kind == z[b].kind && z[a].name == z[b].name
      ensures z[a].version != z[b].version
    {
      assert (a == id || a in t) && (b == id || b in t);
    }
  }

  lemma SaveKeepsVersions(t: Table, kind: int, name: string, caSn: string, cert: Cert)
    requires VersionsOk(t) && Save(t, kind, name, caSn, cert).Some?
    ensures VersionsOk(Save(t, kind, name, caSn, cert).value)
  {
    var z := Save(t, kind, name, caSn, cert).value;
    forall a | a in z ensures z[a].active <==> z[a].version == MaxVersion(z, z[a].kind, z[a].name) {
      SaveKeepsActive(t, kind, name, caSn, cert, a);
    }
    SaveAdds(t, kind, name, caSn, cert);
    AddsUnique(t, Sn(cert), Row(kind, name, MaxVersion(t, kind, name) + 1, true, ParentFor(kind, caSn), cert, |t|), z);
  }

  /** Saving keeps the table well formed exactly when the parent it records is stored already, or none. */
  lemma SaveKeepsIff(t: Table, kind: int, name: string, caSn: string, cert: Cert)
    requires WellFormed(t) && Save(t, kind, name, caSn, cert).Some?
    ensures WellFormed(Save(t, kind, name, caSn, cert).value)
      <==> ParentFor(kind, caSn) == "" || ParentFor(kind, caSn) in t
  {
    var z := Save(t, kind, name, caSn, cert).value;
    var row := Row(kind, name, MaxVersion(t, kind, name) + 1, true, ParentFor(kind, caSn), cert, |t|);
    SaveAdds(t, kind, name, caSn, cert);
    SaveKeepsVersions(t, kind, name, caSn, cert);
    AddsIds(t, Sn(cert), row, z);
    AddsParentsIff(t, Sn(cert), row, z);
  }

  // ----- the walks

  type Loaded<T> = Result<T, string>

  function LoadCertById(t: Table, sn: string): Loaded<Cert> {
    if sn in t then Ok(t[sn].cert) else Err("no rows in result set")
  }

  /** LoadParentCertByCertId: no certificate for a root. */
  function LoadParent(t: Table, sn: string): Loaded<Option<Cert>> {
    if sn !in t then Err("no rows in result set")
    else if t[sn].parent == "" then Ok(None)
    else
      match LoadCertById(t, t[sn].parent)
      case Ok(cert) => Ok(Some(cert))
      case Err(e) => Err(e)
  }

  function Birth(t: Table, sn: string): int {
    if sn in t then t[sn].birth else -1
  }

  /** recursiveRetrieveCerts, on a well-formed table; there it terminates. The result runs from the root down. */
  function RecursiveRetrieve(t: Table, cert: Cert, sn: string): Loaded<seq<Cert>>
    requires WellFormed(t)
    decreases Birth(t, sn) + 1
  {
    assert sn in t ==> ParentStored(t, sn) && (t[sn].parent != "" ==> IdMatches(t, t[sn].parent));
    match LoadParent(t, sn)
    case Err(e) => Err(e)
    case Ok(None) => Ok([cert])
    case Ok(Some(pcert)) =>
      match RecursiveRetrieve(t, pcert, Sn(pcert))
      case Err(e) => Err(e)
      case Ok(results) => Ok(results + [cert])
  }

  function Ancestors(t: Table, sn: string): nat
    requires WellFormed(t) && sn in t
    decreases t[sn].birth
  {
    assert ParentStored(t, sn);
    if t[sn].parent == "" then 0 else Ancestors(t, t[sn].parent) + 1
  }

  predicate Stored(t: Table, cert: Cert) {
    Sn(cert) in t && t[Sn(cert)].cert == cert
  }

  predicate Links(t: Table, child: Cert, parent: Cert) {
    Stored(t, child) && t[Sn(child)].parent == Sn(parent) != ""
  }

  predicate IsRoot(t: Table, cert: Cert) {
    Stored(t, cert) && t[Sn(cert)].parent == ""
  }

  /** From a certificate to its root, each the stored parent of the one before. */
  predicate IsChain(t: Table, chain: seq<Cert>) {
    && chain != [] && IsRoot(t, chain[|chain| - 1])
    && (forall i :: 0 <= i < |chain| ==> Stored(t, chain[i]))
    && (forall i, j :: 0 <= i && j == i + 1 < |chain| ==> Links(t, chain[i], chain[j]))
  }

  function Reverse<T>(s: seq<T>): (r: seq<T>)
    ensures |r| == |s| && forall i :: 0 <= i < |s| ==> r[i] == s[|s| - 1 - i]
  {
    if s == [] then [] else [s[|s| - 1]] + Reverse(s[..|s| - 1])
  }

  lemma ChainCons(t: Table, cert: Cert, rest: seq<Cert>)
    requires IsChain(t, rest) && Links(t, cert, rest[0])
    ensures IsChain(t, [cert] + rest)
  {
    var chain := [cert] + rest;
    forall i | 0 <= i < |chain| ensures Stored(t, chain[i]) {
      assert i > 0 ==> chain[i] == rest[i - 1];
    }
    forall i, j | 0 <= i && j == i + 1 < |chain| ensures Links(t, chain[i], chain[j]) {
      assert chain[j] == rest[i] && (i > 0 ==> chain[i] == rest[i - 1]);
    }
    assert chain[|chain| - 1] == rest[|rest| - 1];
  }

  lemma RowStored(t: Table, sn: string)
    requires IdsOk(t) && sn in t
    ensures Sn(t[sn].cert) == sn && Stored(t, t[sn].cert)
  {
    assert IdMatches(t, sn);
  }

  lemma ParentLoads(t: Table, sn: string)
    requires WellFormed(t) && sn in t && t[sn].parent != ""
    ensures var p := t[sn].parent;
      && p in t && t[p].birth < t[sn].birth && Sn(t[p].cert) == p && LoadParent(t, sn) == Ok(Some(t[p].cert))
      && Links(t, t[sn].cert, t[p].cert)
  {
    assert ParentStored(t, sn);
    RowStored(t, sn);
    RowStored(t, t[sn].parent);
  }

  /** What a walk adds to the result of the walk from the parent. */
  function Append(above: Loaded<seq<Cert>>, cert: Cert): Loaded<seq<Cert>> {
    match above
    case Err(e) => Err(e)
    case Ok(results) => Ok(results + [cert])
  }

  lemma RecursiveStep(t: Table, cert: Cert, sn: string)
    requires WellFormed(t) && sn in t && t[sn].parent != ""
    ensures var p := t[sn].parent;
      p in t && RecursiveRetrieve(t, cert, sn) == Append(RecursiveRetrieve(t, t[p].cert, p), cert)
  {
    ParentLoads(t, sn);
  }

  /** The recursive walk succeeds on every stored certificate and, reversed, is the chain from it to its root, one
      longer than the number of its ancestors. */
  lemma {:induction false} RecursiveIsChain(t: Table, sn: string)
    requires WellFormed(t) && sn in t
    ensures RecursiveRetrieve(t, t[sn].cert, sn).Ok?
    ensures var chain := Reverse(RecursiveRetrieve(t, t[sn].cert, sn).value);
      IsChain(t, chain) && chain[0] == t[sn].cert && |chain| == Ancestors(t, sn) + 1
    decreases t[sn].birth
  {
    if t[sn].parent == "" {
      RowStored(t, sn);
      assert RecursiveRetrieve(t, t[sn].cert, sn) == Ok([t[sn].cert]);
      assert Reverse([t[sn].cert]) == [t[sn].cert];
    } else {
      var p := t[sn].parent;
      ParentLoads(t, sn);
      RecursiveStep(t, t[sn].cert, sn);
      RecursiveIsChain(t, p);
      var results := RecursiveRetrieve(t, t[p].cert, p).value;
      assert Reverse(results + [t[sn].cert]) == [t[sn].cert] + Reverse(results);
      ChainCons(t, t[sn].cert, Reverse(results));
    }
  }

  /** The chain of a stored certificate, from the leaf up. */
  function ChainOf(t: Table, sn: string): (chain: seq<Cert>)
    requires WellFormed(t) && sn in t
    ensures RecursiveRetrieve(t, t[sn].cert, sn) == Ok(Reverse(chain))
    ensures |chain| == Ancestors(t, sn) + 1
  {
    RecursiveIsChain(t, sn);
    ReverseTwice(RecursiveRetrieve(t, t[sn].cert, sn).value);
    Reverse(RecursiveRetrieve(t, t[sn].cert, sn).value)
  }

  lemma ReverseTwice<T>(s: seq<T>)
    ensures Reverse(Reverse(s)) == s
  {
  }

  lemma ChainTail(t: Table, a: seq<Cert>)
    requires IsChain(t, a) && |a| > 1
    ensures IsChain(t, a[1..]) && Links(t, a[0], a[1])
  {
    forall i, j | 0 <= i && j == i + 1 < |a[1..]| ensures Links(t, a[1..][i], a[1..][j]) {
      assert Links(t, a[i + 1], a[j + 1]);
    }
  }

  /** There is only one chain from a certificate. */
  lemma {:induction false} ChainUnique(t: Table, a: seq<Cert>, b: seq<Cert>)
    requires IsChain(t, a) && IsChain(t, b) && a[0] == b[0]
    ensures a == b
  {
    if |a| > 1 {
      ChainTail(t, a);
    }
    if |b| > 1 {
      ChainTail(t, b);
    }
    if |a| > 1 && |b| > 1 {
      assert Stored(t, a[1]) && Stored(t, b[1]);
      ChainUnique(t, a[1..], b[1..]);
      assert a == [a[0]] + a[1..] && b == [b[0]] + b[1..];
    } else {
      assert |a| == 1 && |b| == 1;
    }
  }

  /** The newest row of a type and name. */
  predicate IsNewest(t: Table, kind: int, name: string, id: string) {
    id in t && t[id].kind == kind && t[id].name == name && t[id].version == MaxVersion(t, kind, name)
  }

  /** Certificates found before the rest of a walk. */
  function Below(certs: seq<Cert>, rest: Loaded<seq<Cert>>): Loaded<seq<Cert>> {
    match rest
    case Err(e) => Err(e)
    case Ok(more) => Ok(certs + more)
  }

  lemma BelowNothing(rest: Loaded<seq<Cert>>)
    ensures Below([], rest) == rest
  {
    if rest.Ok? {
      assert [] + rest.value == rest.value;
    }
  }

  lemma BelowBelow(certs: seq<Cert>, cert: Cert, rest: Loaded<seq<Cert>>)
    ensures Below(certs, Below([cert], rest)) == Below(certs + [cert], rest)
  {
    if rest.Ok? {
      assert certs + ([cert] + rest.value) == certs + [cert] + rest.value;
    }
  }

  /** The walk from a certificate up, with so many loads of a parent allowed. */
  function Climb(t: Table, cert: Cert, levels: nat): Loaded<seq<Cert>>
    decreases levels
  {
    if levels == 0 then Err("reaching max cert level")
    else
      match LoadParent(t, Sn(cert))
      case Err(e) => Err(e)
      case Ok(None) => Ok([cert])
      case Ok(Some(parent)) => Below([cert], Climb(t, parent, levels - 1))
  }

  /** On a chain the climb finds exactly the chain, when it is no longer than the levels allowed. */
  lemma {:induction false} ClimbFindsChain(t: Table, chain: seq<Cert>, levels: nat)
    requires IsChain(t, chain)
    ensures Climb(t, chain[0], levels) == if |chain| <= levels then Ok(chain) else Err("reaching max cert level")
    decreases levels
  {
    if levels > 0 {
      ChainLoads(t, chain, 0);
      if |chain| > 1 {
        ChainTail(t, chain);
        ClimbFindsChain(t, chain[1..], levels - 1);
        assert chain == [chain[0]] + chain[1..];
      } else {
        assert chain == [chain[0]];
      }
    }
  }

  /** Both walks agree on a well-formed table: the bounded one succeeds exactly for certificates with at most 9
      ancestors, and then returns the reverse of what the recursive one returns. */
  lemma WalksAgree(t: Table, id: string)
    requires WellFormed(t) && id in t
    ensures var bounded := Climb(t, t[id].cert, MAX_LEVELS);
      && (bounded.Ok? <==> Ancestors(t, id) <= 9)
      && (bounded.Ok? ==> RecursiveRetrieve(t, t[id].cert, id) == Ok(Reverse(bounded.value)))
  {
    RecursiveIsChain(t, id);
    ClimbFindsChain(t, ChainOf(t, id), MAX_LEVELS);
  }

  /** Along a chain each load finds the next certificate, and nothing at the end. */
  lemma ChainLoads(t: Table, chain: seq<Cert>, i: nat)
    requires IsChain(t, chain) && i < |chain|
    ensures LoadParent(t, Sn(chain[i])) == Ok(if i == |chain| - 1 then None else Some(chain[i + 1]))
  {
    assert Stored(t, chain[i]);
    if i < |chain| - 1 {
      assert Links(t, chain[i], chain[i + 1]) && Stored(t, chain[i + 1]);
    }
  }

  lemma NewestExists(t: Table, kind: int, name: string)
    ensures (forall id :: !IsNewest(t, kind, name, id)) <==> Versions(t, kind, name) == {}
  {
    if Versions(t, kind, name) != {} {
      var m := MaxVersion(t, kind, name);
      var id :| id in t && t[id].kind == kind && t[id].name == name && t[id].version == m;
      assert IsNewest(t, kind, name, id);
    }
    forall id | IsNewest(t, kind, name, id) ensures Versions(t, kind, name) != {} {
      assert t[id].version in Versions(t, kind, name);
    }
  }
}
