/** Rotation never strands a key: every step keeps the key store's invariant, and loading gives back what was stored. */
module KeyRotation {
  import opened Wrappers
  import opened KeyMaterial
  import opened VersionTable
  import opened KeyStore
  import Decimal
  import Envelope

  // ----- what every step keeps for the calls under way

  predicate SamePlain(y: Sys, z: Sys) {
    forall id :: id in y.plain1 ==> id in z.plain1 && z.plain1[id] == y.plain1[id]
  }

  ghost predicate VersionsGrow<T>(was: Rows<T>, now: Rows<T>) {
    forall name: string {:trigger MaxVersion(now, name)} :: MaxVersion(was, name) <= MaxVersion(now, name)
  }

  predicate TypesStay(was: Rows<Body2>, now: Rows<Body2>) {
    forall id :: id in was ==> id in now && now[id].name == was[id].name && now[id].body.keyType == was[id].body.keyType
  }

  ghost predicate Grows(y: Sys, z: Sys) {
    && SamePlain(y, z) && Extends(y.everRoot, z.everRoot)
    && VersionsGrow(y.l1.rows, z.l1.rows) && VersionsGrow(y.l2.rows, z.l2.rows)
    && TypesStay(y.l2.rows, z.l2.rows) && OneType(z.l2.rows)
  }

  lemma SeenStays(was: Rows<Body2>, now: Rows<Body2>, name: string, kt: int, seen: int)
    requires SeenOk(was, name, kt, seen) && VersionsGrow(was, now) && TypesStay(was, now) && OneType(now)
    ensures SeenOk(now, name, kt, seen)
  {
    assert MaxVersion(was, name) <= MaxVersion(now, name);
    if seen > 0 {
      assert MaxVersion(was, name) in Versions(was, name);
      var a :| a in was && was[a].name == name && was[a].version == MaxVersion(was, name);
      assert now[a].name == name && now[a].body.keyType == kt;
    }
  }

  lemma SealStays(c: Crypto, y: Sys, z: Sys, l1: int, text: string, plain: Binary)
    requires SealedUnder(c, y.plain1, l1, text, plain) && SamePlain(y, z)
    ensures SealedUnder(c, z.plain1, l1, text, plain)
  {
  }

  lemma RowStaysSealed(c: Crypto, y: Sys, z: Sys, body: Body2, secret: Secret)
    requires RowSealed(c, y.plain1, body, secret) && SamePlain(y, z)
    ensures RowSealed(c, z.plain1, body, secret)
  {
    SealStays(c, y, z, body.useKeyId, body.text, BytesOf(c, secret));
  }

  lemma RowStaysOpen(c: Crypto, was: RootKeys, now: RootKeys, body: Body1, plain: Binary)
    requires RowOpens(c, was, body, plain) && Extends(was, now)
    ensures RowOpens(c, now, body, plain)
  {
    LargerOpens(c, was, now, body.text);
  }

  lemma PendingStays(c: Crypto, y: Sys, z: Sys, p: Pending)
    requires PendingOk(c, y, p) && Grows(y, z)
    ensures PendingOk(c, z, p)
  {
    match p
    case Token(_, _, _) =>
    case Planned1(name, _, _) =>
      assert MaxVersion(y.l1.rows, name) <= MaxVersion(z.l1.rows, name);
    case Ready1(name, plain, _, useKeyId, text) =>
      assert MaxVersion(y.l1.rows, name) <= MaxVersion(z.l1.rows, name);
      RowStaysOpen(c, y.everRoot, z.everRoot, Body1(useKeyId, text), plain);
    case Bound(_, secret, l1, text) =>
      SealStays(c, y, z, l1, text, BytesOf(c, secret));
    case Typed(_, name, _, kt, seen) =>
      SeenStays(y.l2.rows, z.l2.rows, name, kt, seen);
    case Ready2(name, secret, kt, seen, l1, text) =>
      SeenStays(y.l2.rows, z.l2.rows, name, kt, seen);
      SealStays(c, y, z, l1, text, BytesOf(c, secret));
  }

  lemma PendingsStay(c: Crypto, y: Sys, z: Sys)
    requires PendingsOk(c, y) && Grows(y, z)
    requires forall op :: op in z.pending ==> op in y.pending && z.pending[op] == y.pending[op]
    ensures PendingsOk(c, z)
  {
    forall op | op in z.pending ensures PendingOk(c, z, z.pending[op]) {
      PendingStays(c, y, z, y.pending[op]);
    }
  }

  // ----- steps that only plan

  lemma PendKeepsInv(c: Crypto, y: Sys, op: OpId, p: Pending)
    requires SysInv(c, y) && PendingOk(c, y, p)
    ensures SysInv(c, Pend(y, op, p))
  {
    var z := Pend(y, op, p);
    forall o | o in z.pending ensures PendingOk(c, z, z.pending[o]) {
      PendingStays(c, y, z, z.pending[o]);
    }
  }

  lemma DropKeepsInv(c: Crypto, y: Sys, op: OpId)
    requires SysInv(c, y)
    ensures SysInv(c, Drop(y, op))
  {
    PendingsStay(c, y, Drop(y, op));
  }

  lemma UseRootKeepsInv(c: Crypto, y: Sys, p: Provider)
    requires SysInv(c, y) && KeepsRoots(y, p)
    ensures SysInv(c, UseRoot(y, p))
  {
    var z := UseRoot(y, p);
    forall id | id in z.l1.rows ensures RowOpens(c, z.everRoot, z.l1.rows[id].body, z.plain1[id]) {
      RowStaysOpen(c, y.everRoot, z.everRoot, y.l1.rows[id].body, y.plain1[id]);
    }
    PendingsStay(c, y, z);
  }

  lemma RootSealRow(c: Crypto, p: Provider, nonce: Binary, plain: Binary)
    requires Lawful(c) && p.Valid() && RootSeal(c, p, nonce, plain).Some?
    ensures RowOpens(c, p.keySets, Body1(Decimal.Print(p.latest), RootSeal(c, p, nonce, plain).value), plain)
  {
    RootSealOpens(c, p, nonce, plain);
  }

  lemma SetupKeepsInv(c: Crypto, y: Sys, op: OpId, p: Provider, nonce: Binary)
    requires Lawful(c) && SysInv(c, y) && KeepsRoots(y, p)
    ensures SysInv(c, DoSetup(c, y, op, p, nonce))
  {
    if Versions(y.l1.rows, TOKEN_NAME) != {} {
      UseRootKeepsInv(c, y, p);
    } else if RootSeal(c, p, nonce, TokenBytes()).Some? {
      RootSealRow(c, p, nonce, TokenBytes());
      PendKeepsInv(c, y, op, Token(p, Decimal.Print(p.latest), RootSeal(c, p, nonce, TokenBytes()).value));
    }
  }

  lemma MaxIsNat<T>(t: Table<T>, name: string)
    requires TableOk(t)
    ensures MaxVersion(t.rows, name) >= 0
  {
    VersionFits(t, name);
  }

  lemma Plan1KeepsInv(c: Crypto, y: Sys, op: OpId, name: string, key: KeySet)
    requires SysInv(c, y)
    ensures SysInv(c, DoPlan1(c, y, op, name, key))
  {
    if name != TOKEN_NAME && VerifyCrc(c, key) {
      MaxIsNat(y.l1, name);
      PendKeepsInv(c, y, op, Planned1(name, c.marshal(key), MaxVersion(y.l1.rows, name)));
    }
  }

  /** The root in use seals rows that every root key ever used, its own included, opens. */
  lemma Seal1KeepsInv(c: Crypto, y: Sys, op: OpId, nonce: Binary)
    requires Lawful(c) && SysInv(c, y) && op in y.pending && y.pending[op].Planned1?
    ensures SysInv(c, DoSeal1(c, y, op, nonce))
  {
    DropKeepsInv(c, y, op);
    var p := y.pending[op];
    if y.root.Some? {
      var root := y.root.value;
      var sealed := RootSeal(c, root, nonce, p.plain);
      if sealed.Some? {
        RootSealRow(c, root, nonce, p.plain);
        PendKeepsInv(c, y, op, Ready1(p.name, p.plain, p.seen, Decimal.Print(root.latest), sealed.value));
      }
    }
  }

  /** A level-1 key that loads, and the envelope it seals. */
  lemma WrapL2Seals(c: Crypto, y: Sys, l1: int, nonce: Binary, plain: Binary)
    requires Lawful(c) && SysInv(c, y) && l1 in y.l1.rows && WrapL2(c, y, l1, nonce, plain).Some?
    ensures SealedUnder(c, y.plain1, l1, WrapL2(c, y, l1, nonce, plain).value, plain)
  {
    if y.root.Some? {
      L1Loads(c, y, l1);
      WrapContains(c, Envelope.Base64Text, l1, LoadL1(c, y, l1).value, nonce, plain);
    }
  }

  lemma BindWithKeepsInv(c: Crypto, y: Sys, op: OpId, l1: int, name: string, key: KeySet, wrapped: Option<string>)
    requires SysInv(c, y) && VerifyCrc(c, key)
    requires wrapped.Some? ==> SealedUnder(c, y.plain1, l1, wrapped.value, c.marshal(key))
    ensures SysInv(c, BindWith(y, op, l1, name, key, wrapped))
  {
    if wrapped.Some? {
      BoundIsOk(c, y, l1, name, key, wrapped.value);
      PendKeepsInv(c, y, op, Bound(name, Keys(key), l1, wrapped.value));
    }
  }

  lemma BindKeepsInv(c: Crypto, y: Sys, op: OpId, l1: int, name: string, key: KeySet, nonce: Binary)
    requires Lawful(c) && SysInv(c, y) && l1 in y.l1.rows
    ensures SysInv(c, DoBind(c, y, op, l1, name, key, nonce))
  {
    if name != TOKEN_NAME && VerifyCrc(c, key) {
      var wrapped := Sealed(c, y, l1, nonce, c.marshal(key));
      BindWithKeepsInv(c, y, op, l1, name, key, wrapped);
    }
  }

  lemma Sealed(c: Crypto, y: Sys, l1: int, nonce: Binary, plain: Binary) returns (wrapped: Option<string>)
    requires Lawful(c) && SysInv(c, y) && l1 in y.l1.rows
    ensures wrapped == WrapL2(c, y, l1, nonce, plain)
    ensures wrapped.Some? ==> SealedUnder(c, y.plain1, l1, wrapped.value, plain)
  {
    wrapped := WrapL2(c, y, l1, nonce, plain);
    if wrapped.Some? {
      WrapL2Seals(c, y, l1, nonce, plain);
    }
  }

  lemma BoundIsOk(c: Crypto, y: Sys, l1: int, name: string, key: KeySet, text: string)
    requires VerifyCrc(c, key) && SealedUnder(c, y.plain1, l1, text, c.marshal(key))
    ensures PendingOk(c, y, Bound(name, Keys(key), l1, text))
  {
  }

  lemma SeesIsSeen(t: Table<Body2>, name: string, initial: int, kt: int, seen: int)
    requires TableOk(t) && OneType(t.rows) && SeesType(t.rows, name, initial, kt, seen)
    ensures SeenOk(t.rows, name, kt, seen)
  {
    VersionFits(t, name);
    if Versions(t.rows, name) != {} {
      var id :| id in t.rows && t.rows[id].name == name && t.rows[id].version == MaxVersion(t.rows, name) == seen
                && t.rows[id].body.keyType == kt;
    }
  }

  lemma SeeKeepsInv(c: Crypto, y: Sys, op: OpId, kt: int, seen: int)
    requires SysInv(c, y) && Enabled(y, See(op, kt, seen))
    ensures SysInv(c, DoSee(y, op, kt, seen))
  {
    var p := y.pending[op];
    if RotationAllowed(kt, KEY_KEY_SET) {
      SeesIsSeen(y.l2, p.name, KEY_KEY_SET, kt, seen);
      assert PendingOk(c, y, p);
      PendKeepsInv(c, y, op, Ready2(p.name, p.secret, kt, seen, p.l1, p.text));
    } else {
      DropKeepsInv(c, y, op);
    }
  }

  lemma PlanDataKeepsInv(c: Crypto, y: Sys, op: OpId, l1name: string, name: string, kind: int, bytes: Binary, kt: int, seen: int)
    requires SysInv(c, y) && SeesType(y.l2.rows, name, kind, kt, seen)
    ensures SysInv(c, DoPlanData(y, op, l1name, name, kind, bytes, kt, seen))
  {
    if RotationAllowed(kt, kind) {
      SeesIsSeen(y.l2, name, kind, kt, seen);
      PendKeepsInv(c, y, op, Typed(l1name, name, Raw(kind, bytes), kt, seen));
    }
  }

  lemma BindDataKeepsInv(c: Crypto, y: Sys, op: OpId, l1: int, nonce: Binary)
    requires Lawful(c) && SysInv(c, y) && l1 in y.l1.rows && op in y.pending && y.pending[op].Typed?
    ensures SysInv(c, DoBindData(c, y, op, l1, nonce))
  {
    var p := y.pending[op];
    assert PendingOk(c, y, p);
    var text := WrapL2(c, y, l1, nonce, BytesOf(c, p.secret));
    if text.Some? {
      WrapL2Seals(c, y, l1, nonce, BytesOf(c, p.secret));
      PendKeepsInv(c, y, op, Ready2(p.name, p.secret, p.kt, p.seen, l1, text.value));
    } else {
      DropKeepsInv(c, y, op);
    }
  }

  // ----- commits

  lemma RotateGrows<T>(t: Table<T>, name: string, version: int, body: T)
    requires IdsOk(t) && version == MaxVersion(t.rows, name) + 1
    ensures VersionsGrow(t.rows, Rotate(t, name, version, body).rows)
  {
    var now := Rotate(t, name, version, body).rows;
    forall n: string ensures MaxVersion(t.rows, n) <= MaxVersion(now, n) {
      MaxAfter(t, name, version, body, n);
    }
  }

  function Stored1(y: Sys, name: string, body: Body1, plain: Binary): Sys {
    y.(l1 := Rotate(y.l1, name, MaxVersion(y.l1.rows, name) + 1, body), plain1 := y.plain1[y.l1.next := plain])
  }

  lemma L1Extends(c: Crypto, y: Sys, z: Sys, id: int, row: Row<Body1>, plain: Binary)
    requires L1Ok(c, y) && Adds(y.l1.rows, id, row, z.l1.rows) && RowOpens(c, y.everRoot, row.body, plain)
    requires row.name == TOKEN_NAME ==> plain == TokenBytes()
    requires z.everRoot == y.everRoot && z.plain1 == y.plain1[id := plain]
    ensures L1Ok(c, z) && SamePlain(y, z)
  {
  }

  lemma Stored1KeepsTables(c: Crypto, y: Sys, name: string, body: Body1, plain: Binary)
    requires TablesOk(c, y) && y.l1.next <= Decimal.MAX_INT64 && RowOpens(c, y.everRoot, body, plain)
    requires name == TOKEN_NAME ==> plain == TokenBytes()
    ensures TablesOk(c, Stored1(y, name, body, plain)) && SamePlain(y, Stored1(y, name, body, plain))
  {
    var z := Stored1(y, name, body, plain);
    var version := MaxVersion(y.l1.rows, name) + 1;
    RotateKeepsOk(y.l1, name, version, body);
    RotateAdds(y.l1, name, version, body);
    L1Extends(c, y, z, y.l1.next, Row(name, version, true, body), plain);
    L2StaysOk(c, y, z);
    NewestStays(y, z);
  }

  lemma NewestStays(y: Sys, z: Sys)
    requires NewestOk(y) && z.l2 == y.l2 && z.newest == y.newest
    ensures NewestOk(z)
  {
  }

  lemma L2StaysOk(c: Crypto, y: Sys, z: Sys)
    requires L2Ok(c, y) && SamePlain(y, z) && z.l2 == y.l2 && z.secrets == y.secrets
    ensures L2Ok(c, z)
  {
    forall id | id in z.l2.rows ensures RowSealed(c, z.plain1, z.l2.rows[id].body, z.secrets[id]) {
      RowStaysSealed(c, y, z, y.l2.rows[id].body, y.secrets[id]);
    }
  }

  lemma Stored1VersionsGrow(y: Sys, name: string, body: Body1, plain: Binary)
    requires IdsOk(y.l1)
    ensures VersionsGrow(y.l1.rows, Stored1(y, name, body, plain).l1.rows)
  {
    RotateGrows(y.l1, name, MaxVersion(y.l1.rows, name) + 1, body);
  }

  lemma Stored1Frame(y: Sys, name: string, body: Body1, plain: Binary)
    ensures var z := Stored1(y, name, body, plain);
      z.everRoot == y.everRoot && z.l2 == y.l2 && z.pending == y.pending
  {
  }

  lemma Stored1KeepsPendings(c: Crypto, y: Sys, name: string, body: Body1, plain: Binary)
    requires PendingsOk(c, y) && IdsOk(y.l1) && OneType(y.l2.rows) && SamePlain(y, Stored1(y, name, body, plain))
    ensures PendingsOk(c, Stored1(y, name, body, plain))
  {
    Stored1VersionsGrow(y, name, body, plain);
    Stored1Frame(y, name, body, plain);
    PendingsStayByL1(c, y, Stored1(y, name, body, plain));
  }

  lemma PendingsStayByL1(c: Crypto, y: Sys, z: Sys)
    requires PendingsOk(c, y) && SamePlain(y, z) && z.everRoot == y.everRoot && z.l2 == y.l2 && OneType(y.l2.rows)
    requires VersionsGrow(y.l1.rows, z.l1.rows) && z.pending == y.pending
    ensures PendingsOk(c, z)
  {
    GrowsByL1(y, z);
    PendingsStay(c, y, z);
  }

  lemma GrowsByL1(y: Sys, z: Sys)
    requires SamePlain(y, z) && z.everRoot == y.everRoot && z.l2 == y.l2 && OneType(y.l2.rows)
    requires VersionsGrow(y.l1.rows, z.l1.rows)
    ensures Grows(y, z)
  {
  }

  lemma Stored1KeepsInv(c: Crypto, y: Sys, name: string, body: Body1, plain: Binary)
    requires SysInv(c, y) && y.l1.next <= Decimal.MAX_INT64 && RowOpens(c, y.everRoot, body, plain)
    requires name == TOKEN_NAME ==> plain == TokenBytes()
    ensures SysInv(c, Stored1(y, name, body, plain))
  {
    Stored1KeepsTables(c, y, name, body, plain);
    Stored1KeepsPendings(c, y, name, body, plain);
    RootFrame(y, Stored1(y, name, body, plain));
  }

  lemma RefuseKeepsOk<T>(t: Table<T>)
    requires TableOk(t)
    ensures TableOk(Refuse(t))
  {
  }

  lemma Refuse1KeepsInv(c: Crypto, y: Sys)
    requires SysInv(c, y)
    ensures SysInv(c, y.(l1 := Refuse(y.l1)))
  {
    RefuseKeepsOk(y.l1);
    PendingsStay(c, y, y.(l1 := Refuse(y.l1)));
  }

  lemma Refuse2KeepsInv(c: Crypto, y: Sys)
    requires SysInv(c, y)
    ensures SysInv(c, y.(l2 := Refuse(y.l2)))
  {
    RefuseKeepsOk(y.l2);
    PendingsStay(c, y, y.(l2 := Refuse(y.l2)));
  }

  lemma FinishTokenIs(y: Sys, op: OpId)
    requires op in y.pending && y.pending[op].Token? && IdsOk(y.l1)
    ensures var p := y.pending[op];
      DoFinish(y, op) ==
      if !CanInsert(y.l1, TOKEN_NAME, 1) then Drop(y, op).(l1 := Refuse(y.l1))
      else if MaxVersion(y.l1.rows, TOKEN_NAME) == 0 then
        Stored1(UseRoot(Drop(y, op), p.provider), TOKEN_NAME, Body1(p.useKeyId, p.text), TokenBytes())
      else DoFinish(y, op)
  {
    var p := y.pending[op];
    FirstInsert(y.l1, TOKEN_NAME, Body1(p.useKeyId, p.text));
  }

  lemma FinishTokenKeepsInv(c: Crypto, y: Sys, op: OpId)
    requires SysInv(c, y) && op in y.pending && y.pending[op].Token? && KeepsRoots(y, y.pending[op].provider)
    ensures SysInv(c, DoFinish(y, op))
  {
    var p := y.pending[op];
    assert PendingOk(c, y, p);
    FinishTokenIs(y, op);
    DropKeepsInv(c, y, op);
    if CanInsert(y.l1, TOKEN_NAME, 1) {
      MaxIsNat(y.l1, TOKEN_NAME);
      InsertIsNext(y.l1, TOKEN_NAME, 0);
      UseRootKeepsInv(c, Drop(y, op), p.provider);
      Stored1KeepsInv(c, UseRoot(Drop(y, op), p.provider), TOKEN_NAME, Body1(p.useKeyId, p.text), TokenBytes());
    } else {
      Refuse1KeepsInv(c, Drop(y, op));
    }
  }

  lemma Finish1Is(y: Sys, op: OpId)
    requires op in y.pending && y.pending[op].Ready1?
    ensures var p := y.pending[op];
      DoFinish(y, op) ==
      if !CanInsert(y.l1, p.name, p.seen + 1) then Drop(y, op).(l1 := Refuse(y.l1))
      else if p.seen == MaxVersion(y.l1.rows, p.name) then
        Stored1(Drop(y, op), p.name, Body1(p.useKeyId, p.text), p.plain)
      else DoFinish(y, op)
  {
  }

  lemma Finish1KeepsInv(c: Crypto, y: Sys, op: OpId)
    requires SysInv(c, y) && op in y.pending && y.pending[op].Ready1?
    ensures SysInv(c, DoFinish(y, op))
  {
    var p := y.pending[op];
    assert PendingOk(c, y, p);
    Finish1Is(y, op);
    DropKeepsInv(c, y, op);
    if CanInsert(y.l1, p.name, p.seen + 1) {
      InsertIsNext(y.l1, p.name, p.seen);
      Stored1KeepsInv(c, Drop(y, op), p.name, Body1(p.useKeyId, p.text), p.plain);
    } else {
      Refuse1KeepsInv(c, Drop(y, op));
    }
  }

  function Stored2(y: Sys, name: string, body: Body2, secret: Secret): Sys {
    y.(l2 := Rotate(y.l2, name, MaxVersion(y.l2.rows, name) + 1, body),
       secrets := y.secrets[y.l2.next := secret], newest := y.newest[name := y.l2.next])
  }

  predicate Storable(c: Crypto, y: Sys, name: string, body: Body2, secret: Secret) {
    && y.l2.next <= Decimal.MAX_INT64 && RowSealed(c, y.plain1, body, secret)
    && forall id :: id in y.l2.rows && y.l2.rows[id].name == name ==> y.l2.rows[id].body.keyType == body.keyType
  }

  lemma L2Extends(c: Crypto, y: Sys, z: Sys, id: int, row: Row<Body2>, secret: Secret)
    requires L2Ok(c, y) && Adds(y.l2.rows, id, row, z.l2.rows) && RowSealed(c, y.plain1, row.body, secret)
    requires z.plain1 == y.plain1 && z.secrets == y.secrets[id := secret]
    ensures L2Ok(c, z)
  {
  }

  lemma TypesExtend(was: Rows<Body2>, now: Rows<Body2>, id: int, row: Row<Body2>)
    requires OneType(was) && Adds(was, id, row, now)
    requires forall o :: o in was && was[o].name == row.name ==> was[o].body.keyType == row.body.keyType
    ensures OneType(now) && TypesStay(was, now)
  {
  }

  lemma NewestExtends(y: Sys, z: Sys, id: int, row: Row<Body2>)
    requires NewestOk(y) && Adds(y.l2.rows, id, row, z.l2.rows) && z.newest == y.newest[row.name := id]
    requires forall n: string {:trigger MaxVersion(z.l2.rows, n)} ::
      MaxVersion(z.l2.rows, n) == if n == row.name then row.version else MaxVersion(y.l2.rows, n)
    ensures NewestOk(z)
  {
    forall n | n in z.newest
      ensures z.newest[n] in z.l2.rows && z.l2.rows[z.newest[n]].name == n
      ensures z.l2.rows[z.newest[n]].version == MaxVersion(z.l2.rows, n)
    {
      if n != row.name {
        var o := y.newest[n];
        assert n in y.newest && z.newest[n] == o && o in y.l2.rows;
        assert y.l2.rows[o].name == n && y.l2.rows[o].version == MaxVersion(y.l2.rows, n);
        assert z.l2.rows[o].name == y.l2.rows[o].name && z.l2.rows[o].version == y.l2.rows[o].version;
      } else {
        assert z.newest[n] == id && z.l2.rows[id] == row;
      }
    }
    forall o | o in z.l2.rows ensures z.l2.rows[o].name in z.newest {
      if o != id {
        assert o in y.l2.rows;
      }
    }
  }

  lemma Stored2KeepsTables(c: Crypto, y: Sys, name: string, body: Body2, secret: Secret)
    requires TablesOk(c, y) && Storable(c, y, name, body, secret)
    ensures TablesOk(c, Stored2(y, name, body, secret))
    ensures TypesStay(y.l2.rows, Stored2(y, name, body, secret).l2.rows)
  {
    var z := Stored2(y, name, body, secret);
    var version := MaxVersion(y.l2.rows, name) + 1;
    var row := Row(name, version, true, body);
    RotateKeepsOk(y.l2, name, version, body);
    RotateAdds(y.l2, name, version, body);
    L2Extends(c, y, z, y.l2.next, row, secret);
    TypesExtend(y.l2.rows, z.l2.rows, y.l2.next, row);
    forall n: string
      ensures MaxVersion(z.l2.rows, n) == if n == name then version else MaxVersion(y.l2.rows, n)
    {
      MaxAfter(y.l2, name, version, body, n);
    }
    NewestExtends(y, z, y.l2.next, row);
  }

  lemma Stored2KeepsPendings(c: Crypto, y: Sys, name: string, body: Body2, secret: Secret)
    requires PendingsOk(c, y) && IdsOk(y.l2) && OneType(Stored2(y, name, body, secret).l2.rows)
    requires TypesStay(y.l2.rows, Stored2(y, name, body, secret).l2.rows)
    ensures PendingsOk(c, Stored2(y, name, body, secret))
  {
    Stored2Grows(y, name, body, secret);
    PendingsStay(c, y, Stored2(y, name, body, secret));
  }

  lemma Stored2Grows(y: Sys, name: string, body: Body2, secret: Secret)
    requires IdsOk(y.l2) && OneType(Stored2(y, name, body, secret).l2.rows)
    requires TypesStay(y.l2.rows, Stored2(y, name, body, secret).l2.rows)
    ensures Grows(y, Stored2(y, name, body, secret))
  {
    Stored2VersionsGrow(y, name, body, secret);
    GrowsByL2(y, Stored2(y, name, body, secret));
  }

  lemma Stored2VersionsGrow(y: Sys, name: string, body: Body2, secret: Secret)
    requires IdsOk(y.l2)
    ensures VersionsGrow(y.l2.rows, Stored2(y, name, body, secret).l2.rows)
  {
    RotateGrows(y.l2, name, MaxVersion(y.l2.rows, name) + 1, body);
  }

  lemma GrowsByL2(y: Sys, z: Sys)
    requires z.plain1 == y.plain1 && z.everRoot == y.everRoot && z.l1 == y.l1
    requires VersionsGrow(y.l2.rows, z.l2.rows) && TypesStay(y.l2.rows, z.l2.rows) && OneType(z.l2.rows)
    ensures Grows(y, z)
  {
  }

  lemma Stored2KeepsInv(c: Crypto, y: Sys, name: string, body: Body2, secret: Secret)
    requires SysInv(c, y) && Storable(c, y, name, body, secret)
    ensures SysInv(c, Stored2(y, name, body, secret))
  {
    Stored2KeepsTables(c, y, name, body, secret);
    Stored2KeepsPendings(c, y, name, body, secret);
    RootFrame(y, Stored2(y, name, body, secret));
  }

  lemma RootFrame(y: Sys, z: Sys)
    requires RootOk(y) && z.root == y.root && z.everRoot == y.everRoot
    ensures RootOk(z)
  {
  }

  /** What is ready to be inserted may be inserted, when nobody rotated in between. */
  lemma ReadyIsStorable(c: Crypto, y: Sys, p: Pending)
    requires SysInv(c, y) && p.Ready2? && PendingOk(c, y, p) && Named(p.kt) && CanInsert(y.l2, p.name, p.seen + 1)
    ensures p.seen == MaxVersion(y.l2.rows, p.name)
    ensures Storable(c, y, p.name, Body2(p.l1, p.kt, p.text), p.secret)
  {
    InsertIsNext(y.l2, p.name, p.seen);
    NoRowsAtZero(y.l2, p.name);
  }

  lemma Finish2Is(y: Sys, op: OpId)
    requires op in y.pending && y.pending[op].Ready2?
    ensures var p := y.pending[op];
      DoFinish(y, op) ==
      if !Named(p.kt) then Drop(y, op)
      else if !CanInsert(y.l2, p.name, p.seen + 1) then Drop(y, op).(l2 := Refuse(y.l2))
      else if p.seen == MaxVersion(y.l2.rows, p.name) then
        Stored2(Drop(y, op), p.name, Body2(p.l1, p.kt, p.text), p.secret)
      else DoFinish(y, op)
  {
  }

  lemma StorableAfterDrop(c: Crypto, y: Sys, op: OpId, name: string, body: Body2, secret: Secret)
    requires Storable(c, y, name, body, secret)
    ensures Storable(c, Drop(y, op), name, body, secret)
  {
  }

  lemma Finish2KeepsInv(c: Crypto, y: Sys, op: OpId)
    requires SysInv(c, y) && op in y.pending && y.pending[op].Ready2?
    ensures SysInv(c, DoFinish(y, op))
  {
    var p := y.pending[op];
    assert PendingOk(c, y, p);
    Finish2Is(y, op);
    DropKeepsInv(c, y, op);
    if Named(p.kt) {
      if CanInsert(y.l2, p.name, p.seen + 1) {
        ReadyIsStorable(c, y, p);
        StorableAfterDrop(c, y, op, p.name, Body2(p.l1, p.kt, p.text), p.secret);
        Stored2KeepsInv(c, Drop(y, op), p.name, Body2(p.l1, p.kt, p.text), p.secret);
      } else {
        Refuse2KeepsInv(c, Drop(y, op));
      }
    }
  }

  lemma NoRowsAtZero<T>(t: Table<T>, name: string)
    requires IdsOk(t)
    ensures MaxVersion(t.rows, name) <= 0 ==> forall id :: id in t.rows ==> t.rows[id].name != name
  {
    assert forall id :: id in t.rows && t.rows[id].name == name ==> t.rows[id].version in Versions(t.rows, name);
  }

  lemma RestartKeepsInv(c: Crypto, y: Sys)
    requires SysInv(c, y)
    ensures SysInv(c, y.(root := None, pending := map[]))
  {
  }

  // ----- theorems

  lemma StepKeepsInv(c: Crypto, y: Sys, step: Step)
    requires Lawful(c) && SysInv(c, y) && Enabled(y, step)
    ensures SysInv(c, Do(c, y, step))
  {
    match step
    case Setup(op, p, nonce) => SetupKeepsInv(c, y, op, p, nonce);
    case Plan1(op, name, key) => Plan1KeepsInv(c, y, op, name, key);
    case Seal1(op, nonce) => Seal1KeepsInv(c, y, op, nonce);
    case Bind(op, _, l1, name, key, nonce) => BindKeepsInv(c, y, op, l1, name, key, nonce);
    case See(op, kt, seen) => SeeKeepsInv(c, y, op, kt, seen);
    case PlanData(op, l1name, name, kind, bytes, kt, seen) =>
      PlanDataKeepsInv(c, y, op, l1name, name, kind, bytes, kt, seen);
    case BindData(op, l1, nonce) => BindDataKeepsInv(c, y, op, l1, nonce);
    case Finish(op) => FinishKeepsInv(c, y, op);
    case Abandon(op) => DropKeepsInv(c, y, op);
    case Restart => RestartKeepsInv(c, y);
  }

  lemma FinishKeepsInv(c: Crypto, y: Sys, op: OpId)
    requires SysInv(c, y) && Enabled(y, Finish(op))
    ensures SysInv(c, DoFinish(y, op))
  {
    if y.pending[op].Token? {
      FinishTokenKeepsInv(c, y, op);
    } else if y.pending[op].Ready1? {
      Finish1KeepsInv(c, y, op);
    } else if y.pending[op].Ready2? {
      Finish2KeepsInv(c, y, op);
    }
  }

  predicate Follows(c: Crypto, y: Sys, steps: seq<Step>)
    decreases |steps|
  {
    steps == [] || (Enabled(y, steps[0]) && Follows(c, Do(c, y, steps[0]), steps[1..]))
  }

  function Run(c: Crypto, y: Sys, steps: seq<Step>): Sys
    requires Follows(c, y, steps)
    decreases |steps|
  {
    if steps == [] then y else Run(c, Do(c, y, steps[0]), steps[1..])
  }

  lemma {:induction false} RunKeepsInv(c: Crypto, y: Sys, steps: seq<Step>)
    requires Lawful(c) && SysInv(c, y) && Follows(c, y, steps)
    ensures SysInv(c, Run(c, y, steps))
    decreases |steps|
  {
    if steps != [] {
      StepKeepsInv(c, y, steps[0]);
      RunKeepsInv(c, Do(c, y, steps[0]), steps[1..]);
    }
  }

  lemma Reachable(c: Crypto, steps: seq<Step>)
    requires Lawful(c) && Follows(c, START, steps)
    ensures SysInv(c, Run(c, START, steps))
  {
    RunKeepsInv(c, START, steps);
  }

  /** Nothing stored ever changes or disappears, by any step. */
  lemma StepKeepsSecrets(c: Crypto, y: Sys, step: Step, id: int)
    requires SysInv(c, y) && Enabled(y, step) && id in y.secrets
    ensures id in Do(c, y, step).secrets && Do(c, y, step).secrets[id] == y.secrets[id]
  {
    if step.Finish? {
      IdsBelowNext(c, y, id);
      FinishKeepsSecrets(y, step.op, id);
    } else {
      OnlyFinishStores(c, y, step);
    }
  }

  lemma IdsBelowNext(c: Crypto, y: Sys, id: int)
    requires TablesOk(c, y) && id in y.secrets
    ensures id != y.l2.next
  {
    assert id in y.l2.rows;
  }

  lemma FinishKeepsSecrets(y: Sys, op: OpId, id: int)
    requires op in y.pending && id in y.secrets && id != y.l2.next
    ensures id in DoFinish(y, op).secrets && DoFinish(y, op).secrets[id] == y.secrets[id]
  {
  }

  /** Tables and history are as they were. */
  predicate SameTables(y: Sys, z: Sys) {
    z.l1 == y.l1 && z.l2 == y.l2 && z.plain1 == y.plain1 && z.secrets == y.secrets && z.newest == y.newest
  }

  /** A step of one call that only plans: other calls' plans and the tables are as they were, and so is an unsealed
      store. */
  ghost predicate PlansOnly(y: Sys, z: Sys, op: OpId) {
    && SameTables(y, z) && (y.root.Some? ==> z.root.Some?)
    && forall o :: o != op ==> (o in y.pending <==> o in z.pending) && (o in y.pending ==> z.pending[o] == y.pending[o])
  }

  lemma SetupPlans(c: Crypto, y: Sys, op: OpId, p: Provider, nonce: Binary)
    requires p.latest in p.keySets
    ensures PlansOnly(y, DoSetup(c, y, op, p, nonce), op)
  {
    var sealed := RootSeal(c, p, nonce, TokenBytes());
    SetupShape(c, y, op, p, nonce);
    PlanShapes(y, op, Token(p, Decimal.Print(p.latest), if sealed.Some? then sealed.value else ""), p);
  }

  lemma SetupShape(c: Crypto, y: Sys, op: OpId, p: Provider, nonce: Binary)
    requires p.latest in p.keySets
    ensures var sealed := RootSeal(c, p, nonce, TokenBytes());
      || DoSetup(c, y, op, p, nonce) == y || DoSetup(c, y, op, p, nonce) == UseRoot(y, p)
      || (sealed.Some? && DoSetup(c, y, op, p, nonce) == Pend(y, op, Token(p, Decimal.Print(p.latest), sealed.value)))
  {
  }

  lemma PlanShapes(y: Sys, op: OpId, q: Pending, p: Provider)
    ensures PlansOnly(y, y, op) && PlansOnly(y, UseRoot(y, p), op) && PlansOnly(y, Pend(y, op, q), op)
  {
  }

  lemma Plan1Plans(c: Crypto, y: Sys, op: OpId, name: string, key: KeySet)
    ensures PlansOnly(y, DoPlan1(c, y, op, name, key), op)
  {
  }

  lemma Seal1Plans(c: Crypto, y: Sys, op: OpId, nonce: Binary)
    requires op in y.pending && y.pending[op].Planned1?
    ensures PlansOnly(y, DoSeal1(c, y, op, nonce), op)
  {
  }

  lemma BindPlans(c: Crypto, y: Sys, op: OpId, l1: int, name: string, key: KeySet, nonce: Binary)
    ensures PlansOnly(y, DoBind(c, y, op, l1, name, key, nonce), op)
  {
  }

  lemma SeePlans(y: Sys, op: OpId, kt: int, seen: int)
    requires op in y.pending && y.pending[op].Bound?
    ensures PlansOnly(y, DoSee(y, op, kt, seen), op)
  {
  }

  lemma DataPlans(y: Sys, op: OpId, l1name: string, name: string, kind: int, bytes: Binary, kt: int, seen: int)
    ensures PlansOnly(y, DoPlanData(y, op, l1name, name, kind, bytes, kt, seen), op)
  {
  }

  lemma BindDataPlans(c: Crypto, y: Sys, op: OpId, l1: int, nonce: Binary)
    requires op in y.pending && y.pending[op].Typed?
    ensures PlansOnly(y, DoBindData(c, y, op, l1, nonce), op)
  {
  }

  predicate IsPlanning(step: Step) {
    !step.Finish? && !step.Restart?
  }

  lemma PlanningOnly(c: Crypto, y: Sys, step: Step)
    requires Enabled(y, step) && IsPlanning(step)
    ensures PlansOnly(y, Do(c, y, step), step.op)
  {
    match step
    case Setup(op, p, nonce) => SetupPlans(c, y, op, p, nonce);
    case Plan1(op, name, key) => Plan1Plans(c, y, op, name, key);
    case Seal1(op, nonce) => Seal1Plans(c, y, op, nonce);
    case Bind(op, _, l1, name, key, nonce) => BindPlans(c, y, op, l1, name, key, nonce);
    case See(op, kt, seen) => SeePlans(y, op, kt, seen);
    case PlanData(op, l1name, name, kind, bytes, kt, seen) => DataPlans(y, op, l1name, name, kind, bytes, kt, seen);
    case BindData(op, l1, nonce) => BindDataPlans(c, y, op, l1, nonce);
    case Abandon(op) =>
  }

  /** Only the commit of a call changes the tables. */
  lemma OnlyFinishStores(c: Crypto, y: Sys, step: Step)
    requires Enabled(y, step) && !step.Finish?
    ensures SameTables(y, Do(c, y, step))
  {
    if !step.Restart? {
      PlanningOnly(c, y, step);
    }
  }

  lemma {:induction false} RunKeepsSecrets(c: Crypto, y: Sys, steps: seq<Step>, id: int)
    requires Lawful(c) && SysInv(c, y) && Follows(c, y, steps) && id in y.secrets
    ensures id in Run(c, y, steps).secrets && Run(c, y, steps).secrets[id] == y.secrets[id]
    decreases |steps|
  {
    if steps != [] {
      StepKeepsInv(c, y, steps[0]);
      StepKeepsSecrets(c, y, steps[0], id);
      RunKeepsSecrets(c, Do(c, y, steps[0]), steps[1..], id);
    }
  }

  /** Rotation never strands a key: whatever calls, rotations, root changes and restarts come before and after, an
      unsealed store loads every level-2 key with exactly the type and bytes stored under its id, and a stored key
      set as that key set. */
  lemma NeverStranded(c: Crypto, before: seq<Step>, after: seq<Step>, id: int)
    requires Lawful(c) && Follows(c, START, before) && Follows(c, Run(c, START, before), after)
    requires id in Run(c, START, before).secrets && Run(c, Run(c, START, before), after).root.Some?
    ensures var secret := Run(c, START, before).secrets[id];
      var z := Run(c, Run(c, START, before), after);
      && LoadL2(c, z, id) == Some((TypeOf(secret), BytesOf(c, secret)))
      && (secret.Keys? ==> LoadL2KeySet(c, z, id) == Some(secret.keys))
  {
    var y := Run(c, START, before);
    Reachable(c, before);
    RunKeepsInv(c, y, after);
    RunKeepsSecrets(c, y, after, id);
    L2Loads(c, Run(c, y, after), id);
  }

  /** Fetching by name finds exactly the newest row: the last one stored under the name, if there ever was one. */
  lemma FetchFindsNewest(c: Crypto, steps: seq<Step>, name: string, id: int)
    requires Lawful(c) && Follows(c, START, steps)
    ensures var y := Run(c, START, steps);
      IsActiveTop(y.l2.rows, name, id) <==> name in y.newest && y.newest[name] == id
  {
    Reachable(c, steps);
    var y := Run(c, START, steps);
    ActiveTopIs(y.l2, name, id);
    if name in y.newest {
      assert y.l2.rows[y.newest[name]].version == MaxVersion(y.l2.rows, name);
    }
  }

  /** Under any interleaving of rotations each name has versions 1..n on one row each, exactly the newest is active,
      all level-2 rows of a name share one type, and each level-2 row names a present level-1 row, the one its
      envelope names. */
  lemma VersionsAndLinks(c: Crypto, steps: seq<Step>, name: string)
    requires Lawful(c) && Follows(c, START, steps)
    ensures var y := Run(c, START, steps);
      && (forall v :: v in Versions(y.l1.rows, name) <==> 1 <= v <= MaxVersion(y.l1.rows, name))
      && (forall v :: v in Versions(y.l2.rows, name) <==> 1 <= v <= MaxVersion(y.l2.rows, name))
      && VersionsUnique(y.l1.rows) && VersionsUnique(y.l2.rows) && NewestActive(y.l1.rows) && NewestActive(y.l2.rows)
      && OneType(y.l2.rows)
      && forall id :: id in y.l2.rows ==>
           && y.l2.rows[id].body.useKeyId in y.l1.rows
           && Envelope.Parse(Envelope.Base64Text, y.l2.rows[id].body.text).Some?
           && Envelope.Parse(Envelope.Base64Text, y.l2.rows[id].body.text).value.id == y.l2.rows[id].body.useKeyId
  {
    Reachable(c, steps);
    var y := Run(c, START, steps);
    VersionsAreDense(y.l1, name);
    VersionsAreDense(y.l2, name);
    forall id | id in y.l2.rows
      ensures y.l2.rows[id].body.useKeyId in y.l1.rows
      ensures Envelope.Parse(Envelope.Base64Text, y.l2.rows[id].body.text).Some?
      ensures Envelope.Parse(Envelope.Base64Text, y.l2.rows[id].body.text).value.id == y.l2.rows[id].body.useKeyId
    {
      assert RowSealed(c, y.plain1, y.l2.rows[id].body, y.secrets[id]);
    }
  }

  /** Exactly how far the promise reaches when root keys are dropped instead: a level-2 key still loads if and only
      if the one root key that its level-1 row's envelope names was kept. */
  lemma LoadsIffRootKept(c: Crypto, y: Sys, p: Provider, id: int)
    requires SysInv(c, y) && id in y.l2.rows
    requires forall k :: k in y.everRoot && k in p.keySets ==> p.keySets[k] == y.everRoot[k]
    ensures var row1 := y.l1.rows[y.l2.rows[id].body.useKeyId];
      RootId(row1.body.text).Some?
      && (LoadL2(c, y.(root := Some(p)), id) == Some((TypeOf(y.secrets[id]), BytesOf(c, y.secrets[id])))
          <==> RootId(row1.body.text).value in p.keySets)
  {
    var body := y.l2.rows[id].body;
    var z := y.(root := Some(p));
    assert RowSealed(c, y.plain1, body, y.secrets[id]);
    assert RowOpens(c, y.everRoot, y.l1.rows[body.useKeyId].body, y.plain1[body.useKeyId]);
    OpensIffKept(c, y.everRoot, p.keySets, y.l1.rows[body.useKeyId].body.text);
    LoadsThrough(c, z, id, y.plain1[body.useKeyId], BytesOf(c, y.secrets[id]));
  }

  /** A level-2 row loads exactly when its level-1 row opens to the key set that sealed it. */
  lemma LoadsThrough(c: Crypto, z: Sys, id: int, plain1: Binary, bytes: Binary)
    requires id in z.l2.rows && z.l2.rows[id].body.useKeyId in z.l1.rows && c.unmarshal(plain1).Some?
    requires Contains(c, Envelope.Base64Text, z.l2.rows[id].body.text, z.l2.rows[id].body.useKeyId,
                      c.unmarshal(plain1).value, bytes)
    ensures var found := RootOpen(c, RootKeysOf(z), z.l1.rows[z.l2.rows[id].body.useKeyId].body.text);
      && (found == Some(plain1) ==> LoadL2(c, z, id) == Some((z.l2.rows[id].body.keyType, bytes)))
      && (found == None ==> LoadL2(c, z, id) == None)
  {
  }

  /** A restarted store with a stored token is unsealed by every provider that keeps the root keys used before. */
  lemma RestartCanUnseal(c: Crypto, steps: seq<Step>, op: OpId, p: Provider, nonce: Binary)
    requires Lawful(c) && Follows(c, START, steps + [Restart]) && KeepsRoots(Run(c, START, steps + [Restart]), p)
    requires Versions(Run(c, START, steps + [Restart]).l1.rows, TOKEN_NAME) != {}
    ensures DoSetup(c, Run(c, START, steps + [Restart]), op, p, nonce).root == Some(p)
  {
    var y := Run(c, START, steps + [Restart]);
    Reachable(c, steps + [Restart]);
    TokenStillOpens(c, y, p);
  }

  /** The root key the token of a row was sealed with is provided. */
  predicate TokenKeyKept(row: Row<Body1>, p: Provider) {
    RootId(row.body.text).Some? && RootId(row.body.text).value in p.keySets
  }

  /** Exactly which providers unseal a sealed store that has a token: those that keep the root key it was sealed with. */
  lemma UnsealsIffTokenKeyKept(c: Crypto, y: Sys, op: OpId, p: Provider, nonce: Binary)
    requires SysInv(c, y) && y.root == None && p.latest in p.keySets && Versions(y.l1.rows, TOKEN_NAME) != {}
    requires forall k :: k in y.everRoot && k in p.keySets ==> p.keySets[k] == y.everRoot[k]
    ensures DoSetup(c, y, op, p, nonce).root == Some(p) <==>
      forall id :: id in y.l1.rows && y.l1.rows[id].name == TOKEN_NAME ==> TokenKeyKept(y.l1.rows[id], p)
  {
    forall id | id in y.l1.rows && y.l1.rows[id].name == TOKEN_NAME
      ensures RootOpen(c, p.keySets, y.l1.rows[id].body.text) == Some(TokenBytes()) <==> TokenKeyKept(y.l1.rows[id], p)
    {
      assert RowOpens(c, y.everRoot, y.l1.rows[id].body, y.plain1[id]);
      OpensIffKept(c, y.everRoot, p.keySets, y.l1.rows[id].body.text);
    }
  }

  lemma TokenStillOpens(c: Crypto, y: Sys, p: Provider)
    requires L1Ok(c, y) && KeepsRoots(y, p)
    ensures TokenOpens(c, y.l1.rows, p)
  {
    forall id | id in y.l1.rows && y.l1.rows[id].name == TOKEN_NAME
      ensures RootOpen(c, p.keySets, y.l1.rows[id].body.text) == Some(TokenBytes())
    {
      RowStaysOpen(c, y.everRoot, p.keySets, y.l1.rows[id].body, y.plain1[id]);
    }
  }
}
