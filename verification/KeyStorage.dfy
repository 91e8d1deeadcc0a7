/** The calls of the key storage, each a few statements with any calls of others in between. */
module KeyStorage {
  import opened Wrappers
  import opened KeyMaterial
  import opened VersionTable
  import opened KeyStore
  import opened KeyRotation
  import opened KeyOverlap
  import Decimal

  /** Everything stored is still stored. */
  predicate Keeps(y: Sys, z: Sys) {
    forall id :: id in y.secrets ==> id in z.secrets && z.secrets[id] == y.secrets[id]
  }

  /** The secret is stored under the id, which is the newest of the name. */
  predicate StoredAs(y: Sys, id: int, name: string, secret: Secret) {
    id in y.secrets && y.secrets[id] == secret && name in y.newest && y.newest[name] == id
  }

  predicate PlansBound(y: Sys, op: OpId, name: string, secret: Secret) {
    op in y.pending && y.pending[op].Bound? && y.pending[op].name == name && y.pending[op].secret == secret
  }

  predicate PlansTyped(y: Sys, op: OpId, l1name: string, name: string, secret: Secret) {
    && op in y.pending && y.pending[op].Typed? && y.pending[op].l1name == l1name
    && y.pending[op].name == name && y.pending[op].secret == secret
  }

  predicate PlansReady1(y: Sys, op: OpId, name: string, plain: Binary) {
    op in y.pending && y.pending[op].Ready1? && y.pending[op].name == name && y.pending[op].plain == plain
  }

  predicate PlansReady(y: Sys, op: OpId, name: string, secret: Secret) {
    op in y.pending && y.pending[op].Ready2? && y.pending[op].name == name && y.pending[op].secret == secret
  }

  lemma BindPlansBound(c: Crypto, y: Sys, op: OpId, l1: int, name: string, key: KeySet, nonce: Binary)
    requires op !in y.pending
    ensures op in DoBind(c, y, op, l1, name, key, nonce).pending ==>
      PlansBound(DoBind(c, y, op, l1, name, key, nonce), op, name, Keys(key))
  {
  }

  lemma SeePlansReady(y: Sys, op: OpId, kt: int, seen: int)
    requires op in y.pending && y.pending[op].Bound?
    ensures op in DoSee(y, op, kt, seen).pending ==>
      PlansReady(DoSee(y, op, kt, seen), op, y.pending[op].name, y.pending[op].secret)
  {
  }

  lemma DataPlansTyped(y: Sys, op: OpId, l1name: string, name: string, kind: int, bytes: Binary, kt: int, seen: int)
    requires op !in y.pending
    ensures op in DoPlanData(y, op, l1name, name, kind, bytes, kt, seen).pending ==>
      PlansTyped(DoPlanData(y, op, l1name, name, kind, bytes, kt, seen), op, l1name, name, Raw(kind, bytes))
  {
  }

  lemma BindDataPlansReady(c: Crypto, y: Sys, op: OpId, l1: int, nonce: Binary)
    requires op in y.pending && y.pending[op].Typed?
    ensures op in DoBindData(c, y, op, l1, nonce).pending ==>
      PlansReady(DoBindData(c, y, op, l1, nonce), op, y.pending[op].name, y.pending[op].secret)
  {
  }

  /** What steps of others leave alone: this call's plan, and everything stored. */
  predicate Stable(y: Sys, z: Sys, op: OpId) {
    SamePlan(y, z, op) && SamePlain(y, z) && Keeps(y, z) && TablesStay(y, z)
  }

  // ----- why a call fails

  /** The cipher takes the key set's key for these bytes with no nonce or only with some. */
  ghost predicate SealRefused(c: Crypto, key: KeySet, plain: Binary) {
    exists nonce :: c.seal(key.aes256.bytes, nonce, plain) == None
  }

  /** There is no root key, or sealing with the latest one is refused. */
  ghost predicate CannotSeal(c: Crypto, y: Sys, plain: Binary) {
    match y.root
    case None => true
    case Some(p) => p.latest in p.keySets && SealRefused(c, p.keySets[p.latest], plain)
  }

  /** There is no level-1 key of the name, or the newest one is no key set, or sealing with it is refused. */
  ghost predicate CannotWrap(c: Crypto, y: Sys, l1name: string, plain: Binary) {
    || NamedIds(y.l1.rows, l1name) == {} || y.root == None
    || exists id :: IsActiveTop(y.l1.rows, l1name, id) && id in y.plain1 && WrapsNothing(c, y.plain1[id], plain)
  }

  ghost predicate WrapsNothing(c: Crypto, plain1: Binary, plain: Binary) {
    match c.unmarshal(plain1)
    case None => true
    case Some(key) => SealRefused(c, key, plain)
  }

  /** No serial id is left, or another row of the name was added since the rows were the given ones. */
  predicate CameLate<T>(was: Rows<T>, t: Table<T>, name: string) {
    t.next > Decimal.MAX_INT64 || NamedIds(t.rows, name) != NamedIds(was, name)
  }

  predicate OtherType(rows: Rows<Body2>, name: string, kind: int) {
    exists id :: id in rows && rows[id].name == name && rows[id].body.keyType != kind
  }

  lemma RefusedSeal(c: Crypto, y: Sys, root: Provider, nonce: Binary, plain: Binary)
    requires y.root == Some(root) && root.latest in root.keySets && RootSeal(c, root, nonce, plain) == None
    ensures CannotSeal(c, y, plain)
  {
    assert c.seal(root.keySets[root.latest].aes256.bytes, nonce, plain) == None;
  }

  lemma SealDrops(c: Crypto, y: Sys, op: OpId, nonce: Binary)
    requires RootOk(y) && op in y.pending && y.pending[op].Planned1? && op !in DoSeal1(c, y, op, nonce).pending
    ensures CannotSeal(c, y, y.pending[op].plain)
  {
    if y.root.Some? {
      RefusedSeal(c, y, y.root.value, nonce, y.pending[op].plain);
    }
  }

  lemma RefusedWrap(c: Crypto, y: Sys, l1name: string, id: int, nonce: Binary, plain: Binary)
    requires L1Ok(c, y) && RootOk(y) && IsActiveTop(y.l1.rows, l1name, id) && WrapL2(c, y, id, nonce, plain) == None
    ensures CannotWrap(c, y, l1name, plain)
  {
    if y.root.Some? {
      L1Loads(c, y, id);
      assert id in y.plain1.Keys;
      if LoadL1(c, y, id).Some? {
        assert c.seal(LoadL1(c, y, id).value.aes256.bytes, nonce, plain) == None;
      }
      assert WrapsNothing(c, y.plain1[id], plain);
    }
  }

  lemma BindDrops(c: Crypto, y: Sys, op: OpId, l1name: string, id: int, name: string, key: KeySet, nonce: Binary)
    requires L1Ok(c, y) && RootOk(y) && IsActiveTop(y.l1.rows, l1name, id) && op !in y.pending
    requires name != TOKEN_NAME && VerifyCrc(c, key) && op !in DoBind(c, y, op, id, name, key, nonce).pending
    ensures CannotWrap(c, y, l1name, c.marshal(key))
  {
    RefusedWrap(c, y, l1name, id, nonce, c.marshal(key));
  }

  lemma BindDataDrops(c: Crypto, y: Sys, op: OpId, l1name: string, id: int, nonce: Binary)
    requires L1Ok(c, y) && RootOk(y) && IsActiveTop(y.l1.rows, l1name, id) && op in y.pending && y.pending[op].Typed?
    requires op !in DoBindData(c, y, op, id, nonce).pending
    ensures CannotWrap(c, y, l1name, BytesOf(c, y.pending[op].secret))
  {
    RefusedWrap(c, y, l1name, id, nonce, BytesOf(c, y.pending[op].secret));
  }

  /** A name with rows has an active one. */
  lemma NoneActive<T>(t: Table<T>, name: string)
    requires TableOk(t) && forall id :: !IsActiveTop(t.rows, name, id)
    ensures NamedIds(t.rows, name) == {}
  {
    NamedHasVersion(t.rows, name);
    if Versions(t.rows, name) != {} {
      var m := MaxVersion(t.rows, name);
      var id :| id in t.rows && t.rows[id].name == name && t.rows[id].version == m;
      ActiveTopIs(t, name, id);
    }
  }

  lemma SeeDrops(y: Sys, op: OpId, kt: int, seen: int)
    requires Enabled(y, See(op, kt, seen)) && op !in DoSee(y, op, kt, seen).pending
    ensures OtherType(y.l2.rows, y.pending[op].name, KEY_KEY_SET)
  {
  }

  lemma DataDrops(y: Sys, op: OpId, l1name: string, name: string, kind: int, bytes: Binary, kt: int, seen: int)
    requires Enabled(y, PlanData(op, l1name, name, kind, bytes, kt, seen))
    requires op !in DoPlanData(y, op, l1name, name, kind, bytes, kt, seen).pending
    ensures kind == 0 || OtherType(y.l2.rows, name, kind)
  {
  }

  // ----- the version a call has read

  /** The call continues the highest version the name had in the given table; rows have stayed since. */
  ghost predicate SawVersion1(read: Table<Body1>, y: Sys, op: OpId, name: string) {
    && TableOk(read) && RowsStay(read.rows, y.l1.rows)
    && SeenBy(y, op) == Some(Seen(1, name, MaxVersion(read.rows, name)))
  }

  ghost predicate SawVersion2(read: Table<Body2>, y: Sys, op: OpId, name: string) {
    && TableOk(read) && RowsStay(read.rows, y.l2.rows)
    && SeenBy(y, op) == Some(Seen(2, name, MaxVersion(read.rows, name)))
  }

  lemma CameLate1(read: Table<Body1>, y: Sys, op: OpId, name: string)
    requires op in y.pending && y.pending[op].Ready1? && SawVersion1(read, y, op, name) && TableOk(y.l1)
    ensures y.pending[op].name == name
    ensures !CanInsert(y.l1, name, y.pending[op].seen + 1) <==> CameLate(read.rows, y.l1, name)
    ensures CameLate(read.rows, y.l1, name) ==> CameLate(read.rows, Refuse(y.l1), name)
  {
    NextIsLetInIff(read, y.l1, name);
  }

  lemma PlanSees(c: Crypto, y: Sys, op: OpId, name: string, key: KeySet)
    requires TableOk(y.l1) && op !in y.pending && name != TOKEN_NAME && VerifyCrc(c, key)
    ensures SawVersion1(y.l1, DoPlan1(c, y, op, name, key), op, name)
  {
  }

  lemma SealedOrNot(c: Crypto, read: Table<Body1>, y: Sys, op: OpId, name: string, nonce: Binary)
    requires RootOk(y) && op in y.pending && y.pending[op].Planned1? && SawVersion1(read, y, op, name)
    ensures var z := DoSeal1(c, y, op, nonce);
      if op in z.pending then SawVersion1(read, z, op, name)
      else CannotSeal(c, z, y.pending[op].plain)
  {
    if op !in DoSeal1(c, y, op, nonce).pending {
      SealDrops(c, y, op, nonce);
      assert DoSeal1(c, y, op, nonce).root == y.root;
    } else {
      SealKeepsSeen(c, y, op, nonce);
      Seal1Plans(c, y, op, nonce);
    }
  }

  lemma SawStays1(read: Table<Body1>, y: Sys, z: Sys, op: OpId, name: string)
    requires SawVersion1(read, y, op, name) && SamePlan(y, z, op) && TablesStay(y, z)
    ensures SawVersion1(read, z, op, name)
  {
  }

  lemma SawStays2(read: Table<Body2>, y: Sys, z: Sys, op: OpId, name: string)
    requires SawVersion2(read, y, op, name) && SamePlan(y, z, op) && TablesStay(y, z)
    ensures SawVersion2(read, z, op, name)
  {
  }

  lemma StaysTransitive(x: Sys, y: Sys, z: Sys)
    requires TablesStay(x, y) && TablesStay(y, z)
    ensures TablesStay(x, z)
  {
  }

  /** A row that is new now was new before. */
  lemma NewIsNew(c: Crypto, was: Sys, now: Sys)
    requires L1Ok(c, was) && L1Ok(c, now) && SamePlain(was, now)
    ensures forall id :: id !in now.l1.rows ==> id !in was.plain1
  {
    forall id | id !in now.l1.rows ensures id !in was.plain1 {
      assert id !in now.plain1.Keys;
    }
  }

  /** A reserved name or a bad checksum. */
  predicate Invalid(c: Crypto, name: string, key: KeySet) {
    name == TOKEN_NAME || !VerifyCrc(c, key)
  }

  predicate PlansSealing1(y: Sys, op: OpId, name: string, plain: Binary) {
    op in y.pending && y.pending[op].Planned1? && y.pending[op].name == name && y.pending[op].plain == plain
  }

  lemma CameLate2(read: Table<Body2>, y: Sys, op: OpId, name: string)
    requires op in y.pending && y.pending[op].Ready2? && SawVersion2(read, y, op, name) && TableOk(y.l2)
    ensures y.pending[op].name == name
    ensures !CanInsert(y.l2, name, y.pending[op].seen + 1) <==> CameLate(read.rows, y.l2, name)
    ensures CameLate(read.rows, y.l2, name) ==> CameLate(read.rows, Refuse(y.l2), name)
  {
    NextIsLetInIff(read, y.l2, name);
  }

  lemma TokenCameLate(was: Table<Body1>, now: Table<Body1>)
    requires TableOk(now) && Versions(was.rows, TOKEN_NAME) == {} && !CanInsert(now, TOKEN_NAME, 1)
    ensures CameLate(was.rows, now, TOKEN_NAME) && CameLate(was.rows, Refuse(now), TOKEN_NAME)
  {
    NamedHasVersion(was.rows, TOKEN_NAME);
    NamedHasVersion(now.rows, TOKEN_NAME);
  }

  lemma SetupOrNot(c: Crypto, y: Sys, op: OpId, p: Provider, nonce: Binary)
    requires p.latest in p.keySets && op !in y.pending
    ensures var z := DoSetup(c, y, op, p, nonce);
      if op in z.pending then z.pending[op].Token? && z.pending[op].provider == p
      else Versions(y.l1.rows, TOKEN_NAME) == {} ==> SealRefused(c, p.keySets[p.latest], TokenBytes())
  {
    if Versions(y.l1.rows, TOKEN_NAME) == {} && RootSeal(c, p, nonce, TokenBytes()) == None {
      assert c.seal(p.keySets[p.latest].aes256.bytes, nonce, TokenBytes()) == None;
    }
  }

  lemma SeenOrNot(c: Crypto, y: Sys, op: OpId, name: string, kt: int, seen: int)
    requires TableOk(y.l2) && Enabled(y, See(op, kt, seen)) && y.pending[op].name == name
    ensures var z := DoSee(y, op, kt, seen);
      if op in z.pending then SawVersion2(y.l2, z, op, name) else OtherType(z.l2.rows, name, KEY_KEY_SET)
  {
    ReadSees(c, y, See(op, kt, seen));
    SeePlans(y, op, kt, seen);
    if op !in DoSee(y, op, kt, seen).pending {
      SeeDrops(y, op, kt, seen);
    }
  }

  lemma TypedOrNot(c: Crypto, y: Sys, op: OpId, l1name: string, name: string, kind: int, bytes: Binary, kt: int, seen: int)
    requires TableOk(y.l2) && Enabled(y, PlanData(op, l1name, name, kind, bytes, kt, seen))
    ensures var z := DoPlanData(y, op, l1name, name, kind, bytes, kt, seen);
      if op in z.pending then SawVersion2(y.l2, z, op, name) else !Named(kind) || OtherType(z.l2.rows, name, kind)
  {
    ReadSees(c, y, PlanData(op, l1name, name, kind, bytes, kt, seen));
    DataPlans(y, op, l1name, name, kind, bytes, kt, seen);
    if op !in DoPlanData(y, op, l1name, name, kind, bytes, kt, seen).pending {
      DataDrops(y, op, l1name, name, kind, bytes, kt, seen);
    }
  }

  lemma WrappedOrNot(c: Crypto, y: Sys, op: OpId, l1name: string, id: int, name: string, key: KeySet, nonce: Binary)
    requires L1Ok(c, y) && RootOk(y) && IsActiveTop(y.l1.rows, l1name, id) && op !in y.pending && !Invalid(c, name, key)
    ensures op !in DoBind(c, y, op, id, name, key, nonce).pending ==> CannotWrap(c, y, l1name, c.marshal(key))
  {
    if op !in DoBind(c, y, op, id, name, key, nonce).pending {
      BindDrops(c, y, op, l1name, id, name, key, nonce);
    }
  }

  lemma EncryptedOrNot(c: Crypto, read: Table<Body2>, y: Sys, op: OpId, l1name: string, name: string, id: int, nonce: Binary)
    requires L1Ok(c, y) && RootOk(y) && IsActiveTop(y.l1.rows, l1name, id) && op in y.pending && y.pending[op].Typed?
    requires SawVersion2(read, y, op, name)
    ensures var z := DoBindData(c, y, op, id, nonce);
      if op in z.pending then SawVersion2(read, z, op, name) else CannotWrap(c, y, l1name, BytesOf(c, y.pending[op].secret))
  {
    BindDataKeepsSeen(c, y, op, id, nonce);
    BindDataPlans(c, y, op, id, nonce);
    if op !in DoBindData(c, y, op, id, nonce).pending {
      BindDataDrops(c, y, op, l1name, id, nonce);
    }
  }

  // ----- what steps of others leave alone

  lemma FinishKeepsPlain(y: Sys, op: OpId)
    requires op in y.pending && y.l1.next !in y.plain1
    ensures SamePlain(y, DoFinish(y, op))
  {
  }

  lemma NextIsNew(c: Crypto, y: Sys)
    requires TablesOk(c, y)
    ensures y.l1.next !in y.plain1
  {
    assert y.l1.next !in y.l1.rows;
    assert y.l1.next !in y.plain1.Keys;
  }

  lemma StepKeepsPlain(c: Crypto, y: Sys, step: Step)
    requires TablesOk(c, y) && Enabled(y, step)
    ensures SamePlain(y, Do(c, y, step))
  {
    if step.Finish? {
      NextIsNew(c, y);
      FinishKeepsPlain(y, step.op);
    } else {
      OnlyFinishStores(c, y, step);
    }
  }

  lemma StepKeepsStored(c: Crypto, y: Sys, step: Step)
    requires SysInv(c, y) && Enabled(y, step)
    ensures SamePlain(y, Do(c, y, step)) && Keeps(y, Do(c, y, step)) && TablesStay(y, Do(c, y, step))
  {
    StepKeepsPlain(c, y, step);
    StepKeepsRows(c, y, step);
    forall id | id in y.secrets ensures id in Do(c, y, step).secrets && Do(c, y, step).secrets[id] == y.secrets[id] {
      StepKeepsSecrets(c, y, step, id);
    }
  }

  lemma OthersAreStable(c: Crypto, y: Sys, step: Step, op: OpId)
    requires SysInv(c, y) && Enabled(y, step) && ByOther(step, op)
    ensures Stable(y, Do(c, y, step), op)
  {
    OthersKeepPlan(c, y, step, op);
    StepKeepsStored(c, y, step);
  }

  /** The storage object: the tables and the root provider in use. */
  class PostgresKeyStorage {
    const c: Crypto
    var y: Sys

    constructor (c: Crypto)
      ensures this.c == c && y == START && SysInv(c, y)
    {
      this.c := c;
      y := START;
    }

    /** Any number of steps of other calls. All calls share one root provider, which any of them may replace by a
        larger one; the process is not restarted during a call. */
    method Interfere(op: OpId)
      requires Lawful(c) && SysInv(c, y)
      modifies this
      ensures SysInv(c, y) && Stable(old(y), y, op)
    {
      var n: nat :| 0 <= n;
      for i := 0 to n
        invariant SysInv(c, y) && Stable(old(y), y, op)
      {
        var step: Step := *;
        if ByOther(step, op) && Enabled(y, step) {
          StepKeepsInv(c, y, step);
          OthersAreStable(c, y, step, op);
          y := Do(c, y, step);
        }
      }
    }

    /** One step of this call. */
    method Act(step: Step)
      requires Lawful(c) && SysInv(c, y) && Enabled(y, step)
      modifies this
      ensures y == Do(c, old(y), step) && SysInv(c, y)
      ensures SamePlain(old(y), y) && Keeps(old(y), y) && TablesStay(old(y), y)
    {
      StepKeepsInv(c, y, step);
      StepKeepsStored(c, y, step);
      y := Do(c, y, step);
    }

    /** Insert the next version and retire the older ones; false when another call took the version first. */
    method Commit1(ghost read: Table<Body1>, op: OpId, name: string, plain: Binary) returns (ok: bool, id: int)
      requires Lawful(c) && SysInv(c, y) && op in y.pending && PlansReady1(y, op, name, plain) && SawVersion1(read, y, op, name)
      modifies this
      ensures TablesStay(old(y), y) && (!ok ==> CameLate(read.rows, y.l1, name))
      ensures SysInv(c, y) && op !in y.pending && (ok <==> CanInsert(old(y).l1, name, old(y).pending[op].seen + 1))
      ensures ok ==> id !in old(y).l1.rows && id in y.l1.rows && y.plain1[id] == plain && IsActiveTop(y.l1.rows, name, id)
      ensures !ok ==> y.l1.rows == old(y).l1.rows
    {
      ok := CanInsert(y.l1, name, y.pending[op].seen + 1);
      id := y.l1.next;
      ghost var was := y;
      CameLate1(read, y, op, name);
      Finish1Is(y, op);
      Act(Finish(op));
      if ok {
        assert PendingOk(c, was, was.pending[op]);
        InsertIsNext(was.l1, name, was.pending[op].seen);
        RotateAdds(was.l1, name, was.pending[op].seen + 1, Body1(was.pending[op].useKeyId, was.pending[op].text));
        ActiveTopIs(y.l1, name, id);
        MaxAfter(was.l1, name, was.pending[op].seen + 1, Body1(was.pending[op].useKeyId, was.pending[op].text), name);
      }
    }

    /** Read the version. */
    method ReadVersion1(op: OpId, name: string, key: KeySet)
      requires Lawful(c) && SysInv(c, y) && op !in y.pending && name != TOKEN_NAME && VerifyCrc(c, key)
      modifies this
      ensures SysInv(c, y) && SamePlain(old(y), y) && TablesStay(old(y), y)
      ensures PlansSealing1(y, op, name, c.marshal(key)) && SawVersion1(old(y).l1, y, op, name)
    {
      PlanSees(c, y, op, name, key);
      Act(Plan1(op, name, key));
    }

    /** Steps of others while a rotation is under way. */
    method InterfereWith1(ghost read: Table<Body1>, op: OpId, name: string)
      requires Lawful(c) && SysInv(c, y) && op in y.pending && SawVersion1(read, y, op, name)
      modifies this
      ensures SysInv(c, y) && op in y.pending && y.pending[op] == old(y).pending[op] && SawVersion1(read, y, op, name)
      ensures SamePlain(old(y), y) && TablesStay(old(y), y)
    {
      Interfere(op);
      SawStays1(read, old(y), y, op, name);
    }

    /** Encrypt by the root key in use by then. */
    method SealRow(ghost read: Table<Body1>, op: OpId, name: string, plain: Binary) returns (ok: bool)
      requires Lawful(c) && SysInv(c, y) && PlansSealing1(y, op, name, plain) && SawVersion1(read, y, op, name)
      modifies this
      ensures SysInv(c, y) && SamePlain(old(y), y) && TablesStay(old(y), y) && (ok <==> op in y.pending)
      ensures if ok then PlansReady1(y, op, name, plain) && SawVersion1(read, y, op, name) else CannotSeal(c, y, plain)
    {
      InterfereWith1(read, op, name);
      ghost var was := y;
      ok := SealNow(read, op, name, plain);
      StaysTransitive(old(y), was, y);
    }

    method SealNow(ghost read: Table<Body1>, op: OpId, name: string, plain: Binary) returns (ok: bool)
      requires Lawful(c) && SysInv(c, y) && PlansSealing1(y, op, name, plain) && SawVersion1(read, y, op, name)
      modifies this
      ensures SysInv(c, y) && SamePlain(old(y), y) && TablesStay(old(y), y) && (ok <==> op in y.pending)
      ensures if ok then PlansReady1(y, op, name, plain) && SawVersion1(read, y, op, name) else CannotSeal(c, y, plain)
    {
      var nonce: Binary := *;
      SealedOrNot(c, read, y, op, name, nonce);
      Act(Seal1(op, nonce));
      ok := op in y.pending;
    }

    method CommitLater1(ghost read: Table<Body1>, op: OpId, name: string, plain: Binary) returns (ok: bool, id: int)
      requires Lawful(c) && SysInv(c, y) && op in y.pending && PlansReady1(y, op, name, plain) && SawVersion1(read, y, op, name)
      modifies this
      ensures SysInv(c, y) && op !in y.pending && TablesStay(old(y), y)
      ensures if ok then id !in old(y).plain1 && id in y.l1.rows && y.plain1[id] == plain && IsActiveTop(y.l1.rows, name, id)
        else CameLate(read.rows, y.l1, name)
    {
      InterfereWith1(read, op, name);
      ghost var was := y;
      NewIsNew(c, old(y), y);
      ok, id := Commit1(read, op, name, plain);
      StaysTransitive(old(y), was, y);
    }

    /** StoreLevel1KeySet. On success the key is the newest and only active row of its name at the commit. It fails only
        on a reserved name or a bad checksum, without a root key that seals the key set (as things stood at `at`), when
        no serial id is left, or when another row of the name was added during the call. */
    method StoreLevel1KeySet(op: OpId, name: string, key: KeySet) returns (ok: bool, id: int, ghost at: Sys)
      requires Lawful(c) && SysInv(c, y) && op !in y.pending
      modifies this
      ensures SysInv(c, y) && op !in y.pending && TablesStay(old(y), at) && TablesStay(at, y)
      ensures ok ==> name != TOKEN_NAME && VerifyCrc(c, key) && id !in old(y).plain1
      ensures ok ==> IsActiveTop(y.l1.rows, name, id) && (y.root.Some? ==> LoadL1(c, y, id) == Some(key))
      ensures !ok ==> Invalid(c, name, key) || CannotSeal(c, at, c.marshal(key)) || CameLate(old(y).l1.rows, y.l1, name)
    {
      id := 0;
      at := y;
      if name == TOKEN_NAME || !VerifyCrc(c, key) {
        return false, id, at;
      }
      ok, id, at := RotateLevel1(op, name, key);
      if ok && y.root.Some? {
        L1Loads(c, y, id);
      }
    }

    method RotateLevel1(op: OpId, name: string, key: KeySet) returns (ok: bool, id: int, ghost at: Sys)
      requires Lawful(c) && SysInv(c, y) && op !in y.pending && !Invalid(c, name, key)
      modifies this
      ensures SysInv(c, y) && op !in y.pending && TablesStay(old(y), at) && TablesStay(at, y)
      ensures if ok then id !in old(y).plain1 && id in y.l1.rows && y.plain1[id] == c.marshal(key)
                         && IsActiveTop(y.l1.rows, name, id)
        else CannotSeal(c, at, c.marshal(key)) || CameLate(old(y).l1.rows, y.l1, name)
    {
      id := 0;
      ReadVersion1(op, name, key);
      ghost var planned := y;
      ok := SealRow(old(y).l1, op, name, c.marshal(key));
      at := y;
      StaysTransitive(old(y), planned, at);
      if ok {
        ok, id := CommitLater1(old(y).l1, op, name, c.marshal(key));
      }
    }

    /** The newest row of a name, or the given type and version 0. */
    method ReadNewest(name: string, initial: int) returns (kt: int, seen: int)
      ensures SeesType(y.l2.rows, name, initial, kt, seen)
    {
      if id :| id in y.l2.rows && y.l2.rows[id].name == name && y.l2.rows[id].version == MaxVersion(y.l2.rows, name) {
        assert y.l2.rows[id].version in Versions(y.l2.rows, name);
        kt, seen := y.l2.rows[id].body.keyType, y.l2.rows[id].version;
      } else {
        kt, seen := initial, 0;
        assert Versions(y.l2.rows, name) != {} ==> MaxVersion(y.l2.rows, name) in Versions(y.l2.rows, name);
      }
    }

    /** The active row of a level-1 name with the highest version. */
    method QueryActive1(name: string) returns (found: Option<int>)
      ensures found.Some? ==> IsActiveTop(y.l1.rows, name, found.value)
      ensures found == None ==> forall id :: !IsActiveTop(y.l1.rows, name, id)
    {
      if id :| id in y.l1.rows && IsActiveTop(y.l1.rows, name, id) {
        found := Some(id);
      } else {
        found := None;
      }
    }

    method Commit2(ghost read: Table<Body2>, op: OpId, name: string, secret: Secret) returns (ok: bool, id: int)
      requires Lawful(c) && SysInv(c, y) && op in y.pending && PlansReady(y, op, name, secret) && SawVersion2(read, y, op, name)
      modifies this
      ensures SysInv(c, y) && op !in y.pending && Keeps(old(y), y) && TablesStay(old(y), y)
      ensures if ok then Named(TypeOf(secret)) && id !in old(y).secrets && StoredAs(y, id, name, secret)
        else !Named(TypeOf(secret)) || CameLate(read.rows, y.l2, name)
    {
      assert PendingOk(c, y, y.pending[op]);
      ok := Named(y.pending[op].kt) && CanInsert(y.l2, name, y.pending[op].seen + 1);
      id := y.l2.next;
      NextIsFree(c, y);
      CameLate2(read, y, op, name);
      Finish2Is(y, op);
      if ok {
        ReadyIsStorable(c, y, y.pending[op]);
      }
      Act(Finish(op));
    }

    /** Steps of others while a level-2 rotation is under way. */
    method InterfereWith2(ghost read: Table<Body2>, op: OpId, name: string)
      requires Lawful(c) && SysInv(c, y) && op in y.pending && SawVersion2(read, y, op, name)
      modifies this
      ensures SysInv(c, y) && op in y.pending && y.pending[op] == old(y).pending[op] && SawVersion2(read, y, op, name)
      ensures Keeps(old(y), y) && TablesStay(old(y), y)
    {
      Interfere(op);
      SawStays2(read, old(y), y, op, name);
    }

    method CommitLater(ghost read: Table<Body2>, op: OpId, name: string, secret: Secret) returns (ok: bool, id: int)
      requires Lawful(c) && SysInv(c, y) && op in y.pending && PlansReady(y, op, name, secret) && SawVersion2(read, y, op, name)
      modifies this
      ensures SysInv(c, y) && op !in y.pending && Keeps(old(y), y) && TablesStay(old(y), y)
      ensures if ok then Named(TypeOf(secret)) && id !in old(y).secrets && StoredAs(y, id, name, secret)
        else !Named(TypeOf(secret)) || CameLate(read.rows, y.l2, name)
    {
      InterfereWith2(read, op, name);
      ghost var was := y;
      ok, id := Commit2(read, op, name, secret);
      StaysTransitive(old(y), was, y);
    }

    /** Load the level-1 key by name and encrypt. */
    method BindKeySet(op: OpId, l1name: string, name: string, key: KeySet) returns (ok: bool)
      requires Lawful(c) && SysInv(c, y) && op !in y.pending && !Invalid(c, name, key)
      modifies this
      ensures SysInv(c, y) && Keeps(old(y), y) && TablesStay(old(y), y) && (ok <==> op in y.pending)
      ensures if ok then PlansBound(y, op, name, Keys(key)) else CannotWrap(c, old(y), l1name, c.marshal(key))
    {
      var l1 := QueryActive1(l1name);
      if l1 == None {
        NoneActive(y.l1, l1name);
        return false;
      }
      var nonce: Binary := *;
      WrappedOrNot(c, y, op, l1name, l1.value, name, key, nonce);
      BindPlansBound(c, y, op, l1.value, name, key, nonce);
      Act(Bind(op, l1name, l1.value, name, key, nonce));
      ok := op in y.pending;
    }

    method SeeVersion(op: OpId, name: string, secret: Secret) returns (ok: bool)
      requires Lawful(c) && SysInv(c, y) && op in y.pending && PlansBound(y, op, name, secret)
      modifies this
      ensures SysInv(c, y) && Keeps(old(y), y) && TablesStay(old(y), y) && (ok <==> op in y.pending)
      ensures if ok then PlansReady(y, op, name, secret) && SawVersion2(old(y).l2, y, op, name)
        else OtherType(y.l2.rows, name, KEY_KEY_SET)
    {
      var kt, seen := ReadNewest(name, KEY_KEY_SET);
      SeenOrNot(c, y, op, name, kt, seen);
      SeePlansReady(y, op, kt, seen);
      Act(See(op, kt, seen));
      ok := op in y.pending;
    }

    /** StoreLevel2KeySet: load and encrypt first, read the version after, when things stood as in `read`. It fails only on
        a reserved name or a bad checksum, without a level-1 key that seals the key set, on a name of another type, when no
        serial id is left, or when another row of the name was added since the version was read. */
    method StoreLevel2KeySet(op: OpId, l1name: string, name: string, key: KeySet) returns (ok: bool, id: int, ghost read: Sys)
      requires Lawful(c) && SysInv(c, y) && op !in y.pending
      modifies this
      ensures SysInv(c, y) && op !in y.pending && Keeps(old(y), y) && TablesStay(old(y), read) && TablesStay(read, y)
      ensures if ok then !Invalid(c, name, key) && id !in old(y).secrets && StoredAs(y, id, name, Keys(key))
        else Invalid(c, name, key) || CannotWrap(c, old(y), l1name, c.marshal(key))
             || OtherType(y.l2.rows, name, KEY_KEY_SET) || CameLate(read.l2.rows, y.l2, name)
    {
      id := 0;
      read := y;
      if name == TOKEN_NAME || !VerifyCrc(c, key) {
        return false, id, read;
      }
      ok := BindKeySet(op, l1name, name, key);
      read := y;
      if ok {
        ghost var bound := y;
        ok, id, read := SeeAndCommit(op, name, key);
        StaysTransitive(old(y), bound, read);
      }
    }

    method SeeAndCommit(op: OpId, name: string, key: KeySet) returns (ok: bool, id: int, ghost read: Sys)
      requires Lawful(c) && SysInv(c, y) && op in y.pending && PlansBound(y, op, name, Keys(key))
      modifies this
      ensures SysInv(c, y) && op !in y.pending && Keeps(old(y), y) && TablesStay(old(y), read) && TablesStay(read, y)
      ensures if ok then id !in old(y).secrets && StoredAs(y, id, name, Keys(key))
        else OtherType(y.l2.rows, name, KEY_KEY_SET) || CameLate(read.l2.rows, y.l2, name)
    {
      id := 0;
      Interfere(op);
      read := y;
      ok := SeeVersion(op, name, Keys(key));
      if ok {
        ghost var seen := y;
        ok, id := CommitLater(read.l2, op, name, Keys(key));
        StaysTransitive(read, seen, y);
      }
    }

    /** Read the version and type; the reserved name is not checked here. */
    method TypeData(op: OpId, l1name: string, name: string, kind: int, bytes: Binary) returns (ok: bool)
      requires Lawful(c) && SysInv(c, y) && op !in y.pending
      modifies this
      ensures SysInv(c, y) && Keeps(old(y), y) && TablesStay(old(y), y) && (ok <==> op in y.pending)
      ensures if ok then PlansTyped(y, op, l1name, name, Raw(kind, bytes)) && SawVersion2(old(y).l2, y, op, name)
        else !Named(kind) || OtherType(y.l2.rows, name, kind)
    {
      var kt, seen := ReadNewest(name, kind);
      TypedOrNot(c, y, op, l1name, name, kind, bytes, kt, seen);
      DataPlansTyped(y, op, l1name, name, kind, bytes, kt, seen);
      Act(PlanData(op, l1name, name, kind, bytes, kt, seen));
      ok := op in y.pending;
    }

    method EncryptData(ghost read: Table<Body2>, op: OpId, l1name: string, name: string, secret: Secret) returns (ok: bool)
      requires Lawful(c) && SysInv(c, y) && op in y.pending
      requires PlansTyped(y, op, l1name, name, secret) && SawVersion2(read, y, op, name)
      modifies this
      ensures SysInv(c, y) && Keeps(old(y), y) && TablesStay(old(y), y) && (ok <==> op in y.pending)
      ensures if ok then PlansReady(y, op, name, secret) && SawVersion2(read, y, op, name)
        else CannotWrap(c, old(y), l1name, BytesOf(c, secret))
    {
      var l1 := QueryActive1(l1name);
      if l1 == None {
        NoneActive(y.l1, l1name);
        Act(Abandon(op));
        return false;
      }
      var nonce: Binary := *;
      EncryptedOrNot(c, read, y, op, l1name, name, l1.value, nonce);
      BindDataPlansReady(c, y, op, l1.value, nonce);
      Act(BindData(op, l1.value, nonce));
      ok := op in y.pending;
    }

    method EncryptAndCommit(ghost read: Table<Body2>, op: OpId, l1name: string, name: string, secret: Secret)
      returns (ok: bool, id: int, ghost at: Sys)
      requires Lawful(c) && SysInv(c, y) && op in y.pending
      requires PlansTyped(y, op, l1name, name, secret) && SawVersion2(read, y, op, name)
      modifies this
      ensures SysInv(c, y) && op !in y.pending && Keeps(old(y), y) && TablesStay(old(y), at) && TablesStay(at, y)
      ensures if ok then Named(TypeOf(secret)) && id !in old(y).secrets && StoredAs(y, id, name, secret)
        else !Named(TypeOf(secret)) || CannotWrap(c, at, l1name, BytesOf(c, secret)) || CameLate(read.rows, y.l2, name)
    {
      id := 0;
      InterfereWith2(read, op, name);
      at := y;
      ok := EncryptData(read, op, l1name, name, secret);
      if ok {
        ghost var ready := y;
        ok, id := CommitLater(read, op, name, secret);
        StaysTransitive(at, ready, y);
      }
    }

    /** StoreL2DataKey: read the version and type first, load and encrypt after, when things stood as in `at`. It fails only
        on a type without a name, on a name of another type, without a level-1 key that seals the bytes, when no serial id
        is left, or when another row of the name was added during the call. */
    method StoreL2DataKey(op: OpId, l1name: string, name: string, kind: int, bytes: Binary)
      returns (ok: bool, id: int, ghost at: Sys)
      requires Lawful(c) && SysInv(c, y) && op !in y.pending
      modifies this
      ensures SysInv(c, y) && op !in y.pending && Keeps(old(y), y) && TablesStay(old(y), at) && TablesStay(at, y)
      ensures if ok then Named(kind) && id !in old(y).secrets && StoredAs(y, id, name, Raw(kind, bytes))
        else !Named(kind) || OtherType(y.l2.rows, name, kind) || CannotWrap(c, at, l1name, bytes)
             || CameLate(old(y).l2.rows, y.l2, name)
    {
      id := 0;
      ok := TypeData(op, l1name, name, kind, bytes);
      at := y;
      if ok {
        ghost var typed := y;
        ok, id, at := EncryptAndCommit(old(y).l2, op, l1name, name, Raw(kind, bytes));
        StaysTransitive(old(y), typed, at);
      }
    }

    /** SetupUnsealProviderAndWait with a provider that keeps the root keys used before: the first caller stores the
        token, a later one must open it, which it always does. It fails only when its latest root key does not seal the
        token, when another call stored the token first or no serial id is left, or when a provider with yet other keys
        was installed meanwhile. */
    method SetupUnsealProviderAndWait(op: OpId, p: Provider) returns (ok: bool)
      requires Lawful(c) && SysInv(c, y) && op !in y.pending && KeepsRoots(y, p)
      modifies this
      ensures SysInv(c, y) && op !in y.pending && Keeps(old(y), y) && (ok ==> y.root == Some(p))
      ensures Versions(old(y).l1.rows, TOKEN_NAME) != {} ==> ok
      ensures !ok ==>
        SealRefused(c, p.keySets[p.latest], TokenBytes()) || CameLate(old(y).l1.rows, y.l1, TOKEN_NAME) || !KeepsRoots(y, p)
    {
      var nonce: Binary := *;
      TokenStillOpens(c, y, p);
      var stored := Versions(y.l1.rows, TOKEN_NAME) != {};
      SetupOrNot(c, y, op, p, nonce);
      Act(Setup(op, p, nonce));
      if op !in y.pending {
        return stored;
      }
      ok := StoreToken(old(y).l1, op, p);
    }

    method StoreToken(ghost before: Table<Body1>, op: OpId, p: Provider) returns (ok: bool)
      requires Lawful(c) && SysInv(c, y) && op in y.pending && y.pending[op].Token? && y.pending[op].provider == p
      requires Versions(before.rows, TOKEN_NAME) == {}
      modifies this
      ensures SysInv(c, y) && op !in y.pending && Keeps(old(y), y)
      ensures if ok then y.root == Some(p) else CameLate(before.rows, y.l1, TOKEN_NAME) || !KeepsRoots(y, p)
    {
      Interfere(op);
      if !KeepsRoots(y, p) {
        Act(Abandon(op));
        return false;
      }
      ok := CanInsert(y.l1, TOKEN_NAME, 1);
      if !ok {
        TokenCameLate(before, y.l1);
      }
      Act(Finish(op));
    }

    /** LoadL2DataKeyById: the stored type and bytes for every id ever stored, nothing for any other. */
    method LoadL2DataKeyById(id: int) returns (r: Option<(int, Binary)>)
      requires SysInv(c, y) && y.root.Some?
      ensures r == if id in y.secrets then Some((TypeOf(y.secrets[id]), BytesOf(c, y.secrets[id]))) else None
    {
      if id in y.l2.rows {
        L2Loads(c, y, id);
      }
      assert id in y.secrets <==> id in y.secrets.Keys;
      r := LoadL2(c, y, id);
    }

    /** LoadLevel2KeySetById. */
    method LoadLevel2KeySetById(id: int) returns (r: Option<KeySet>)
      requires Lawful(c) && SysInv(c, y) && y.root.Some?
      ensures id !in y.secrets ==> r == None
      ensures id in y.secrets && y.secrets[id].Keys? ==> r == Some(y.secrets[id].keys)
      ensures id in y.secrets && y.secrets[id].Raw? ==> r == c.unmarshal(y.secrets[id].bytes)
    {
      var loaded := LoadL2DataKeyById(id);
      if loaded == None {
        return None;
      }
      StoredIsSound(c, y, id);
      r := c.unmarshal(loaded.value.1);
    }

    /** FetchL2DataKey: the last key stored under the name, with its id. */
    method FetchL2DataKey(name: string) returns (r: Option<(int, int, Binary)>)
      requires SysInv(c, y) && y.root.Some?
      ensures name in y.newest ==> y.newest[name] in y.secrets
      ensures r == if name in y.newest
        then Some((y.newest[name], TypeOf(y.secrets[y.newest[name]]), BytesOf(c, y.secrets[y.newest[name]]))) else None
    {
      NewestIsStored(c, y, name);
      if id :| id in y.l2.rows && IsActiveTop(y.l2.rows, name, id) {
        NewestIsActive(c, y, name, id);
        var loaded := LoadL2DataKeyById(id);
        r := Some((id, loaded.value.0, loaded.value.1));
      } else {
        if name in y.newest {
          NewestIsActive(c, y, name, y.newest[name]);
        }
        r := None;
      }
    }

    /** FetchLevel2KeySet: the same, for names of the key-set type: the stored key set, or what the bytes of a data key
        stored under that type decode to. Any other type is an error. */
    method FetchLevel2KeySet(name: string) returns (r: Option<(int, KeySet)>)
      requires Lawful(c) && SysInv(c, y) && y.root.Some?
      ensures name in y.newest ==> y.newest[name] in y.secrets
      ensures name !in y.newest ==> r == None
      ensures name in y.newest && y.secrets[y.newest[name]].Keys? ==>
        r == Some((y.newest[name], y.secrets[y.newest[name]].keys))
      ensures name in y.newest && TypeOf(y.secrets[y.newest[name]]) != KEY_KEY_SET ==> r == None
      ensures name in y.newest && y.secrets[y.newest[name]].Raw? && TypeOf(y.secrets[y.newest[name]]) == KEY_KEY_SET ==>
        r == Tagged(y.newest[name], c.unmarshal(y.secrets[y.newest[name]].bytes))
    {
      var fetched := FetchL2DataKey(name);
      if fetched == None || fetched.value.1 != KEY_KEY_SET {
        return None;
      }
      StoredIsSound(c, y, fetched.value.0);
      r := Tagged(fetched.value.0, c.unmarshal(fetched.value.2));
    }
  }

  function Tagged(id: int, keys: Option<KeySet>): Option<(int, KeySet)> {
    match keys
    case None => None
    case Some(k) => Some((id, k))
  }

  lemma NextIsFree(c: Crypto, y: Sys)
    requires TablesOk(c, y)
    ensures y.l2.next !in y.secrets
  {
    assert y.l2.next !in y.l2.rows;
    assert y.l2.next !in y.secrets.Keys;
  }

  lemma StoredIsSound(c: Crypto, y: Sys, id: int)
    requires Lawful(c) && L2Ok(c, y) && id in y.secrets
    ensures y.secrets[id].Keys? ==> c.unmarshal(BytesOf(c, y.secrets[id])) == Some(y.secrets[id].keys)
  {
    assert id in y.secrets.Keys && RowSealed(c, y.plain1, y.l2.rows[id].body, y.secrets[id]);
  }

  lemma NewestIsStored(c: Crypto, y: Sys, name: string)
    requires L2Ok(c, y) && NewestOk(y)
    ensures name in y.newest ==> y.newest[name] in y.secrets
  {
    assert name in y.newest ==> y.newest[name] in y.secrets.Keys;
  }

  lemma NewestIsActive(c: Crypto, y: Sys, name: string, id: int)
    requires TablesOk(c, y)
    ensures IsActiveTop(y.l2.rows, name, id) <==> name in y.newest && y.newest[name] == id
  {
    ActiveTopIs(y.l2, name, id);
    if name in y.newest {
      assert y.l2.rows[y.newest[name]].version == MaxVersion(y.l2.rows, name);
    }
  }
}
