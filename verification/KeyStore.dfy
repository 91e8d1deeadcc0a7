/**
 The key hierarchy (configure/secretimpl/secret.pg.go): level-1 keys under a root key, level-2 keys under a level-1
 key. Every call is a few separate statements, so calls interleave; only the last step of each, insert plus retire, is
 one transaction. plain1, secrets, newest and everRoot are history: what was stored under each id, the newest id of
 each level-2 name, and every root key that ever was in use.
 */
module KeyStore {
  import opened Wrappers
  import opened KeyMaterial
  import opened VersionTable
  import Decimal
  import Envelope

  const TOKEN_NAME := "secret_token"

  const TOKEN_TEXT := "secret/default_token"

  const KEY_KEY_SET := 501

  function TokenBytes(): Binary {
    seq(|TOKEN_TEXT|, i requires 0 <= i < |TOKEN_TEXT| => TOKEN_TEXT[i] as int % 256)
  }

  /** Key types that have a name; printing any other panics. */
  predicate Named(kt: int) {
    kt == KEY_KEY_SET || 1001 <= kt <= 1003 || 2001 <= kt <= 2004 || 2101 <= kt <= 2104 || kt == 2201 || 3001 <= kt <= 3002
  }

  datatype Body1 = Body1(useKeyId: string, text: string)

  datatype Body2 = Body2(useKeyId: int, keyType: int, text: string)

  datatype Secret = Keys(keys: KeySet) | Raw(kind: int, bytes: Binary)

  function TypeOf(s: Secret): int {
    match s
    case Keys(_) => KEY_KEY_SET
    case Raw(kind, _) => kind
  }

  function BytesOf(c: Crypto, s: Secret): Binary {
    match s
    case Keys(k) => c.marshal(k)
    case Raw(_, bytes) => bytes
  }

  type OpId = nat

  /** A call under way, with what it has read and computed so far. */
  datatype Pending =
    | Token(provider: Provider, useKeyId: string, text: string)
    | Planned1(name: string, plain: Binary, seen: int)
    | Ready1(name: string, plain: Binary, seen: int, useKeyId: string, text: string)
    | Bound(name: string, secret: Secret, l1: int, text: string)
    | Typed(l1name: string, name: string, secret: Secret, kt: int, seen: int)
    | Ready2(name: string, secret: Secret, kt: int, seen: int, l1: int, text: string)

  datatype Sys = Sys(l1: Table<Body1>, l2: Table<Body2>, root: Option<Provider>, pending: map<OpId, Pending>,
                     plain1: map<int, Binary>, secrets: map<int, Secret>, newest: map<string, int>, everRoot: RootKeys)

  const START := Sys(Table(map[], 1), Table(map[], 1), None, map[], map[], map[], map[], map[])

  // ----- loading

  function RootKeysOf(y: Sys): RootKeys {
    match y.root
    case None => map[]
    case Some(p) => p.keySets
  }

  /** LoadLevel1KeySetById, whatever the row's status. */
  function LoadL1(c: Crypto, y: Sys, id: int): Option<KeySet> {
    if id !in y.l1.rows then None else OpenKeySet(c, RootKeysOf(y), y.l1.rows[id].body.text)
  }

  /** LoadL2DataKeyById: the type of the row and the bytes its level-1 key opens. */
  function LoadL2(c: Crypto, y: Sys, id: int): Option<(int, Binary)> {
    if id !in y.l2.rows then None
    else
      var body := y.l2.rows[id].body;
      match (LoadL1(c, y, body.useKeyId), Envelope.Parse(Envelope.Base64Text, body.text))
      case (Some(key), Some(o)) =>
        (match Unwrap(c, key, o)
         case None => None
         case Some(bytes) => Some((body.keyType, bytes)))
      case _ => None
  }

  /** LoadLevel2KeySetById. */
  function LoadL2KeySet(c: Crypto, y: Sys, id: int): Option<KeySet> {
    match LoadL2(c, y, id)
    case None => None
    case Some((_, bytes)) => c.unmarshal(bytes)
  }

  // ----- the steps

  function Pend(y: Sys, op: OpId, p: Pending): Sys {
    y.(pending := y.pending[op := p])
  }

  function Drop(y: Sys, op: OpId): Sys {
    y.(pending := y.pending - {op})
  }

  function UseRoot(y: Sys, p: Provider): Sys {
    y.(root := Some(p), everRoot := p.keySets)
  }

  /** The type a rotation sees and the version it continues: the newest row's, or the given type and 0. */
  predicate SeesType(rows: Rows<Body2>, name: string, initial: int, kt: int, seen: int) {
    if Versions(rows, name) == {} then kt == initial && seen == 0
    else
      exists id :: id in rows && rows[id].name == name && rows[id].version == MaxVersion(rows, name) == seen
                   && rows[id].body.keyType == kt
  }

  /** checkRotateLevel2Key. */
  predicate RotationAllowed(kt: int, expected: int) {
    kt != 0 && kt == expected
  }

  datatype Step =
    | Setup(op: OpId, provider: Provider, nonce: Binary)                     // SetupUnsealProviderAndWait
    | Plan1(op: OpId, name: string, key: KeySet)                             // StoreLevel1KeySet: checks, max version
    | Seal1(op: OpId, nonce: Binary)                                         //   encrypt by the root key
    | Bind(op: OpId, l1name: string, l1: int, name: string, key: KeySet, nonce: Binary)  // StoreLevel2KeySet: load, encrypt
    | See(op: OpId, kt: int, seen: int)                                      //   type and version, check
    | PlanData(op: OpId, l1name: string, name: string, kind: int, bytes: Binary, kt: int, seen: int)  // StoreL2DataKey
    | BindData(op: OpId, l1: int, nonce: Binary)                             //   load, encrypt
    | Finish(op: OpId)                                                       // insert, retire, commit
    | Abandon(op: OpId)                                                      // any failure in between
    | Restart                                                                // the process is gone, the tables stay

  function DoSetup(c: Crypto, y: Sys, op: OpId, p: Provider, nonce: Binary): Sys
    requires p.latest in p.keySets
  {
    if Versions(y.l1.rows, TOKEN_NAME) != {} then
      if TokenOpens(c, y.l1.rows, p) then UseRoot(y, p) else y
    else
      match RootSeal(c, p, nonce, TokenBytes())
      case None => y
      case Some(text) => Pend(y, op, Token(p, Decimal.Print(p.latest), text))
  }

  /** The stored token, under whichever row the query returns, decrypts to the expected text. */
  predicate TokenOpens(c: Crypto, rows: Rows<Body1>, p: Provider) {
    forall id :: id in rows && rows[id].name == TOKEN_NAME ==>
      RootOpen(c, p.keySets, rows[id].body.text) == Some(TokenBytes())
  }

  function DoPlan1(c: Crypto, y: Sys, op: OpId, name: string, key: KeySet): Sys {
    if name == TOKEN_NAME || !VerifyCrc(c, key) then y
    else Pend(y, op, Planned1(name, c.marshal(key), MaxVersion(y.l1.rows, name)))
  }

  function DoSeal1(c: Crypto, y: Sys, op: OpId, nonce: Binary): Sys
    requires op in y.pending && y.pending[op].Planned1?
  {
    var p := y.pending[op];
    match y.root
    case None => Drop(y, op)
    case Some(root) =>
      if root.latest !in root.keySets then Drop(y, op)
      else
        match RootSeal(c, root, nonce, p.plain)
        case None => Drop(y, op)
        case Some(text) => Pend(y, op, Ready1(p.name, p.plain, p.seen, Decimal.Print(root.latest), text))
  }

  /** Encrypt by a level-1 key that was loaded under the given id. */
  function WrapL2(c: Crypto, y: Sys, l1: int, nonce: Binary, plain: Binary): Option<string> {
    match LoadL1(c, y, l1)
    case None => None
    case Some(key) => Wrap(c, Envelope.Base64Text, l1, key, nonce, plain)
  }

  function DoBind(c: Crypto, y: Sys, op: OpId, l1: int, name: string, key: KeySet, nonce: Binary): Sys {
    if name == TOKEN_NAME || !VerifyCrc(c, key) then y
    else BindWith(y, op, l1, name, key, WrapL2(c, y, l1, nonce, c.marshal(key)))
  }

  function BindWith(y: Sys, op: OpId, l1: int, name: string, key: KeySet, wrapped: Option<string>): Sys {
    match wrapped
    case None => y
    case Some(text) => Pend(y, op, Bound(name, Keys(key), l1, text))
  }

  function DoSee(y: Sys, op: OpId, kt: int, seen: int): Sys
    requires op in y.pending && y.pending[op].Bound?
  {
    var p := y.pending[op];
    if RotationAllowed(kt, KEY_KEY_SET) then Pend(y, op, Ready2(p.name, p.secret, kt, seen, p.l1, p.text)) else Drop(y, op)
  }

  function DoPlanData(y: Sys, op: OpId, l1name: string, name: string, kind: int, bytes: Binary, kt: int, seen: int): Sys {
    if RotationAllowed(kt, kind) then Pend(y, op, Typed(l1name, name, Raw(kind, bytes), kt, seen)) else y
  }

  function DoBindData(c: Crypto, y: Sys, op: OpId, l1: int, nonce: Binary): Sys
    requires op in y.pending && y.pending[op].Typed?
  {
    var p := y.pending[op];
    match WrapL2(c, y, l1, nonce, BytesOf(c, p.secret))
    case None => Drop(y, op)
    case Some(text) => Pend(y, op, Ready2(p.name, p.secret, p.kt, p.seen, l1, text))
  }

  function FinishToken(y: Sys, op: OpId, p: Pending): Sys
    requires p.Token?
  {
    if CanInsert(y.l1, TOKEN_NAME, 1) then
      UseRoot(Drop(y, op).(l1 := Insert(y.l1, TOKEN_NAME, 1, Body1(p.useKeyId, p.text)),
                           plain1 := y.plain1[y.l1.next := TokenBytes()]), p.provider)
    else Drop(y, op).(l1 := Refuse(y.l1))
  }

  function Finish1(y: Sys, op: OpId, p: Pending): Sys
    requires p.Ready1?
  {
    if CanInsert(y.l1, p.name, p.seen + 1) then
      Drop(y, op).(l1 := Rotate(y.l1, p.name, p.seen + 1, Body1(p.useKeyId, p.text)),
                   plain1 := y.plain1[y.l1.next := p.plain])
    else Drop(y, op).(l1 := Refuse(y.l1))
  }

  /** A type without a name panics before the insert, and the transaction is rolled back. */
  function Finish2(y: Sys, op: OpId, p: Pending): Sys
    requires p.Ready2?
  {
    if !Named(p.kt) then Drop(y, op)
    else if CanInsert(y.l2, p.name, p.seen + 1) then
      Drop(y, op).(l2 := Rotate(y.l2, p.name, p.seen + 1, Body2(p.l1, p.kt, p.text)),
                   secrets := y.secrets[y.l2.next := p.secret], newest := y.newest[p.name := y.l2.next])
    else Drop(y, op).(l2 := Refuse(y.l2))
  }

  function DoFinish(y: Sys, op: OpId): Sys
    requires op in y.pending
  {
    var p := y.pending[op];
    match p
    case Token(_, _, _) => FinishToken(y, op, p)
    case Ready1(_, _, _, _, _) => Finish1(y, op, p)
    case Ready2(_, _, _, _, _, _) => Finish2(y, op, p)
    case _ => y
  }

  /** New root keys must keep every root key ever used. */
  predicate KeepsRoots(y: Sys, p: Provider) {
    p.Valid() && Extends(y.everRoot, p.keySets)
  }

  /** Steps that can happen: the queries return what the tables hold, and root providers keep the old keys. */
  predicate Enabled(y: Sys, step: Step) {
    match step
    case Setup(op, p, _) => op !in y.pending && KeepsRoots(y, p)
    case Plan1(op, _, _) => op !in y.pending
    case Seal1(op, _) => op in y.pending && y.pending[op].Planned1?
    case Bind(op, l1name, l1, _, _, _) => op !in y.pending && IsActiveTop(y.l1.rows, l1name, l1)
    case See(op, kt, seen) =>
      op in y.pending && y.pending[op].Bound? && SeesType(y.l2.rows, y.pending[op].name, KEY_KEY_SET, kt, seen)
    case PlanData(op, _, name, kind, _, kt, seen) => op !in y.pending && SeesType(y.l2.rows, name, kind, kt, seen)
    case BindData(op, l1, _) => op in y.pending && y.pending[op].Typed? && IsActiveTop(y.l1.rows, y.pending[op].l1name, l1)
    case Finish(op) => op in y.pending && (y.pending[op].Token? ==> KeepsRoots(y, y.pending[op].provider))
    case Abandon(_) => true
    case Restart => true
  }

  function Do(c: Crypto, y: Sys, step: Step): Sys
    requires Enabled(y, step)
  {
    match step
    case Setup(op, p, nonce) => DoSetup(c, y, op, p, nonce)
    case Plan1(op, name, key) => DoPlan1(c, y, op, name, key)
    case Seal1(op, nonce) => DoSeal1(c, y, op, nonce)
    case Bind(op, _, l1, name, key, nonce) => DoBind(c, y, op, l1, name, key, nonce)
    case See(op, kt, seen) => DoSee(y, op, kt, seen)
    case PlanData(op, l1name, name, kind, bytes, kt, seen) => DoPlanData(y, op, l1name, name, kind, bytes, kt, seen)
    case BindData(op, l1, nonce) => DoBindData(c, y, op, l1, nonce)
    case Finish(op) => DoFinish(y, op)
    case Abandon(op) => Drop(y, op)
    case Restart => y.(root := None, pending := map[])
  }

  // ----- the invariant

  /** Every level-1 row opens under the root keys to what was stored, and names the root key its envelope names. */
  predicate L1Ok(c: Crypto, y: Sys) {
    && y.plain1.Keys == y.l1.rows.Keys
    && forall id :: id in y.l1.rows ==>
         RowOpens(c, y.everRoot, y.l1.rows[id].body, y.plain1[id])
         && (y.l1.rows[id].name == TOKEN_NAME ==> y.plain1[id] == TokenBytes())
  }

  predicate RowOpens(c: Crypto, keys: RootKeys, body: Body1, plain: Binary) {
    && RootOpen(c, keys, body.text) == Some(plain)
    && RootId(body.text).Some? && body.useKeyId == Decimal.Print(RootId(body.text).value)
  }

  /** The level-1 row is present, holds a key set, and that key set opens the envelope, tagged with its id. */
  predicate SealedUnder(c: Crypto, plain1: map<int, Binary>, l1: int, text: string, plain: Binary) {
    && l1 in plain1 && c.unmarshal(plain1[l1]).Some?
    && Contains(c, Envelope.Base64Text, text, l1, c.unmarshal(plain1[l1]).value, plain)
  }

  predicate SecretOk(c: Crypto, secret: Secret, kt: int) {
    kt == TypeOf(secret) && (secret.Keys? ==> VerifyCrc(c, secret.keys))
  }

  predicate RowSealed(c: Crypto, plain1: map<int, Binary>, body: Body2, secret: Secret) {
    && Named(body.keyType) && SecretOk(c, secret, body.keyType)
    && SealedUnder(c, plain1, body.useKeyId, body.text, BytesOf(c, secret))
  }

  predicate L2Ok(c: Crypto, y: Sys) {
    && y.secrets.Keys == y.l2.rows.Keys
    && forall id :: id in y.l2.rows ==> RowSealed(c, y.plain1, y.l2.rows[id].body, y.secrets[id])
  }

  /** All rows of a level-2 name have one type. */
  predicate OneType(rows: Rows<Body2>) {
    forall a, b :: a in rows && b in rows && rows[a].name == rows[b].name ==> rows[a].body.keyType == rows[b].body.keyType
  }

  predicate NewestOk(y: Sys) {
    && (forall id :: id in y.l2.rows ==> y.l2.rows[id].name in y.newest)
    && (forall n :: n in y.newest ==>
          && y.newest[n] in y.l2.rows && y.l2.rows[y.newest[n]].name == n
          && y.l2.rows[y.newest[n]].version == MaxVersion(y.l2.rows, n))
  }

  ghost predicate RootOk(y: Sys) {
    && (y.root.Some? ==> y.root.value.Valid() && y.root.value.keySets == y.everRoot)
    && (forall k :: k in y.everRoot ==> Decimal.IsInt64(k))
  }

  /** What a planned rotation read still bounds what it may write. */
  predicate SeenOk(rows: Rows<Body2>, name: string, kt: int, seen: int) {
    && 0 <= seen <= MaxVersion(rows, name)
    && (seen > 0 ==> forall id :: id in rows && rows[id].name == name ==> rows[id].body.keyType == kt)
  }

  predicate PendingOk(c: Crypto, y: Sys, p: Pending) {
    match p
    case Token(provider, useKeyId, text) => RowOpens(c, provider.keySets, Body1(useKeyId, text), TokenBytes())
    case Planned1(name, _, seen) => name != TOKEN_NAME && 0 <= seen <= MaxVersion(y.l1.rows, name)
    case Ready1(name, plain, seen, useKeyId, text) =>
      && name != TOKEN_NAME && 0 <= seen <= MaxVersion(y.l1.rows, name)
      && RowOpens(c, y.everRoot, Body1(useKeyId, text), plain)
    case Bound(_, secret, l1, text) =>
      SecretOk(c, secret, KEY_KEY_SET) && secret.Keys? && SealedUnder(c, y.plain1, l1, text, BytesOf(c, secret))
    case Typed(_, name, secret, kt, seen) => SecretOk(c, secret, kt) && SeenOk(y.l2.rows, name, kt, seen)
    case Ready2(name, secret, kt, seen, l1, text) =>
      && SecretOk(c, secret, kt) && SeenOk(y.l2.rows, name, kt, seen)
      && SealedUnder(c, y.plain1, l1, text, BytesOf(c, secret))
  }

  predicate PendingsOk(c: Crypto, y: Sys) {
    forall op :: op in y.pending ==> PendingOk(c, y, y.pending[op])
  }

  ghost predicate TablesOk(c: Crypto, y: Sys) {
    TableOk(y.l1) && TableOk(y.l2) && L1Ok(c, y) && L2Ok(c, y) && OneType(y.l2.rows) && NewestOk(y)
  }

  ghost predicate SysInv(c: Crypto, y: Sys) {
    TablesOk(c, y) && RootOk(y) && PendingsOk(c, y)
  }

  // ----- loading gives back what was stored

  lemma L1Loads(c: Crypto, y: Sys, id: int)
    requires L1Ok(c, y) && RootOk(y) && y.root.Some? && id in y.l1.rows
    ensures LoadL1(c, y, id) == c.unmarshal(y.plain1[id])
  {
    assert RowOpens(c, y.everRoot, y.l1.rows[id].body, y.plain1[id]);
  }

  lemma L2Loads(c: Crypto, y: Sys, id: int)
    requires SysInv(c, y) && y.root.Some? && id in y.l2.rows
    ensures LoadL2(c, y, id) == Some((TypeOf(y.secrets[id]), BytesOf(c, y.secrets[id])))
  {
    assert RowSealed(c, y.plain1, y.l2.rows[id].body, y.secrets[id]);
    L1Loads(c, y, y.l2.rows[id].body.useKeyId);
  }
}
