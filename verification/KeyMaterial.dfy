/**
 Key sets, the ciphers they are used with, and the root key provider (configure/secret/unseal.local.go). The ciphers
 and encoders are parameters: only decrypt-of-encrypt and decode-of-encode are required of them.
 */
module KeyMaterial {
  import opened Wrappers
  import Decimal
  import Envelope

  type Binary = Envelope.Binary

  datatype Blob = Blob(bytes: Binary, crc: string)

  datatype KeySet = KeySet(aes256: Blob, rsa4096: Blob, ecdsaP521: Blob, ed25519Pri: Blob, ed25519Pub: Blob)

  /** seal and open take the AES key, the nonce and the text; seal fails on a key of the wrong length. */
  datatype Crypto = Crypto(seal: (Binary, Binary, Binary) -> Option<Binary>,
                           open: (Binary, Binary, Binary) -> Option<Binary>,
                           marshal: KeySet -> Binary, unmarshal: Binary -> Option<KeySet>,
                           crc: Binary -> string)

  predicate VerifyCrc(c: Crypto, k: KeySet) {
    && k.aes256.crc == c.crc(k.aes256.bytes)
    && k.rsa4096.crc == c.crc(k.rsa4096.bytes)
    && k.ecdsaP521.crc == c.crc(k.ecdsaP521.bytes)
    && k.ed25519Pri.crc == c.crc(k.ed25519Pri.bytes)
    && k.ed25519Pub.crc == c.crc(k.ed25519Pub.bytes)
  }

  ghost predicate Lawful(c: Crypto) {
    && (forall key, nonce, plain :: c.seal(key, nonce, plain).Some? ==>
          c.open(key, nonce, c.seal(key, nonce, plain).value) == Some(plain))
    && (forall k :: VerifyCrc(c, k) ==> c.unmarshal(c.marshal(k)) == Some(k))
  }

  // ----- one envelope

  /** Encrypt with a key set and tag the result with the key's id. */
  function Wrap(c: Crypto, coding: Envelope.Coding, id: int, key: KeySet, nonce: Binary, plain: Binary): Option<string> {
    match c.seal(key.aes256.bytes, nonce, plain)
    case None => None
    case Some(data) => Some(Envelope.Format(coding, id, data, nonce))
  }

  function Unwrap(c: Crypto, key: KeySet, o: Envelope.Opened): Option<Binary> {
    c.open(key.aes256.bytes, o.nonce, o.data)
  }

  /** The text is an envelope tagged id that the key opens to plain. */
  predicate Contains(c: Crypto, coding: Envelope.Coding, text: string, id: int, key: KeySet, plain: Binary) {
    match Envelope.Parse(coding, text)
    case None => false
    case Some(o) => o.id == id && Unwrap(c, key, o) == Some(plain)
  }

  lemma WrapContains(c: Crypto, coding: Envelope.Coding, id: int, key: KeySet, nonce: Binary, plain: Binary)
    requires Lawful(c) && Decimal.IsInt64(id) && Wrap(c, coding, id, key, nonce, plain).Some?
    ensures Contains(c, coding, Wrap(c, coding, id, key, nonce, plain).value, id, key, plain)
  {
    Envelope.EnvelopeRoundTrip(coding, id, c.seal(key.aes256.bytes, nonce, plain).value, nonce);
  }

  // ----- the root keys

  type RootKeys = map<int, KeySet>

  datatype Provider = Provider(keySets: RootKeys, latest: int) {
    /** Encryption uses the greatest key id; all ids are 64-bit. */
    predicate Valid() {
      latest in keySets && forall k :: k in keySets ==> k <= latest && Decimal.IsInt64(k)
    }
  }

  function RootSeal(c: Crypto, p: Provider, nonce: Binary, plain: Binary): Option<string>
    requires p.latest in p.keySets
  {
    Wrap(c, Envelope.HexText, p.latest, p.keySets[p.latest], nonce, plain)
  }

  /** The root key id an envelope is tagged with. */
  function RootId(text: string): Option<int> {
    match Envelope.Parse(Envelope.HexText, text)
    case None => None
    case Some(o) => Some(o.id)
  }

  /** decryptInternal: any key still provided opens what it sealed, not only the latest. */
  function RootOpen(c: Crypto, keys: RootKeys, text: string): Option<Binary> {
    match Envelope.Parse(Envelope.HexText, text)
    case None => None
    case Some(o) => if o.id in keys then Unwrap(c, keys[o.id], o) else None
  }

  function OpenKeySet(c: Crypto, keys: RootKeys, text: string): Option<KeySet> {
    match RootOpen(c, keys, text)
    case None => None
    case Some(plain) => c.unmarshal(plain)
  }

  predicate Extends(was: RootKeys, now: RootKeys) {
    forall k :: k in was ==> k in now && now[k] == was[k]
  }

  lemma RootSealOpens(c: Crypto, p: Provider, nonce: Binary, plain: Binary)
    requires Lawful(c) && p.Valid() && RootSeal(c, p, nonce, plain).Some?
    ensures var text := RootSeal(c, p, nonce, plain).value;
      RootOpen(c, p.keySets, text) == Some(plain) && RootId(text) == Some(p.latest)
  {
    WrapContains(c, Envelope.HexText, p.latest, p.keySets[p.latest], nonce, plain);
  }

  /** What a set of root keys opens, every larger set opens to the same bytes. */
  lemma LargerOpens(c: Crypto, was: RootKeys, now: RootKeys, text: string)
    requires Extends(was, now) && RootOpen(c, was, text).Some?
    ensures RootOpen(c, now, text) == RootOpen(c, was, text)
  {
  }

  /** After any change of root keys that does not replace a key under its id, an envelope opens as before exactly
      when the one key it names was kept. */
  lemma OpensIffKept(c: Crypto, was: RootKeys, now: RootKeys, text: string)
    requires RootOpen(c, was, text).Some?
    requires forall k :: k in was && k in now ==> now[k] == was[k]
    ensures RootId(text).Some? && (RootOpen(c, now, text) == RootOpen(c, was, text) <==> RootId(text).value in now)
    ensures RootId(text).value !in now ==> RootOpen(c, now, text) == None
  {
  }

  datatype Loaded = Ready(provider: Provider) | Refused | NoKeys

  /** NewLocalFileUnsealProvider: None stands for a file that cannot be read or decoded. With no files at all the
      Go code panics, here NoKeys. */
  method NewProvider(c: Crypto, files: map<int, Option<KeySet>>) returns (r: Loaded)
    ensures r.Refused? <==> exists id :: id in files && (files[id] == None || !VerifyCrc(c, files[id].value))
    ensures r.NoKeys? <==> files == map[]
    ensures r.Ready? ==> r.provider.keySets.Keys == files.Keys && r.provider.latest in files
    ensures r.Ready? ==> forall id :: id in files ==>
      files[id] == Some(r.provider.keySets[id]) && id <= r.provider.latest
  {
    var keySets: RootKeys := map[];
    var todo := files.Keys;
    while todo != {}
      invariant todo <= files.Keys && keySets.Keys == files.Keys - todo
      invariant forall id :: id in keySets ==> files[id] == Some(keySets[id]) && VerifyCrc(c, keySets[id])
      decreases |todo|
    {
      ghost var some := Element(todo);
      var id :| id in todo;
      if files[id] == None || !VerifyCrc(c, files[id].value) {
        return Refused;
      }
      keySets := keySets[id := files[id].value];
      todo := todo - {id};
    }
    if keySets == map[] {
      assert files.Keys == {};
      return NoKeys;
    }
    var maxKeyId := MaxKey(keySets.Keys);
    assert maxKeyId in keySets.Keys;
    r := Ready(Provider(keySets, maxKeyId));
  }

  method MaxKey(keys: set<int>) returns (m: int)
    requires keys != {}
    ensures m in keys && forall k :: k in keys ==> k <= m
  {
    ghost var some := Element(keys);
    m :| m in keys;
    var todo := keys - {m};
    while todo != {}
      invariant todo <= keys && m in keys && forall k :: k in keys ==> k in todo || k <= m
      decreases |todo|
    {
      ghost var other := Element(todo);
      var k :| k in todo;
      if m < k {
        m := k;
      }
      todo := todo - {k};
    }
  }
}
