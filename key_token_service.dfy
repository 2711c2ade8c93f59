/**
 * The key-token service: the authoritative store of session records (the
 * MongoDB `key_tokens` collection, one record per user) and its Redis cache,
 * keyed by "keytoken:" followed by the user id. Both are maps owned by one
 * object whose methods change them the way the service does, in the same
 * order; the ghost log `effects` records that order.
 */
module KeyTokens {
  import opened Wrappers
  import opened Text
  import opened Bytes
  import opened Crypto
  import opened KeyTokenEntity
  import opened Errors

  const RedisKeyPrefix: string := "keytoken:"

  /** The cache lifetime of a record: seven days, in seconds. */
  const CacheTtlSeconds: int := 86400 * 7

  /** The Redis key under which a user's record is cached. */
  function RedisKey(userId: string): string {
    RedisKeyPrefix + userId
  }

  /** Different users never share a cache key. */
  lemma RedisKeyInjective(a: string, b: string)
    requires RedisKey(a) == RedisKey(b)
    ensures a == b
  {
    assert a == RedisKey(a)[|RedisKeyPrefix|..];
    assert b == RedisKey(b)[|RedisKeyPrefix|..];
  }

  /**
   * `new Types.ObjectId(text)` accepts exactly 24 hexadecimal digits, in
   * either case; for any other text BSON throws a plain `Error` with this
   * message.
   */
  predicate IsObjectIdText(s: string) {
    |s| == 24 && forall k :: 0 <= k < |s| ==> IsHexDigit(s[k])
  }

  predicate IsHexDigit(c: char) {
    '0' <= c <= '9' || 'a' <= c <= 'f' || 'A' <= c <= 'F'
  }

  const ObjectIdMessage: string := "input must be a 24 character hex string, 12 byte Uint8Array, or an integer"
  const ObjectIdError: Thrown := PlainError(ObjectIdMessage)

  /** What the cache holds under a key: the serialised record and its time to live. */
  datatype CacheEntry = CacheEntry(doc: KeyToken, ttl: int)

  /** Two caches that agree away from key `k` agree everywhere once `k` is overwritten. */
  lemma OverwriteAgrees(a: map<string, CacheEntry>, b: map<string, CacheEntry>, k: string, e: CacheEntry)
    requires a - {k} == b - {k}
    ensures a[k := e] == b[k := e]
  {
    forall x | x in a
      ensures x in b[k := e] && a[k := e][x] == b[k := e][x]
    {
      if x != k {
        assert x in a - {k};
      }
    }
    forall x | x in b
      ensures x in a[k := e]
    {
      if x != k {
        assert x in b - {k};
      }
    }
  }

  /** Every entry of `before` is still in `after`, unchanged; a lookup may only add entries. */
  predicate CacheKept(before: map<string, CacheEntry>, after: map<string, CacheEntry>) {
    forall k :: k in before ==> k in after && after[k] == before[k]
  }

  /** The reads and writes the service performs on the two stores, in order. */
  datatype Effect =
    | StoreFind(user: string)
    | StoreUpsert(user: string)
    | StoreDelete(user: string)
    | CacheGet(key: string)
    | CacheSet(key: string, ttl: int)
    | CacheDelete(key: string)

  /** The random draws one issuance consumes: an RSA key pair, 32 secret bytes, a 16-byte nonce, a 12-byte IV. */
  datatype Entropy = Entropy(keyPair: nat, sessionSecret: seq<byte>, nonce: seq<byte>, iv: seq<byte>)

  /** `randomBytes(n)` gives exactly n bytes. */
  predicate WellDrawn(draw: Entropy) {
    |draw.sessionSecret| == 32 && |draw.nonce| == 16 && |draw.iv| == 12
  }

  /**
   * The history after issuing `key`: the new key first, then the old keys in
   * their order, cut to `MaxHistory` entries.
   */
  function Rotated(history: seq<PublicKey>, key: PublicKey): (r: seq<PublicKey>)
    ensures |r| == Min(|history| + 1, MaxHistory)
    ensures r[0] == key
    ensures forall i :: 1 <= i < |r| ==> r[i] == history[i - 1]
  {
    [key] + history[..Min(|history|, MaxHistory - 1)]
  }

  /**
   * The token pair issued for a user from the drawn entropy: both tokens carry
   * the user, the student and the fresh session secret, signed with the fresh
   * private key.
   */
  function IssuedPair(j: JwtScheme, userId: string, studentId: string, draw: Entropy, now: int): (p: TokenPair)
    ensures p.publicKey == GenerateRsaKeyPair(draw.keyPair).publicKey
    ensures var c := Claims(userId, studentId, RandomString(draw.sessionSecret));
      && p.accessToken == j.sign(c, GenerateRsaKeyPair(draw.keyPair).privateKey, now + AccessTokenLifetime)
      && p.refreshToken == j.sign(c, GenerateRsaKeyPair(draw.keyPair).privateKey, now + RefreshTokenLifetime)
  {
    var kp := GenerateRsaKeyPair(draw.keyPair);
    CreateJwtPair(j, Claims(userId, studentId, RandomString(draw.sessionSecret)), kp.privateKey, kp.publicKey, now)
  }

  /** The history stored for `userId`, empty when there is no record. */
  function HistoryOf(store: map<string, KeyToken>, userId: string): seq<PublicKey> {
    if userId in store then store[userId].publicKeyHistory else []
  }

  /** The metadata stored for `userId`, absent when there is no record. */
  function MetadataOf(store: map<string, KeyToken>, userId: string): Option<Metadata> {
    if userId in store then store[userId].metadata else None
  }

  /** The history left by issuing `keys` one after another, starting with no record. */
  function HistoryAfter(keys: seq<PublicKey>): seq<PublicKey> {
    if |keys| == 0 then [] else Rotated(HistoryAfter(keys[..|keys| - 1]), keys[|keys| - 1])
  }

  /**
   * After any number of issuances the history holds the last (at most three)
   * keys issued, newest first.
   */
  lemma {:induction false} HistoryAfterNewestFirst(keys: seq<PublicKey>)
    ensures |HistoryAfter(keys)| == Min(|keys|, MaxHistory)
    ensures forall i :: 0 <= i < |HistoryAfter(keys)| ==> HistoryAfter(keys)[i] == keys[|keys| - 1 - i]
  {
    if |keys| > 0 {
      var prefix := keys[..|keys| - 1];
      HistoryAfterNewestFirst(prefix);
      var h := HistoryAfter(keys);
      forall i | 1 <= i < |h|
        ensures h[i] == keys[|keys| - 1 - i]
      {
        assert h[i] == HistoryAfter(prefix)[i - 1] == prefix[|prefix| - 1 - (i - 1)];
      }
    }
  }

  class KeyTokenService {
    const encryption: EncryptionService
    const jwt: JwtScheme
    /** The `key_tokens` collection, keyed by user id. */
    var store: map<string, KeyToken>
    /** The Redis key space. */
    var cache: map<string, CacheEntry>
    ghost var effects: seq<Effect>

    /**
     * Each record is filed under its own user, whose id is ObjectId text, and
     * keeps at most `MaxHistory` keys; a cached record is the stored one.
     */
    ghost predicate Valid()
      reads this
    {
      && (forall u :: u in store ==> store[u].user == u && IsObjectIdText(u) && |store[u].publicKeyHistory| <= MaxHistory)
      && (forall u :: RedisKey(u) in cache ==> u in store && cache[RedisKey(u)].doc == store[u])
    }

    constructor (encryption: EncryptionService, jwt: JwtScheme)
      ensures Valid()
      ensures this.encryption == encryption && this.jwt == jwt
      ensures store == map[] && cache == map[] && effects == []
    {
      this.encryption := encryption;
      this.jwt := jwt;
      store := map[];
      cache := map[];
      effects := [];
    }

    /**
     * `createKeyToken`: draws a key pair, a session secret and a nonce,
     * encrypts the third-party artifact, reads the old history from the store,
     * writes the whole record in one upsert, then refreshes the cache, and
     * returns a token pair signed with the new private key. The private key
     * reaches only the signing step: a record has no field for it. A user id
     * that is not ObjectId text throws at the first store query, before any
     * store or cache effect.
     */
    method CreateKeyToken(userId: string, studentId: string, vluteToken: string, expiresAt: int,
                          metadata: Option<Metadata>, draw: Entropy, now: int)
      returns (r: Result<TokenPair, Thrown>)
      requires Valid() && WellDrawn(draw)
      modifies this
      ensures Valid()
      ensures r.Success? <==> IsObjectIdText(userId)
      ensures r.Failure? ==>
        r.error == ObjectIdError && store == old(store) && cache == old(cache) && effects == old(effects)
      ensures r.Success? ==> userId in store && store == old(store)[userId := store[userId]]
      ensures r.Success? ==> cache == old(cache)[RedisKey(userId) := CacheEntry(store[userId], CacheTtlSeconds)]
      ensures r.Success? ==>
        effects == old(effects) + [StoreFind(userId), StoreUpsert(userId), CacheSet(RedisKey(userId), CacheTtlSeconds)]
      ensures r.Success? ==> r.value == IssuedPair(jwt, userId, studentId, draw, now)
      ensures r.Success? ==> var rec := store[userId];
        && rec.user == userId && rec.studentId == studentId && rec.expiresAt == expiresAt
        && rec.publicKeyHistory == Rotated(HistoryOf(old(store), userId), r.value.publicKey)
        && rec.nonce == RandomString(draw.nonce) && rec.iv == RandomString(draw.iv)
        && |rec.nonce| == 32 && |rec.iv| == 24
        && encryption.DecryptToken(rec.encryptedToken, rec.iv, rec.authTag, RandomString(draw.sessionSecret), rec.nonce) == Some(vluteToken)
        && rec.metadata == (if metadata.Some? then metadata else MetadataOf(old(store), userId))
    {
      var kp := GenerateRsaKeyPair(draw.keyPair);
      var sessionSecret := RandomString(draw.sessionSecret);
      var nonce := RandomString(draw.nonce);
      var encrypted := encryption.EncryptToken(vluteToken, sessionSecret, nonce, RandomString(draw.iv));

      if !IsObjectIdText(userId) {
        return Failure(ObjectIdError);
      }
      var existing := if userId in store then Some(store[userId]) else None;
      effects := effects + [StoreFind(userId)];
      var history := if existing.Some? then existing.value.publicKeyHistory else [];
      history := [kp.publicKey] + history;
      if |history| > MaxHistory {
        history := history[..MaxHistory];
      }
      assert history == Rotated(HistoryOf(old(store), userId), kp.publicKey);

      // An update field left undefined keeps the stored value.
      var keptMetadata := if metadata.Some? then metadata else if existing.Some? then existing.value.metadata else None;
      var doc := KeyToken(userId, studentId, history, encrypted.encryptedData, nonce,
                          encrypted.iv, encrypted.authTag, expiresAt, keptMetadata);
      store := store[userId := doc];
      effects := effects + [StoreUpsert(userId)];

      SyncToRedis(userId, doc);
      forall u | RedisKey(u) in cache
        ensures u in store && cache[RedisKey(u)].doc == store[u]
      {
        if RedisKey(u) == RedisKey(userId) { RedisKeyInjective(u, userId); }
      }

      var tokens := CreateJwtPair(jwt, Claims(userId, studentId, sessionSecret), kp.privateKey, kp.publicKey, now);
      return Success(tokens);
    }

    /** `syncToRedis`: caches `doc` under the user's key for seven days. */
    method SyncToRedis(userId: string, doc: KeyToken)
      modifies this
      ensures store == old(store)
      ensures cache == old(cache)[RedisKey(userId) := CacheEntry(doc, CacheTtlSeconds)]
      ensures effects == old(effects) + [CacheSet(RedisKey(userId), CacheTtlSeconds)]
    {
      cache := cache[RedisKey(userId) := CacheEntry(doc, CacheTtlSeconds)];
      effects := effects + [CacheSet(RedisKey(userId), CacheTtlSeconds)];
    }

    /**
     * `findByUserId`: the cached record on a hit, without touching the store;
     * on a miss the stored record, cached again when there is one. Either way
     * the answer is what the store holds. On a miss, a user id that is not
     * ObjectId text throws before the store is queried; it can never hit,
     * since only stored users are cached.
     */
    method FindByUserId(userId: string) returns (r: Result<Option<KeyToken>, Thrown>)
      requires Valid()
      modifies this
      ensures Valid()
      ensures store == old(store)
      ensures r == if IsObjectIdText(userId) then Success(if userId in store then Some(store[userId]) else None)
                   else Failure(ObjectIdError)
      ensures RedisKey(userId) in old(cache) || !IsObjectIdText(userId) ==>
        cache == old(cache) && effects == old(effects) + [CacheGet(RedisKey(userId))]
      ensures RedisKey(userId) !in old(cache) && IsObjectIdText(userId) && userId in store ==>
        && cache == old(cache)[RedisKey(userId) := CacheEntry(store[userId], CacheTtlSeconds)]
        && effects == old(effects) + [CacheGet(RedisKey(userId)), StoreFind(userId), CacheSet(RedisKey(userId), CacheTtlSeconds)]
      ensures RedisKey(userId) !in old(cache) && IsObjectIdText(userId) && userId !in store ==>
        cache == old(cache) && effects == old(effects) + [CacheGet(RedisKey(userId)), StoreFind(userId)]
    {
      var redisKey := RedisKey(userId);
      effects := effects + [CacheGet(redisKey)];
      if redisKey in cache {
        return Success(Some(cache[redisKey].doc));
      }
      if !IsObjectIdText(userId) {
        return Failure(ObjectIdError);
      }
      effects := effects + [StoreFind(userId)];
      if userId in store {
        var doc := store[userId];
        cache := cache[redisKey := CacheEntry(doc, CacheTtlSeconds)];
        effects := effects + [CacheSet(redisKey, CacheTtlSeconds)];
        forall u | RedisKey(u) in cache
          ensures u in store && cache[RedisKey(u)].doc == store[u]
        {
          if RedisKey(u) == redisKey { RedisKeyInjective(u, userId); }
        }
        return Success(Some(doc));
      }
      return Success(None);
    }

    /**
     * `handleIntrusion`: raises the alert and purges the user's record from
     * the store, then the cache; a user id that is not ObjectId text throws
     * before either delete.
     */
    method HandleIntrusion(userId: string) returns (r: Result<(), Thrown>)
      requires Valid()
      modifies this
      ensures Valid()
      ensures r == if IsObjectIdText(userId) then Success(()) else Failure(ObjectIdError)
      ensures r.Success? ==>
        && store == old(store) - {userId}
        && cache == old(cache) - {RedisKey(userId)}
        && effects == old(effects) + [StoreDelete(userId), CacheDelete(RedisKey(userId))]
      ensures r.Failure? ==> store == old(store) && cache == old(cache) && effects == old(effects)
    {
      if !IsObjectIdText(userId) {
        return Failure(ObjectIdError);
      }
      store := store - {userId};
      effects := effects + [StoreDelete(userId)];
      cache := cache - {RedisKey(userId)};
      effects := effects + [CacheDelete(RedisKey(userId))];
      return Success(());
    }

    /** `removeByUserId` (logout): the same deletes as `handleIntrusion`, without the alert. */
    method RemoveByUserId(userId: string) returns (r: Result<(), Thrown>)
      requires Valid()
      modifies this
      ensures Valid()
      ensures r == if IsObjectIdText(userId) then Success(()) else Failure(ObjectIdError)
      ensures r.Success? ==>
        && store == old(store) - {userId}
        && cache == old(cache) - {RedisKey(userId)}
        && effects == old(effects) + [StoreDelete(userId), CacheDelete(RedisKey(userId))]
      ensures r.Failure? ==> store == old(store) && cache == old(cache) && effects == old(effects)
    {
      if !IsObjectIdText(userId) {
        return Failure(ObjectIdError);
      }
      store := store - {userId};
      effects := effects + [StoreDelete(userId)];
      cache := cache - {RedisKey(userId)};
      effects := effects + [CacheDelete(RedisKey(userId))];
      return Success(());
    }
  }

  /** A client run: two issuances for a new user leave both keys, newest first. */
  method IssueTwice(svc: KeyTokenService, userId: string, draw1: Entropy, draw2: Entropy, now: int)
    returns (t1: TokenPair, t2: TokenPair)
    requires svc.Valid() && IsObjectIdText(userId) && userId !in svc.store
    requires WellDrawn(draw1) && WellDrawn(draw2)
    modifies svc
    ensures svc.Valid() && userId in svc.store
    ensures svc.store[userId].publicKeyHistory == [t2.publicKey, t1.publicKey]
  {
    var r1 := svc.CreateKeyToken(userId, "s", "artifact", now, None, draw1, now);
    t1 := r1.value;
    assert svc.store[userId].publicKeyHistory == [t1.publicKey];
    var r2 := svc.CreateKeyToken(userId, "s", "artifact", now, None, draw2, now);
    t2 := r2.value;
  }

  /**
   * A client run: after two issuances, removing the record and then purging
   * it again leaves the same state as removing it once.
   */
  method IssueThenPurgeTwice(svc: KeyTokenService, userId: string, draw1: Entropy, draw2: Entropy, now: int)
    returns (t1: TokenPair, t2: TokenPair, history: seq<PublicKey>)
    requires svc.Valid() && IsObjectIdText(userId) && userId !in svc.store
    requires WellDrawn(draw1) && WellDrawn(draw2)
    modifies svc
    ensures history == [t2.publicKey, t1.publicKey]
    ensures svc.Valid() && userId !in svc.store && RedisKey(userId) !in svc.cache
  {
    t1, t2 := IssueTwice(svc, userId, draw1, draw2, now);
    history := svc.store[userId].publicKeyHistory;
    var _ := svc.RemoveByUserId(userId);
    var storeOnce, cacheOnce := svc.store, svc.cache;
    var _ := svc.HandleIntrusion(userId);
    assert svc.store == storeOnce && svc.cache == cacheOnce;
  }
}
