/**
 * The request guard of protected routes. It takes the access token from the
 * `accessToken` cookie or else from an `Authorization: Bearer` header, reads
 * the user id from the unverified payload, loads that user's key-token record
 * and runs the verification cascade: the newest key admits the request, an
 * older key means a superseded token is being replayed, which purges the
 * user's session, and no key at all rejects the request.
 */
module Guard {
  import opened Wrappers
  import opened Text
  import opened Crypto
  import opened Errors
  import opened ExceptionsFilter
  import opened KeyTokenEntity
  import opened KeyTokens
  import opened Cascade

  const MissingTokenMessage: string := "Missing authentication token"
  const MalformedTokenMessage: string := "Malformed token"
  const MissingUserIdMessage: string := "Token missing userId"
  const NoSessionMessage: string := "User session not found or expired"
  const OldTokenMessage: string := "Security alert: Old session token detected"
  const InvalidTokenMessage: string := "Invalid token or expired session"

  // ---------------------------------------------------------------- token extraction

  /** The `accessToken` cookie when it is present and non-empty. */
  function CookieToken(cookies: map<string, string>): Option<string> {
    if "accessToken" in cookies && cookies["accessToken"] != "" then Some(cookies["accessToken"]) else None
  }

  /** `t` is the word right after `Bearer ` in `header`, up to the next space or the end. */
  predicate IsBearerToken(header: string, t: string) {
    && HasPrefix(header, "Bearer " + t)
    && ' ' !in t
    && (|header| == 7 + |t| || header[7 + |t|] == ' ')
  }

  /** Splitting a header on spaces: the first piece is `Bearer` with a second piece iff the header starts with `Bearer `, and that second piece is the bearer word. */
  lemma BearerParts(header: string)
    ensures var parts := Split(header, ' ');
      parts[0] == "Bearer" && |parts| >= 2 <==> HasPrefix(header, "Bearer ")
    ensures HasPrefix(header, "Bearer ") ==> IsBearerToken(header, Split(header, ' ')[1])
  {
    var i := IndexFrom(header, ' ', 0);
    var parts := Split(header, ' ');
    if HasPrefix(header, "Bearer ") {
      assert header[6] == ' ';
      assert forall k :: 0 <= k < 6 ==> header[k] == "Bearer "[k];
      assert i == 6;
      var rest := header[7..];
      assert parts == [header[..6]] + Split(rest, ' ');
      var j := IndexFrom(rest, ' ', 0);
      var t := Split(rest, ' ')[0];
      assert t == rest[..j];
      assert header[..7 + |t|] == "Bearer " + t;
      assert 7 + j < |header| ==> header[7 + |t|] == rest[j];
    }
  }

  /**
   * `extractToken`: a non-empty cookie wins; otherwise the header yields a
   * token exactly when it starts with `Bearer `, and the token is the word
   * after it.
   */
  function ExtractToken(cookies: map<string, string>, authorization: Option<string>): (r: Option<string>)
    ensures CookieToken(cookies).Some? ==> r == CookieToken(cookies)
    ensures CookieToken(cookies).None? ==>
      (r.Some? <==> authorization.Some? && HasPrefix(authorization.value, "Bearer "))
    ensures CookieToken(cookies).None? && r.Some? ==> IsBearerToken(authorization.value, r.value)
  {
    if CookieToken(cookies).Some? then CookieToken(cookies)
    else if authorization.None? then None
    else
      BearerParts(authorization.value);
      var parts := Split(authorization.value, ' ');
      if parts[0] == "Bearer" && |parts| >= 2 then Some(parts[1]) else None
  }

  /** A header `Bearer <t>` hands back `t` whenever `t` has no space. */
  lemma BearerHeaderRoundTrip(t: string)
    requires ' ' !in t
    ensures ExtractToken(map[], Some("Bearer " + t)) == Some(t)
  {
    var header := "Bearer " + t;
    assert header[..7] == "Bearer ";
    assert header[7..] == t;
    var r := ExtractToken(map[], Some(header));
    assert CookieToken(map[]) == None;
    assert r.Some? && IsBearerToken(header, r.value);
    assert r.value == header[7..7 + |r.value|];
    assert |r.value| == |t|;
    assert r.value == t;
  }

  // ---------------------------------------------------------------- the decision

  /** What the guard decides. */
  datatype GuardOutcome =
    | Allow(payload: Claims)      // admitted with the verified payload
    | Deny(message: string)       // rejected with this 401 message
    | Intrusion(userId: string)   // a superseded token: the session is purged, then rejected
    | Fault(error: Thrown)        // an error the guard does not catch itself

  /**
   * The guard's decision for `token` against the stored records at time
   * `now`. Admission needs the newest key of the claimed user; a purge needs
   * that user's record and an older key of it. A claimed user id that is not
   * ObjectId text makes the record lookup throw (only stored users are
   * cached, so such an id always misses the cache).
   */
  function Authenticate(j: JwtScheme, token: Option<string>, store: map<string, KeyToken>, now: int): (o: GuardOutcome)
    ensures o.Allow? ==>
      && token.Some? && j.decode(token.value).Some?
      && var u := j.decode(token.value).value.userId;
        && u in store && |store[u].publicKeyHistory| > 0
        && j.verify(token.value, store[u].publicKeyHistory[0], now) == Verified(o.payload)
    ensures o.Intrusion? ==>
      && token.Some? && j.decode(token.value).Some? && j.decode(token.value).value.userId == o.userId
      && o.userId in store
      && Classify(j, token.value, store[o.userId].publicKeyHistory, now).Superseded?
    ensures o.Fault? ==>
      && o.error == ObjectIdError
      && token.Some? && j.decode(token.value).Some? && !IsObjectIdText(j.decode(token.value).value.userId)
  {
    if token.None? || token.value == "" then Deny(MissingTokenMessage)
    else match j.decode(token.value)
      case None => Deny(MalformedTokenMessage)
      case Some(c) =>
        if c.userId == "" then Deny(MissingUserIdMessage)
        else if !IsObjectIdText(c.userId) then Fault(ObjectIdError)
        else if c.userId !in store || |store[c.userId].publicKeyHistory| == 0 then Deny(NoSessionMessage)
        else match Classify(j, token.value, store[c.userId].publicKeyHistory, now)
          case Current(p) => Allow(p)
          case Superseded(_) => Intrusion(c.userId)
          case Unmatched => Deny(InvalidTokenMessage)
  }

  /** An unexpired token signed with the user's newest key is admitted with its own claims. */
  lemma FreshTokenAllowed(j: JwtScheme, c: Claims, k: PrivateKey, exp: int, store: map<string, KeyToken>, now: int)
    requires Sound(j)
    requires IsObjectIdText(c.userId) && c.userId in store
    requires |store[c.userId].publicKeyHistory| > 0 && store[c.userId].publicKeyHistory[0] == PublicOf(k)
    requires now < exp
    ensures Authenticate(j, Some(j.sign(c, k, exp)), store, now) == Allow(c)
  {
    assert j.decode(j.sign(c, k, exp)) == Some(c);
    assert j.sign(c, k, exp) != "";
    SignedWithNewestIsCurrent(j, c, k, exp, store[c.userId].publicKeyHistory, now);
  }

  /** An unexpired token signed with an older key of the user's history purges the session. */
  lemma ReplayedTokenIsIntrusion(j: JwtScheme, c: Claims, k: PrivateKey, exp: int, store: map<string, KeyToken>, i: nat, now: int)
    requires Sound(j)
    requires IsObjectIdText(c.userId) && c.userId in store
    requires DistinctKeys(store[c.userId].publicKeyHistory)
    requires 1 <= i < |store[c.userId].publicKeyHistory| && store[c.userId].publicKeyHistory[i] == PublicOf(k)
    requires now < exp
    ensures Authenticate(j, Some(j.sign(c, k, exp)), store, now) == Intrusion(c.userId)
  {
    assert j.decode(j.sign(c, k, exp)) == Some(c);
    assert j.sign(c, k, exp) != "";
    SignedWithOlderIsSuperseded(j, c, k, exp, store[c.userId].publicKeyHistory, i, now);
  }

  /**
   * An expired token, or one signed with a key the history no longer holds,
   * is rejected without a purge, whichever key signed it.
   */
  lemma StaleTokenDenied(j: JwtScheme, c: Claims, k: PrivateKey, exp: int, store: map<string, KeyToken>, now: int)
    requires Sound(j)
    requires IsObjectIdText(c.userId) && c.userId in store && |store[c.userId].publicKeyHistory| > 0
    requires PublicOf(k) !in store[c.userId].publicKeyHistory || now >= exp
    ensures Authenticate(j, Some(j.sign(c, k, exp)), store, now) == Deny(InvalidTokenMessage)
  {
    assert j.decode(j.sign(c, k, exp)) == Some(c);
    assert j.sign(c, k, exp) != "";
    UnknownKeyOrExpiredIsUnmatched(j, c, k, exp, store[c.userId].publicKeyHistory, now);
  }

  /**
   * Once a user's record is gone, every token naming that user is refused
   * without a further purge: with a 401 when the id is ObjectId text, and
   * otherwise with BSON's error, which the exception filter answers with a
   * 500 carrying BSON's message.
   */
  lemma PurgedUserDenied(j: JwtScheme, token: string, store: map<string, KeyToken>, now: int)
    requires token != "" && j.decode(token).Some?
    requires j.decode(token).value.userId != "" && j.decode(token).value.userId !in store
    ensures var o := Authenticate(j, Some(token), store, now);
      if IsObjectIdText(j.decode(token).value.userId) then o == Deny(NoSessionMessage)
      else o == Fault(ObjectIdError) && Respond(o.error).0 == 500
           && Get(Respond(o.error).1.fields, "message") == Str(ObjectIdMessage)
  {
    PlainErrorIsInternal(ObjectIdMessage);
  }

  // ---------------------------------------------------------------- the guard

  /** The parts of an HTTP request the guard reads, and the `user` slot it fills. */
  class Request {
    const cookies: map<string, string>
    const authorization: Option<string>
    var user: Option<Claims>

    constructor (cookies: map<string, string>, authorization: Option<string>)
      ensures this.cookies == cookies && this.authorization == authorization && user == None
    {
      this.cookies := cookies;
      this.authorization := authorization;
      user := None;
    }
  }

  /** The guard shares the key-token service and its token service. */
  class AuthGuard {
    const keyTokens: KeyTokenService

    constructor (keyTokens: KeyTokenService)
      ensures this.keyTokens == keyTokens
    {
      this.keyTokens := keyTokens;
    }

    /**
     * `canActivate`: admits the request and records its payload, or throws a
     * 401; a replayed superseded token first purges the user's record from
     * store and cache. The record lookup's own error passes through.
     */
    method CanActivate(request: Request, now: int) returns (r: Result<bool, Thrown>)
      requires keyTokens.Valid()
      modifies keyTokens, request
      ensures keyTokens.Valid()
      ensures match Authenticate(keyTokens.jwt, ExtractToken(request.cookies, request.authorization), old(keyTokens.store), now)
        case Allow(p) =>
          r == Success(true) && request.user == Some(p) && keyTokens.store == old(keyTokens.store)
          && CacheKept(old(keyTokens.cache), keyTokens.cache)
        case Deny(m) =>
          r == Failure(UnauthorizedException(m)) && request.user == old(request.user)
          && keyTokens.store == old(keyTokens.store) && CacheKept(old(keyTokens.cache), keyTokens.cache)
        case Intrusion(u) =>
          r == Failure(UnauthorizedException(OldTokenMessage)) && request.user == old(request.user)
          && keyTokens.store == old(keyTokens.store) - {u} && keyTokens.cache == old(keyTokens.cache) - {RedisKey(u)}
        case Fault(e) =>
          r == Failure(e) && request.user == old(request.user) && keyTokens.store == old(keyTokens.store)
          && keyTokens.cache == old(keyTokens.cache)
    {
      var jwt := keyTokens.jwt;
      var token := ExtractToken(request.cookies, request.authorization);
      if token.None? || token.value == "" {
        return Failure(UnauthorizedException(MissingTokenMessage));
      }

      var decoded := jwt.decode(token.value);
      if decoded.None? {
        return Failure(UnauthorizedException(MalformedTokenMessage));
      }
      var userId := decoded.value.userId;
      if userId == "" {
        return Failure(UnauthorizedException(MissingUserIdMessage));
      }

      var found := keyTokens.FindByUserId(userId);
      if found.Failure? {
        return Failure(found.error);
      }
      var keyToken := found.value;
      if keyToken.None? || |keyToken.value.publicKeyHistory| == 0 {
        return Failure(UnauthorizedException(NoSessionMessage));
      }
      var history := keyToken.value.publicKeyHistory;

      var latest := jwt.verify(token.value, history[0], now);
      if latest.Verified? {
        request.user := Some(latest.claims);
        return Success(true);
      }

      var older := ScanOlderKeys(jwt, token.value, history, now);
      if older.Some? {
        var purged := keyTokens.HandleIntrusion(userId);
        assert purged.Success?;
        return Failure(UnauthorizedException(OldTokenMessage));
      }
      return Failure(UnauthorizedException(InvalidTokenMessage));
    }
  }

  /** A client run: a fresh login's access token is admitted and its claims recorded. */
  method LoginThenAccess(svc: KeyTokenService, userId: string, studentId: string, draw: Entropy, now: int)
    returns (tokens: TokenPair, request: Request, r: Result<bool, Thrown>)
    requires svc.Valid() && Sound(svc.jwt) && IsObjectIdText(userId) && userId !in svc.store
    requires WellDrawn(draw)
    modifies svc
    ensures svc.Valid()
    ensures var k := GenerateRsaKeyPair(draw.keyPair).privateKey;
      var claims := Claims(userId, studentId, RandomString(draw.sessionSecret));
      && tokens.accessToken == svc.jwt.sign(claims, k, now + AccessTokenLifetime)
      && userId in svc.store && svc.store[userId].publicKeyHistory == [PublicOf(k)]
      && r == Success(true) && request.user == Some(claims)
  {
    var guard := new AuthGuard(svc);
    var issued := svc.CreateKeyToken(userId, studentId, "artifact", now + RefreshTokenLifetime, None, draw, now);
    tokens := issued.value;
    var claims := Claims(userId, studentId, RandomString(draw.sessionSecret));
    var k := GenerateRsaKeyPair(draw.keyPair).privateKey;
    assert svc.store[userId].publicKeyHistory[0] == PublicOf(k);
    FreshTokenAllowed(svc.jwt, claims, k, now + AccessTokenLifetime, svc.store, now);
    request := new Request(map["accessToken" := tokens.accessToken], None);
    assert ExtractToken(request.cookies, request.authorization) == Some(tokens.accessToken);
    r := guard.CanActivate(request, now);
  }

  /**
   * A client run: after a second login rotates the key, replaying the first
   * access token purges the session (after which `PurgedUserDenied` refuses
   * every token of that user).
   */
  method RotateThenReplay(svc: KeyTokenService, userId: string, studentId: string, draw1: Entropy, draw2: Entropy, now: int)
    returns (r: Result<bool, Thrown>)
    requires svc.Valid() && Sound(svc.jwt) && IsObjectIdText(userId) && userId !in svc.store
    requires draw1.keyPair != draw2.keyPair && WellDrawn(draw1) && WellDrawn(draw2)
    modifies svc
    ensures r == Failure(UnauthorizedException(OldTokenMessage)) && userId !in svc.store
  {
    var guard := new AuthGuard(svc);
    var issued1 := svc.CreateKeyToken(userId, studentId, "artifact", now + RefreshTokenLifetime, None, draw1, now);
    var first := issued1.value;
    var issued2 := svc.CreateKeyToken(userId, studentId, "artifact", now + RefreshTokenLifetime, None, draw2, now);
    var second := issued2.value;
    var k1 := GenerateRsaKeyPair(draw1.keyPair).privateKey;
    var history := svc.store[userId].publicKeyHistory;
    assert history == [second.publicKey, first.publicKey];
    assert first.publicKey == PublicOf(k1);
    assert DistinctKeys(history);
    ReplayedTokenIsIntrusion(svc.jwt, Claims(userId, studentId, RandomString(draw1.sessionSecret)), k1,
                             now + AccessTokenLifetime, svc.store, 1, now);
    var replay := new Request(map["accessToken" := first.accessToken], None);
    assert ExtractToken(replay.cookies, replay.authorization) == Some(first.accessToken);
    ghost var verdict := Authenticate(svc.jwt, Some(first.accessToken), svc.store, now);
    assert verdict == Intrusion(userId);
    r := guard.CanActivate(replay, now);
  }
}
