/**
 * The authentication service's session half: the two auth cookies, logout,
 * and refresh-token rotation. A refresh reads the claims of the unverified
 * token, runs the verification cascade against the user's key history
 * (a superseded refresh token is reuse and purges the session), opens the
 * stored portal artifact with the session secret from the token (a failure is
 * tampering and purges the session), then issues a fresh key pair and tokens
 * and sets them as cookies.
 */
module Auth {
  import opened Wrappers
  import opened Bytes
  import opened Crypto
  import opened Errors
  import opened KeyTokenEntity
  import opened KeyTokens
  import opened Cascade

  // ---------------------------------------------------------------- cookies

  /** Cookie lifetimes in milliseconds: 15 minutes and 7 days. */
  const AccessCookieMaxAge: int := 15 * 60 * 1000
  const RefreshCookieMaxAge: int := 7 * 24 * 60 * 60 * 1000

  datatype CookieOptions = CookieOptions(httpOnly: bool, secure: bool, sameSite: string, path: string, maxAge: Option<int>)

  /** The shared cookie options: HTTP-only, `lax`, site-wide, and secure exactly in production. */
  function BaseCookieOptions(nodeEnv: Option<string>): (o: CookieOptions)
    ensures o.httpOnly && o.sameSite == "lax" && o.path == "/" && o.maxAge == None
    ensures o.secure <==> nodeEnv == Some("production")
  {
    CookieOptions(true, nodeEnv == Some("production"), "lax", "/", None)
  }

  /** What the service asks of the HTTP response. */
  datatype CookieCommand =
    | SetCookie(name: string, value: string, options: CookieOptions)
    | ClearCookie(name: string, options: CookieOptions)

  /** The commands that set both auth cookies. */
  function AuthCookies(tokens: TokenPair, nodeEnv: Option<string>): seq<CookieCommand> {
    var base := BaseCookieOptions(nodeEnv);
    [SetCookie("accessToken", tokens.accessToken, base.(maxAge := Some(AccessCookieMaxAge))),
     SetCookie("refreshToken", tokens.refreshToken, base.(maxAge := Some(RefreshCookieMaxAge)))]
  }

  /** The commands that clear both auth cookies. */
  function ClearedCookies(nodeEnv: Option<string>): seq<CookieCommand> {
    [ClearCookie("accessToken", BaseCookieOptions(nodeEnv)), ClearCookie("refreshToken", BaseCookieOptions(nodeEnv))]
  }

  /** The cookie value a browser keeps for `name` after a run of commands; a cleared cookie has none. */
  function CookieValue(commands: seq<CookieCommand>, name: string): Option<string>
    decreases |commands|
  {
    if |commands| == 0 then None
    else
      var last := commands[|commands| - 1];
      if last.name != name then CookieValue(commands[..|commands| - 1], name)
      else if last.SetCookie? then Some(last.value)
      else None
  }

  /**
   * The cookies are secure only in production, and the access cookie outlives
   * the access token (15 minutes against 10) while the refresh cookie lives
   * exactly as long as the refresh token.
   */
  lemma CookieLifetimes(tokens: TokenPair, nodeEnv: Option<string>)
    ensures var cs := AuthCookies(tokens, nodeEnv);
      && CookieValue(cs, "accessToken") == Some(tokens.accessToken)
      && CookieValue(cs, "refreshToken") == Some(tokens.refreshToken)
      && (forall k :: 0 <= k < |cs| ==> cs[k].options.httpOnly && (cs[k].options.secure <==> nodeEnv == Some("production")))
      && cs[0].options.maxAge.value == 1000 * AccessTokenLifetime + 5 * 60 * 1000
      && cs[1].options.maxAge.value == 1000 * RefreshTokenLifetime
  {
    var cs := AuthCookies(tokens, nodeEnv);
    assert cs[..1] == [cs[0]];
  }

  /** Setting both cookies and then clearing them leaves the browser with neither. */
  lemma ClearAfterSet(before: seq<CookieCommand>, tokens: TokenPair, nodeEnv: Option<string>)
    ensures var cs := before + AuthCookies(tokens, nodeEnv) + ClearedCookies(nodeEnv);
      CookieValue(cs, "accessToken") == None && CookieValue(cs, "refreshToken") == None
  {
    var cs := before + AuthCookies(tokens, nodeEnv) + ClearedCookies(nodeEnv);
    assert cs[..|cs| - 1][|cs| - 2] == cs[|cs| - 2];
  }

  /** The HTTP response, as the sequence of cookie commands given to it. */
  class Response {
    var cookieCommands: seq<CookieCommand>

    constructor ()
      ensures cookieCommands == []
    {
      cookieCommands := [];
    }
  }

  // ---------------------------------------------------------------- refresh

  const InvalidFormatMessage: string := "Invalid refresh token format"
  const NoSessionMessage: string := "Session not found, please login again"
  const ReuseMessage: string := "Security alert: Refresh token reuse detected. All sessions cleared."
  const RejectedMessage: string := "Refresh token invalid or expired"
  const TamperedMessage: string := "Invalid session secret. Potential session tampering detected."
  const UserNotFoundMessage: string := "User not found"

  /** A refreshed session expires seven days after the refresh (in seconds; calendar days taken as 86400 s). */
  const SessionLifetime: int := 7 * 24 * 60 * 60

  /** What a refresh decides, before any effect. */
  datatype RefreshDecision =
    | BadFormat                                              // the token does not decode
    | BadUserId                                              // its user id is not ObjectId text: the lookup throws
    | NoSession                                              // no record, or an empty history
    | Reuse(userId: string)                                  // signed with a superseded key: purge, 403
    | Rejected                                               // verifies under no key: 401
    | Tampered(userId: string)                               // verifies, but its secret does not open the artifact: purge, 401
    | Rotate(userId: string, studentId: string, artifact: string)  // issue a new key pair for the opened artifact

  /** The decision for `token` against the stored records at time `now`. */
  function DecideRefresh(j: JwtScheme, enc: EncryptionService, token: string, store: map<string, KeyToken>, now: int): RefreshDecision {
    match j.decode(token)
    case None => BadFormat
    case Some(c) =>
      if !IsObjectIdText(c.userId) then BadUserId
      else if c.userId !in store || |store[c.userId].publicKeyHistory| == 0 then NoSession
      else
        var rec := store[c.userId];
        match Classify(j, token, rec.publicKeyHistory, now)
        case Superseded(_) => Reuse(c.userId)
        case Unmatched => Rejected
        case Current(_) =>
          match enc.DecryptToken(rec.encryptedToken, rec.iv, rec.authTag, c.sessionSecret, rec.nonce)
          case None => Tampered(c.userId)
          case Some(artifact) => Rotate(c.userId, c.studentId, artifact)
  }

  /**
   * An unexpired refresh token signed with the newest key, whose secret opens
   * the stored artifact, rotates the session for its own user and student.
   */
  lemma LegitimateRefreshRotates(j: JwtScheme, enc: EncryptionService, c: Claims, k: PrivateKey, exp: int,
                                 store: map<string, KeyToken>, artifact: string, now: int)
    requires Sound(j)
    requires IsObjectIdText(c.userId) && c.userId in store && |store[c.userId].publicKeyHistory| > 0
    requires store[c.userId].publicKeyHistory[0] == PublicOf(k) && now < exp
    requires var rec := store[c.userId];
      enc.DecryptToken(rec.encryptedToken, rec.iv, rec.authTag, c.sessionSecret, rec.nonce) == Some(artifact)
    ensures DecideRefresh(j, enc, j.sign(c, k, exp), store, now) == Rotate(c.userId, c.studentId, artifact)
  {
    assert j.decode(j.sign(c, k, exp)) == Some(c);
    SignedWithNewestIsCurrent(j, c, k, exp, store[c.userId].publicKeyHistory, now);
  }

  /**
   * A refresh token whose key has since been rotated out of first place is
   * spent: presenting it again is reuse.
   */
  lemma SpentRefreshTokenIsReuse(j: JwtScheme, enc: EncryptionService, c: Claims, k: PrivateKey, exp: int,
                                 history: seq<PublicKey>, newKey: PublicKey, store: map<string, KeyToken>, now: int)
    requires Sound(j)
    requires |history| > 0 && DistinctKeys(history) && history[0] == PublicOf(k) && newKey !in history
    requires IsObjectIdText(c.userId) && c.userId in store && store[c.userId].publicKeyHistory == Rotated(history, newKey)
    requires now < exp
    ensures DecideRefresh(j, enc, j.sign(c, k, exp), store, now) == Reuse(c.userId)
  {
    var h := Rotated(history, newKey);
    assert DistinctKeys(h) by {
      forall a, b | 0 <= a < b < |h| ensures h[a] != h[b] {
        if a == 0 {
          assert h[b] == history[b - 1];
        }
      }
    }
    assert j.decode(j.sign(c, k, exp)) == Some(c);
    SignedWithOlderIsSuperseded(j, c, k, exp, h, 1, now);
  }

  /** An expired refresh token, or one whose key the history no longer holds, is rejected without a purge. */
  lemma StaleRefreshRejected(j: JwtScheme, enc: EncryptionService, c: Claims, k: PrivateKey, exp: int,
                             store: map<string, KeyToken>, now: int)
    requires Sound(j)
    requires IsObjectIdText(c.userId) && c.userId in store && |store[c.userId].publicKeyHistory| > 0
    requires PublicOf(k) !in store[c.userId].publicKeyHistory || now >= exp
    ensures DecideRefresh(j, enc, j.sign(c, k, exp), store, now) == Rejected
  {
    assert j.decode(j.sign(c, k, exp)) == Some(c);
    UnknownKeyOrExpiredIsUnmatched(j, c, k, exp, store[c.userId].publicKeyHistory, now);
  }

  /**
   * A validly signed refresh token whose session secret differs from the one
   * the artifact was sealed with is tampering.
   */
  lemma ForeignSecretIsTampering(j: JwtScheme, enc: EncryptionService, c: Claims, k: PrivateKey, exp: int,
                                 store: map<string, KeyToken>, artifact: string, secret: string, now: int)
    requires Sound(j)
    requires IsObjectIdText(c.userId) && c.userId in store && |store[c.userId].publicKeyHistory| > 0
    requires store[c.userId].publicKeyHistory[0] == PublicOf(k) && now < exp
    requires var rec := store[c.userId];
      var sealed := enc.EncryptToken(artifact, secret, rec.nonce, rec.iv);
      rec.encryptedToken == sealed.encryptedData && rec.authTag == sealed.authTag
    requires ':' !in secret && ':' !in c.sessionSecret && secret != c.sessionSecret
    ensures DecideRefresh(j, enc, j.sign(c, k, exp), store, now) == Tampered(c.userId)
  {
    var rec := store[c.userId];
    assert j.decode(j.sign(c, k, exp)) == Some(c);
    SignedWithNewestIsCurrent(j, c, k, exp, rec.publicKeyHistory, now);
    WrongSecretFails(enc, artifact, secret, rec.nonce, rec.iv, c.sessionSecret, rec.nonce);
  }

  /**
   * Reuse and tampering name a user that has a record; a rotation names one
   * whose newest key verifies the token; a lookup error comes only from a
   * decodable token whose user id is not ObjectId text.
   */
  lemma DecisionNeedsRecord(j: JwtScheme, enc: EncryptionService, token: string, store: map<string, KeyToken>, now: int)
    ensures match DecideRefresh(j, enc, token, store, now)
      case BadUserId => j.decode(token).Some? && !IsObjectIdText(j.decode(token).value.userId)
      case Reuse(u) => u in store && |store[u].publicKeyHistory| >= 2
      case Tampered(u) => u in store && j.verify(token, store[u].publicKeyHistory[0], now).Verified?
      case Rotate(u, _, _) => u in store && j.verify(token, store[u].publicKeyHistory[0], now).Verified?
      case _ => true
  {
  }

  /** What a successful refresh returns: the new tokens and the user's login information. */
  datatype Refreshed<User> = Refreshed(tokens: TokenPair, user: User)

  /** The authentication service; the token and encryption services are the key-token service's own. */
  class AuthService {
    const keyTokens: KeyTokenService
    /** `process.env.NODE_ENV` */
    const nodeEnv: Option<string>

    constructor (keyTokens: KeyTokenService, nodeEnv: Option<string>)
      ensures this.keyTokens == keyTokens && this.nodeEnv == nodeEnv
    {
      this.keyTokens := keyTokens;
      this.nodeEnv := nodeEnv;
    }

    /** `setAuthCookies`: sets the access cookie, then the refresh cookie. */
    method SetAuthCookies(res: Response, tokens: TokenPair)
      modifies res
      ensures res.cookieCommands == old(res.cookieCommands) + AuthCookies(tokens, nodeEnv)
    {
      var options := BaseCookieOptions(nodeEnv);
      res.cookieCommands := res.cookieCommands + [SetCookie("accessToken", tokens.accessToken, options.(maxAge := Some(AccessCookieMaxAge)))];
      res.cookieCommands := res.cookieCommands + [SetCookie("refreshToken", tokens.refreshToken, options.(maxAge := Some(RefreshCookieMaxAge)))];
    }

    /** `clearAuthCookies`: clears both cookies with the same base options. */
    method ClearAuthCookies(res: Response)
      modifies res
      ensures res.cookieCommands == old(res.cookieCommands) + ClearedCookies(nodeEnv)
    {
      res.cookieCommands := res.cookieCommands + [ClearCookie("accessToken", BaseCookieOptions(nodeEnv))];
      res.cookieCommands := res.cookieCommands + [ClearCookie("refreshToken", BaseCookieOptions(nodeEnv))];
    }

    /**
     * `logout`: removes the user's record from store and cache, then clears
     * the cookies; when the removal throws, nothing is removed and the
     * cookies stay.
     */
    method Logout(userId: string, res: Response) returns (r: Result<(), Thrown>)
      requires keyTokens.Valid()
      modifies keyTokens, res
      ensures keyTokens.Valid()
      ensures r == if IsObjectIdText(userId) then Success(()) else Failure(ObjectIdError)
      ensures r.Success? ==>
        && keyTokens.store == old(keyTokens.store) - {userId}
        && keyTokens.cache == old(keyTokens.cache) - {RedisKey(userId)}
        && res.cookieCommands == old(res.cookieCommands) + ClearedCookies(nodeEnv)
      ensures r.Failure? ==>
        && keyTokens.store == old(keyTokens.store) && keyTokens.cache == old(keyTokens.cache)
        && res.cookieCommands == old(res.cookieCommands)
    {
      r := keyTokens.RemoveByUserId(userId);
      if r.Failure? {
        return;
      }
      ClearAuthCookies(res);
    }

    /**
     * The rotation at the end of `refreshToken`: re-issues the user's record
     * for the opened artifact with a fresh seven-day expiry, then sets both
     * cookies.
     */
    method RotateSession(userId: string, studentId: string, artifact: string, res: Response, draw: Entropy, now: int)
      returns (tokens: TokenPair)
      requires keyTokens.Valid() && userId in keyTokens.store && WellDrawn(draw)
      modifies keyTokens, res
      ensures keyTokens.Valid()
      ensures tokens == IssuedPair(keyTokens.jwt, userId, studentId, draw, now)
      ensures userId in keyTokens.store && keyTokens.store == old(keyTokens.store)[userId := keyTokens.store[userId]]
      ensures var rec := keyTokens.store[userId];
        && rec.studentId == studentId
        && rec.publicKeyHistory == Rotated(old(keyTokens.store)[userId].publicKeyHistory, tokens.publicKey)
        && rec.expiresAt == now + SessionLifetime
        && rec.metadata == old(keyTokens.store)[userId].metadata
        && keyTokens.encryption.DecryptToken(rec.encryptedToken, rec.iv, rec.authTag,
                                             RandomString(draw.sessionSecret), rec.nonce) == Some(artifact)
        && keyTokens.cache == old(keyTokens.cache)[RedisKey(userId) := CacheEntry(rec, CacheTtlSeconds)]
      ensures res.cookieCommands == old(res.cookieCommands) + AuthCookies(tokens, nodeEnv)
    {
      var expiresAt := now + SessionLifetime;
      var issued := keyTokens.CreateKeyToken(userId, studentId, artifact, expiresAt, None, draw, now);
      tokens := issued.value;
      SetAuthCookies(res, tokens);
    }

    /**
     * `refreshToken`: follows `DecideRefresh`. Failures throw (BSON's error
     * for a user id that is not ObjectId text, a 403 for reuse, a 401
     * otherwise), purging the session on reuse and tampering and
     * changing nothing else. A rotation re-issues the user's record with a
     * new key in front of the history, the same artifact sealed under a new
     * secret and a fresh seven-day expiry, sets both cookies, and then looks
     * the user up, which can still fail with 'User not found'.
     */
    method RefreshToken<User>(refreshToken: string, res: Response, users: map<string, User>, draw: Entropy, now: int)
      returns (r: Result<Refreshed<User>, Thrown>)
      requires keyTokens.Valid() && WellDrawn(draw)
      modifies keyTokens, res
      ensures keyTokens.Valid()
      ensures match DecideRefresh(keyTokens.jwt, keyTokens.encryption, refreshToken, old(keyTokens.store), now)
        case BadFormat =>
          r == Failure(Raise(Unauthorized, InvalidFormatMessage))
          && keyTokens.store == old(keyTokens.store) && keyTokens.cache == old(keyTokens.cache)
          && res.cookieCommands == old(res.cookieCommands)
        case BadUserId =>
          r == Failure(ObjectIdError)
          && keyTokens.store == old(keyTokens.store) && keyTokens.cache == old(keyTokens.cache)
          && res.cookieCommands == old(res.cookieCommands)
        case NoSession =>
          r == Failure(Raise(Unauthorized, NoSessionMessage))
          && keyTokens.store == old(keyTokens.store) && CacheKept(old(keyTokens.cache), keyTokens.cache)
          && res.cookieCommands == old(res.cookieCommands)
        case Reuse(u) =>
          r == Failure(Raise(Forbidden, ReuseMessage))
          && keyTokens.store == old(keyTokens.store) - {u} && keyTokens.cache == old(keyTokens.cache) - {RedisKey(u)}
          && res.cookieCommands == old(res.cookieCommands)
        case Rejected =>
          r == Failure(Raise(Unauthorized, RejectedMessage))
          && keyTokens.store == old(keyTokens.store) && CacheKept(old(keyTokens.cache), keyTokens.cache)
          && res.cookieCommands == old(res.cookieCommands)
        case Tampered(u) =>
          r == Failure(Raise(Unauthorized, TamperedMessage))
          && keyTokens.store == old(keyTokens.store) - {u} && keyTokens.cache == old(keyTokens.cache) - {RedisKey(u)}
          && res.cookieCommands == old(res.cookieCommands)
        case Rotate(u, studentId, artifact) =>
          var tokens := IssuedPair(keyTokens.jwt, u, studentId, draw, now);
          && u in keyTokens.store && keyTokens.store == old(keyTokens.store)[u := keyTokens.store[u]]
          && var rec := keyTokens.store[u];
          && rec.studentId == studentId
          && rec.publicKeyHistory == Rotated(old(keyTokens.store)[u].publicKeyHistory, tokens.publicKey)
          && rec.expiresAt == now + SessionLifetime
          && rec.metadata == old(keyTokens.store)[u].metadata
          && keyTokens.cache == old(keyTokens.cache)[RedisKey(u) := CacheEntry(rec, CacheTtlSeconds)]
          && keyTokens.encryption.DecryptToken(rec.encryptedToken, rec.iv, rec.authTag,
                                               RandomString(draw.sessionSecret), rec.nonce) == Some(artifact)
          && res.cookieCommands == old(res.cookieCommands) + AuthCookies(tokens, nodeEnv)
          && r == if u in users then Success(Refreshed(tokens, users[u])) else Failure(Raise(Unauthorized, UserNotFoundMessage))
    {
      var jwt := keyTokens.jwt;
      ghost var decision := DecideRefresh(jwt, keyTokens.encryption, refreshToken, keyTokens.store, now);
      ghost var cache0 := keyTokens.cache;
      var payload := jwt.decode(refreshToken);
      if payload.None? {
        return Failure(Raise(Unauthorized, InvalidFormatMessage));
      }
      var userId := payload.value.userId;
      var studentId := payload.value.studentId;
      var sessionSecret := payload.value.sessionSecret;

      var found := keyTokens.FindByUserId(userId);
      if found.Failure? {
        return Failure(found.error);
      }
      var keyToken := found.value;
      if keyToken.None? || |keyToken.value.publicKeyHistory| == 0 {
        return Failure(Raise(Unauthorized, NoSessionMessage));
      }
      var rec := keyToken.value;
      ghost var cache1 := keyTokens.cache;
      assert CacheKept(cache0, cache1) && cache1 - {RedisKey(userId)} == cache0 - {RedisKey(userId)};

      var latest := jwt.verify(refreshToken, rec.publicKeyHistory[0], now);
      if !latest.Verified? {
        var older := ScanOlderKeys(jwt, refreshToken, rec.publicKeyHistory, now);
        if older.Some? {
          var purged := keyTokens.HandleIntrusion(userId);
          assert purged.Success? && decision == Reuse(userId);
          return Failure(Raise(Forbidden, ReuseMessage));
        }
        assert decision == Rejected;
        return Failure(Raise(Unauthorized, RejectedMessage));
      }

      var artifact := keyTokens.encryption.DecryptToken(rec.encryptedToken, rec.iv, rec.authTag, sessionSecret, rec.nonce);
      if artifact.None? {
        var purged := keyTokens.HandleIntrusion(userId);
        assert purged.Success? && decision == Tampered(userId);
        return Failure(Raise(Unauthorized, TamperedMessage));
      }

      assert decision == Rotate(userId, studentId, artifact.value);
      var tokens := RotateSession(userId, studentId, artifact.value, res, draw, now);
      OverwriteAgrees(cache1, cache0, RedisKey(userId), CacheEntry(keyTokens.store[userId], CacheTtlSeconds));

      if userId !in users {
        return Failure(Raise(Unauthorized, UserNotFoundMessage));
      }
      return Success(Refreshed(tokens, users[userId]));
    }
  }

  /**
   * A client run: a session's refresh token rotates it once; presenting the
   * same refresh token again is reuse and purges the session.
   */
  method RefreshThenReplay<User>(auth: AuthService, userId: string, studentId: string, artifact: string,
                                 users: map<string, User>, draw1: Entropy, draw2: Entropy, draw3: Entropy, now: int)
    returns (r1: Result<Refreshed<User>, Thrown>, r2: Result<Refreshed<User>, Thrown>)
    requires auth.keyTokens.Valid() && Sound(auth.keyTokens.jwt)
    requires IsObjectIdText(userId) && userId !in auth.keyTokens.store && userId in users
    requires draw1.keyPair != draw2.keyPair && WellDrawn(draw1) && WellDrawn(draw2) && WellDrawn(draw3)
    modifies auth.keyTokens
    ensures r1 == Success(Refreshed(IssuedPair(auth.keyTokens.jwt, userId, studentId, draw2, now), users[userId]))
    ensures r2 == Failure(Raise(Forbidden, ReuseMessage))
    ensures userId !in auth.keyTokens.store && RedisKey(userId) !in auth.keyTokens.cache
  {
    var svc := auth.keyTokens;
    var issued := svc.CreateKeyToken(userId, studentId, artifact, now + SessionLifetime, None, draw1, now);
    var tokens := issued.value;
    var k1 := GenerateRsaKeyPair(draw1.keyPair).privateKey;
    var claims := Claims(userId, studentId, RandomString(draw1.sessionSecret));
    var history := svc.store[userId].publicKeyHistory;
    assert history == [PublicOf(k1)];
    LegitimateRefreshRotates(svc.jwt, svc.encryption, claims, k1, now + RefreshTokenLifetime, svc.store, artifact, now);

    var res := new Response();
    r1 := auth.RefreshToken(tokens.refreshToken, res, users, draw2, now);

    SpentRefreshTokenIsReuse(svc.jwt, svc.encryption, claims, k1, now + RefreshTokenLifetime, history,
                             GenerateRsaKeyPair(draw2.keyPair).publicKey, svc.store, now);
    r2 := auth.RefreshToken(tokens.refreshToken, res, users, draw3, now);
  }
}
