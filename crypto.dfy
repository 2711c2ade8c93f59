/**
 * The cryptographic services the session subsystem calls: RSA key generation
 * and RS256 JSON Web Tokens (RFC 7518 section 3.3, expiry per RFC 7519
 * section 4.1.4), and AES-256-GCM envelope encryption (NIST SP 800-38D) under a
 * key derived by HMAC-SHA256 (RFC 2104).
 *
 * Token signing, verification and unverified decoding are left uninterpreted:
 * they are the fields of a `JwtScheme`, and what the model relies on about them
 * is the predicate `Sound`, which lemmas take as a hypothesis. Encryption is
 * modelled symbolically: a ciphertext remembers its plaintext, the key and the
 * IV, and only the same key and IV open it.
 */
module Crypto {
  import opened Wrappers
  import opened Bytes
  import opened Text

  // ---------------------------------------------------------------- keys

  /** The RSA public key of the key pair drawn as number `id`. */
  datatype PublicKey = PublicKey(id: nat)
  /** The RSA private key of the key pair drawn as number `id`. */
  datatype PrivateKey = PrivateKey(id: nat)
  datatype KeyPair = KeyPair(publicKey: PublicKey, privateKey: PrivateKey)

  function PublicOf(k: PrivateKey): PublicKey {
    PublicKey(k.id)
  }

  /** `generateRsaKeyPair()`: the randomness is the parameter `draw`. */
  function GenerateRsaKeyPair(draw: nat): (kp: KeyPair)
    ensures PublicOf(kp.privateKey) == kp.publicKey
    ensures kp.publicKey.id == draw
  {
    KeyPair(PublicKey(draw), PrivateKey(draw))
  }

  /** `generateRandomString(n)`: `n` random bytes, spelled in hexadecimal. */
  function RandomString(bytes: seq<byte>): (s: string)
    ensures |s| == 2 * |bytes| && ':' !in s
  {
    LowerHex(bytes)
  }

  // ---------------------------------------------------------------- JSON Web Tokens

  /** The claims the subsystem puts in a token (`JwtPayload`). */
  datatype Claims = Claims(userId: string, studentId: string, sessionSecret: string)

  /** What `verifyToken` does: return the payload, or fail as expired or as invalid. */
  datatype VerifyResult = Verified(claims: Claims) | TokenExpired | InvalidToken

  /**
   * The token library. `sign(claims, key, exp)` signs with RS256 and expiry
   * time `exp`; `verify(token, key, now)` checks signature then expiry at time
   * `now`; `decode(token)` reads the payload without checking anything and
   * gives None when the text is not a token.
   */
  datatype JwtScheme = JwtScheme(
    sign: (Claims, PrivateKey, int) -> string,
    verify: (string, PublicKey, int) -> VerifyResult,
    decode: string -> Option<Claims>)

  /**
   * What the model requires of the library: a token verifies under the public
   * half of its signing key exactly while it is unexpired (`now < exp`, expiry
   * checked only after the signature), under no other public key, and decodes
   * to the claims it was signed with; whatever verifies decodes to the claims
   * verification returns. A signed token is a non-empty compact serialisation
   * (base64url parts joined by dots), so it holds no space.
   */
  ghost predicate Sound(j: JwtScheme) {
    && (forall c, k, exp, now ::
          j.verify(j.sign(c, k, exp), PublicOf(k), now) == if now < exp then Verified(c) else TokenExpired)
    && (forall c, k, exp, pub, now ::
          pub != PublicOf(k) ==> j.verify(j.sign(c, k, exp), pub, now) == InvalidToken)
    && (forall c, k, exp :: j.decode(j.sign(c, k, exp)) == Some(c))
    && (forall c, k, exp :: j.sign(c, k, exp) != "" && ' ' !in j.sign(c, k, exp))
    && (forall t, pub, now :: j.verify(t, pub, now).Verified? ==> j.decode(t) == Some(j.verify(t, pub, now).claims))
  }

  /** Token lifetimes from the token configuration: '10m' and '7d', in seconds. */
  const AccessTokenLifetime: int := 10 * 60
  const RefreshTokenLifetime: int := 7 * 24 * 60 * 60

  /** What `createJwtPair` returns. */
  datatype TokenPair = TokenPair(accessToken: string, refreshToken: string, publicKey: PublicKey)

  /**
   * `createJwtPair(payload, privateKey, publicKey)` at time `now`: two tokens
   * over the same payload and key that differ only in their expiry.
   */
  function CreateJwtPair(j: JwtScheme, payload: Claims, privateKey: PrivateKey, publicKey: PublicKey, now: int): (p: TokenPair)
    ensures p.publicKey == publicKey
    ensures p.accessToken == j.sign(payload, privateKey, now + AccessTokenLifetime)
    ensures p.refreshToken == j.sign(payload, privateKey, now + RefreshTokenLifetime)
  {
    TokenPair(j.sign(payload, privateKey, now + AccessTokenLifetime),
              j.sign(payload, privateKey, now + RefreshTokenLifetime),
              publicKey)
  }

  /** Under a sound library, a fresh pair verifies under its public key and carries its payload. */
  lemma PairVerifies(j: JwtScheme, payload: Claims, kp: KeyPair, now: int)
    requires Sound(j) && PublicOf(kp.privateKey) == kp.publicKey
    ensures var p := CreateJwtPair(j, payload, kp.privateKey, kp.publicKey, now);
      && j.verify(p.accessToken, kp.publicKey, now) == Verified(payload)
      && j.verify(p.refreshToken, kp.publicKey, now) == Verified(payload)
      && j.decode(p.refreshToken) == Some(payload)
      && j.verify(p.accessToken, kp.publicKey, now + AccessTokenLifetime) == TokenExpired
  {
    var p := CreateJwtPair(j, payload, kp.privateKey, kp.publicKey, now);
    assert j.verify(j.sign(payload, kp.privateKey, now + AccessTokenLifetime), PublicOf(kp.privateKey), now) == Verified(payload);
    assert j.verify(j.sign(payload, kp.privateKey, now + RefreshTokenLifetime), PublicOf(kp.privateKey), now) == Verified(payload);
    assert j.decode(j.sign(payload, kp.privateKey, now + RefreshTokenLifetime)) == Some(payload);
    assert j.verify(j.sign(payload, kp.privateKey, now + AccessTokenLifetime), PublicOf(kp.privateKey), now + AccessTokenLifetime) == TokenExpired;
  }

  // ---------------------------------------------------------------- envelope encryption

  /** An HMAC-SHA256 output, named by its key and message (HMAC taken as collision-free). */
  datatype DerivedKey = HmacSha256(key: string, message: string)

  /** AES-256-GCM ciphertext of `plaintext` under `key` and `iv`. */
  datatype Ciphertext = AesGcm(plaintext: string, key: DerivedKey, iv: string)

  /** The GCM authentication tag over a ciphertext. */
  datatype AuthTag = Gmac(key: DerivedKey, iv: string, plaintext: string)

  datatype EncryptionResult = EncryptionResult(encryptedData: Ciphertext, iv: string, authTag: AuthTag)

  /** The key-derivation message: the session secret and the nonce joined by a colon. */
  function KdfMessage(sessionSecret: string, nonce: string): string {
    sessionSecret + ":" + nonce
  }

  /**
   * Two derivation messages coincide only for the same secret and nonce,
   * provided the secrets contain no colon (hexadecimal secrets do not).
   */
  lemma KdfMessageInjective(s1: string, n1: string, s2: string, n2: string)
    requires ':' !in s1 && ':' !in s2
    requires KdfMessage(s1, n1) == KdfMessage(s2, n2)
    ensures s1 == s2 && n1 == n2
  {
    var m := KdfMessage(s1, n1);
    FirstSeparator(s1, ':', n1);
    FirstSeparator(s2, ':', n2);
    assert s1 == m[..|s1|] == s2;
    assert n1 == m[|s1| + 1..] == n2;
  }

  /** The encryption service with its master key from the environment. */
  datatype EncryptionService = EncryptionService(masterKey: string) {

    /** `deriveKey(sessionSecret, nonce)`: HMAC-SHA256 keyed with the master key. */
    function DeriveKey(sessionSecret: string, nonce: string): DerivedKey {
      HmacSha256(masterKey, KdfMessage(sessionSecret, nonce))
    }

    /**
     * `encryptToken(token, sessionSecret, nonce)` with the freshly drawn IV
     * `iv`: the result opens again under the same secret and nonce.
     */
    function EncryptToken(token: string, sessionSecret: string, nonce: string, iv: string): (r: EncryptionResult)
      ensures r.iv == iv
      ensures DecryptToken(r.encryptedData, r.iv, r.authTag, sessionSecret, nonce) == Some(token)
    {
      var key := DeriveKey(sessionSecret, nonce);
      EncryptionResult(AesGcm(token, key, iv), iv, Gmac(key, iv, token))
    }

    /**
     * `decryptToken(...)`: the plaintext when the re-derived key, the IV and
     * the tag all match, None where the source throws. Only a genuine
     * encryption under this secret and nonce opens.
     */
    function DecryptToken(data: Ciphertext, iv: string, authTag: AuthTag, sessionSecret: string, nonce: string): (r: Option<string>)
      ensures r.Some? <==>
        data == AesGcm(data.plaintext, DeriveKey(sessionSecret, nonce), iv) &&
        authTag == Gmac(DeriveKey(sessionSecret, nonce), iv, data.plaintext)
      ensures r.Some? ==> r.value == data.plaintext
    {
      var key := DeriveKey(sessionSecret, nonce);
      if data.key == key && data.iv == iv && authTag == Gmac(key, iv, data.plaintext) then Some(data.plaintext)
      else None
    }
  }

  /**
   * Decrypting with a different session secret or nonce fails (secrets being
   * colon-free, as `RandomString` makes them).
   */
  lemma WrongSecretFails(svc: EncryptionService, token: string, s: string, n: string, iv: string, s': string, n': string)
    requires ':' !in s && ':' !in s'
    requires s != s' || n != n'
    ensures var e := svc.EncryptToken(token, s, n, iv);
      svc.DecryptToken(e.encryptedData, e.iv, e.authTag, s', n') == None
  {
    var e := svc.EncryptToken(token, s, n, iv);
    if svc.DecryptToken(e.encryptedData, e.iv, e.authTag, s', n').Some? {
      assert svc.DeriveKey(s, n) == svc.DeriveKey(s', n');
      KdfMessageInjective(s, n, s', n');
    }
  }
}
