# Session credentials of the VLUTE timetable sync API

This project models the session-credential subsystem of the VLUTE timetable
sync API, a NestJS service. Students sign in to it through the university's
single sign-on (SSO) portal. The service keeps one key-token record per user
in MongoDB, mirrored in Redis. The record holds:

- the user's three most recent RSA public keys, newest first;
- the portal's session artifact, sealed with AES-256-GCM under a key derived
  from a per-session secret that travels inside the user's JWTs.

Every request and every refresh runs the same verification cascade over
that key history:

- **Current.** The token verifies under the newest key. The request is
  admitted, or the refresh rotates the keys.
- **Superseded.** The token verifies only under an older key. This is taken
  as token reuse: the record is purged from the database and the cache, and
  a security error is raised.
- **Unmatched.** The token verifies under no key. This is a plain
  authentication failure.

Around this core sit small decision functions:

- the sign-on client: the authentication request URL and its state, the
  login-form action scraped from HTML, the credential post, and the callback
  cookie check;
- the global exception filter and the `ErrorResponse` body;
- the environment lookup rule.

Modules, one file each:

- `Wrappers`, `Text`, `Bytes`: Option/Result, the JavaScript string
  operations the code uses (`includes`, `split`, `join`, `startsWith`), and
  hex spelling of bytes.
- `Crypto`: the JWT library as a datatype of functions with their laws
  (`Sound`), and a symbolic AES-GCM/HMAC envelope that is proved to round-trip
  and to fail under a wrong secret.
- `KeyTokenEntity`: the `key_tokens` document and its schema.
- `KeyTokens`: `KeyTokenService` as a class over a store map, a cache map and
  a ghost log of store/cache effects. Its invariant `Valid()` says:
  - every record belongs to the user it is filed under, whose id is ObjectId
    text (24 hexadecimal digits);
  - every history holds at most three keys;
  - every cache entry equals the stored record.
- `Cascade`: the verification cascade (the loop over older keys is a method
  proved against a specification function).
- `Guard`: `AuthGuard.canActivate` and `extractToken`.
- `Auth`: `AuthService.refreshToken`, `logout` and the auth cookies.
- `Errors`, `ExceptionsFilter`: thrown values, `ErrorResponse` and the filter.
- `EnvUtil`: `getEnv` with JavaScript's `trim`.
- `Uri`: `encodeURIComponent` and form-urlencoding over UTF-8, with their
  decoders and round trips.
- `Login`: `LoginService`.

The JWT, RSA and AES primitives, the clock, the random draws and every HTTP
exchange are parameters:

- a `JwtScheme` value;
- a `now` time in seconds;
- an `Entropy` record of random draws;
- `get` functions that answer a URL.

Lemmas about tokens require `Sound(j)`. This predicate states:

- verification accepts exactly an unexpired token signed by the matching
  private key;
- decoding recovers the payload;
- a signed token is non-empty and holds no space.

## Model

| member | source | states |
|---|---|---|
| KeyTokens.KeyTokenService.CreateKeyToken | src/modules/key-token/key-token.service.ts:28-93 | A user id that is not ObjectId text throws BSON's error before any store or cache effect. Otherwise: keeps `Valid()`. Writes exactly one store entry, the user's, then caches that same record under `keytoken:<userId>` for 604800 s, store write before cache write; every other cache entry is unchanged. With well-drawn entropy (32-byte secret, 16-byte nonce, 12-byte IV), the stored nonce and IV are 32 and 24 hex characters. The new history is the fresh public key in front of the stored (not cached) history, cut to three. The artifact opens under the new session secret and nonce. Metadata left undefined keeps the stored value. Returns the pair signed with the fresh private key over `{userId, studentId, sessionSecret}` |
| KeyTokens.Rotated | src/modules/key-token/key-token.service.ts:62-66 | The new history has length min(old + 1, 3), starts with the new key, and keeps the older keys in order |
| KeyTokens.IssuedPair | src/modules/key-token/key-token.service.ts:88-92 | The returned public key is the freshly generated one, and both tokens are signed over the user, the student and the new session secret, with the 10-minute and 7-day expiries |
| KeyTokens.HistoryAfterNewestFirst | src/modules/key-token/key-token.service.ts:62-66 | After a run of issued keys, the history holds the last min(n, 3) of them, newest first |
| KeyTokens.RedisKeyInjective | src/modules/key-token/key-token.service.ts:13 | Distinct users never share a cache key |
| KeyTokens.KeyTokenService.SyncToRedis | src/modules/key-token/key-token.service.ts:98-101 | Sets only the user's cache entry to the record with the seven-day TTL and leaves the store alone |
| KeyTokens.KeyTokenService.FindByUserId | src/modules/key-token/key-token.service.ts:106-128 | Answers what the store holds when the id is ObjectId text, and BSON's error otherwise (such an id is never cached, so it always reaches the throwing query). On a cache hit the store is not consulted. On a miss the store is read and the cache refilled only when a record exists. Keeps `Valid()` |
| KeyTokens.KeyTokenService.HandleIntrusion | src/modules/key-token/key-token.service.ts:134-145 | For an ObjectId id, removes exactly the user's record from store and cache, others untouched, so a repeat changes nothing. For any other id, throws BSON's error and changes nothing |
| KeyTokens.KeyTokenService.RemoveByUserId | src/modules/key-token/key-token.service.ts:150-153 | Same effect and same error as `HandleIntrusion` |
| KeyTokens.KeyTokenService.constructor | src/modules/key-token/key-token.service.ts:15-23 | Starts with an empty store, cache and effect log, satisfying `Valid()` |
| KeyTokenEntity.MissingPaths | src/modules/key-token/entities/key-token.entity.ts:9-52 | No path is missing iff `user`, `student_id`, `encryptedToken`, `nonce`, `iv`, `authTag` and `expiresAt` are all present (strings non-empty) |
| KeyTokenEntity.Hydrate | src/modules/key-token/entities/key-token.entity.ts:9-58 | Fails iff a required path is missing, naming them. Otherwise the history defaults to empty and the metadata stays optional |
| KeyTokenEntity.HydrateToDocument | src/modules/key-token/entities/key-token.entity.ts:9-58 | A stored record reads back as itself exactly when it passes the required checks |
| Cascade.FirstVerifyingFrom | src/common/guards/auth.guard.ts:63-82 | Finds the first index at or after `from` whose key verifies the token, or states that none does |
| Cascade.ScanOlderKeys | src/common/guards/auth.guard.ts:63-82 | The loop over `history[1..]` returns the first older key that verifies, as the specification function does |
| Cascade.Classify | src/common/guards/auth.guard.ts:53-85 | Current iff the newest key verifies, carrying its payload. Superseded(i) iff only an older key verifies, and i is the first such. Unmatched iff no key verifies |
| Cascade.SingleKeyNeverSuperseded | src/common/guards/auth.guard.ts:63 | With a one-entry history, reuse is never reported |
| Cascade.SignedWithNewestIsCurrent | src/common/guards/auth.guard.ts:53-60 | An unexpired token signed with the newest key is current |
| Cascade.SignedWithOlderIsSuperseded | src/common/guards/auth.guard.ts:63-80 | With distinct keys, an unexpired token signed with `history[i]`, i ≥ 1, is reported at index i |
| Cascade.UnknownKeyOrExpiredIsUnmatched | src/common/guards/auth.guard.ts:73-85 | An expired token, or one signed with a key not in the history, is a plain failure, never reuse |
| Cascade.DetectionWindow | src/modules/key-token/key-token.service.ts:62-66 | After n rotations, a token of the m-th key is current if m is the last, reuse if it is one of the two before, and plainly rejected if older |
| Cascade.HistoryPositions | src/modules/key-token/key-token.service.ts:62-66 | Where the m-th issued key sits in the capped history, and that the history stays duplicate-free |
| Guard.ExtractToken | src/common/guards/auth.guard.ts:92-100 | A non-empty `accessToken` cookie wins. Otherwise a token comes back iff the header starts with `Bearer `, and it is the word after it |
| Guard.BearerParts | src/common/guards/auth.guard.ts:98-99 | `split(' ')` gives first piece `Bearer` and a second piece iff the header starts with `Bearer ` |
| Guard.BearerHeaderRoundTrip | src/common/guards/auth.guard.ts:98-99 | A header `Bearer <t>` yields `t` for any space-free `t` |
| Guard.Authenticate | src/common/guards/auth.guard.ts:18-87 | Admission only with a payload verified under the newest key of the decoded user's record. A purge only for that user when their token is superseded. A fault, carrying BSON's error, only for a decoded user id that is not ObjectId text |
| Guard.FreshTokenAllowed | src/common/guards/auth.guard.ts:53-60 | A fresh token under the newest key is admitted with its payload |
| Guard.ReplayedTokenIsIntrusion | src/common/guards/auth.guard.ts:63-80 | An unexpired token under an older key triggers the intrusion path |
| Guard.StaleTokenDenied | src/common/guards/auth.guard.ts:85 | Expired or foreign tokens get 'Invalid token or expired session' |
| Guard.PurgedUserDenied | src/common/guards/auth.guard.ts:43-50 | A user without a record gets 'User session not found or expired' when the id is ObjectId text, and otherwise BSON's error, which the filter answers with a 500 carrying BSON's message |
| Guard.AuthGuard.CanActivate | src/common/guards/auth.guard.ts:18-87 | Admit: returns true, sets `request.user` to the payload, store unchanged, every cached entry kept. Intrusion: purges the user from store and cache (only `keytoken:<userId>` leaves the cache), then throws the 401 'Security alert'. A claimed user id that is not ObjectId text: BSON's error passes through (a 500), store and cache unchanged. Every other denial throws its 401 message, leaves the store unchanged and keeps every cached entry |
| Guard.LoginThenAccess | src/common/guards/auth.guard.ts:18-87 | After a first credential issue, the guard answers true to a request carrying its access token, `request.user` is that token's claims, and the history is that single key |
| Auth.BaseCookieOptions | src/modules/auth/auth.service.ts:31-38 | httpOnly, sameSite lax, path '/', secure exactly in production |
| Auth.CookieLifetimes | src/modules/auth/auth.service.ts:40-53 | Both cookies are set to the issued tokens. The access cookie lives 15 minutes, 5 past the access token. The refresh cookie lives 7 days, as long as the refresh token |
| Auth.ClearAfterSet | src/modules/auth/auth.service.ts:55-58 | Clearing after setting leaves neither cookie |
| Auth.AuthService.SetAuthCookies | src/modules/auth/auth.service.ts:40-53 | Appends the two set-cookie commands |
| Auth.AuthService.ClearAuthCookies | src/modules/auth/auth.service.ts:55-58 | Appends the two clear-cookie commands |
| Auth.AuthService.Logout | src/modules/auth/auth.service.ts:121-124 | For an ObjectId id, removes the user's record from the store, removes only `keytoken:<userId>` from the cache, and clears both cookies. For any other id, BSON's error is thrown, and the store, the cache and the cookies are unchanged |
| Auth.LegitimateRefreshRotates | src/modules/auth/auth.service.ts:148-201 | An unexpired refresh token under the newest key, whose secret opens the artifact, rotates for its own user and student |
| Auth.SpentRefreshTokenIsReuse | src/modules/auth/auth.service.ts:149-169 | Once a refresh has rotated the keys, replaying the previous refresh token is reuse |
| Auth.StaleRefreshRejected | src/modules/auth/auth.service.ts:170 | An expired or foreign refresh token is rejected without a purge |
| Auth.ForeignSecretIsTampering | src/modules/auth/auth.service.ts:174-189 | A current token whose secret differs from the sealing one is tampering |
| Auth.DecisionNeedsRecord | src/modules/auth/auth.service.ts:143-146 | Reuse needs a stored history of at least two keys. Tampering and rotation need a stored user whose newest key verifies the token. A lookup error needs a decodable token whose user id is not ObjectId text |
| Auth.AuthService.RotateSession | src/modules/auth/auth.service.ts:191-204 | Re-issues the user's record for the opened artifact: one new key in front of the history, expiry 7 days on, metadata kept, the artifact opens under the new secret, the cache holds exactly the new record under `keytoken:<userId>`, and both cookies are set to the new pair |
| Auth.AuthService.RefreshToken | src/modules/auth/auth.service.ts:126-210 | Bad format: 401, store and cache unchanged. User id not ObjectId text: BSON's error, store and cache unchanged. No session: 401, store unchanged, every cached entry kept. Reuse: purge (only `keytoken:<userId>` leaves the cache), then 403. Rejected: 401, store unchanged, every cached entry kept. Tampered: purge, then 401. Rotate: one new key in front, artifact re-sealed under the new secret, expiry 7 days on, metadata kept, the cache holds the new record under `keytoken:<userId>` for 604800 s and nothing else changes there, both cookies set, then the user lookup |
| Auth.RefreshThenReplay | src/modules/auth/auth.service.ts:126-210 | The first refresh returns the new pair and the user. Replaying the spent token then fails with 403, and the user's record is gone from store and cache |
| Errors.ErrorResponse | src/core/response/error/error.response.ts:4-22 | A 500 by default with message 'Error'. The body says success false, repeats the status, and carries message and metadata verbatim |
| ExceptionsFilter.Respond | src/core/filters/all-exceptions.filter.ts:15-54 | Every body is an object with success false. The status is the exception's own for HTTP exceptions and 500 otherwise |
| ExceptionsFilter.Catch | src/core/filters/all-exceptions.filter.ts:15-54 | Writes exactly `Respond`'s status and body |
| ExceptionsFilter.ErrorBodyShape | src/core/filters/all-exceptions.filter.ts:47-52 | A built body has success false, statusCode = status and the message. `metadata` is present only when truthy |
| ExceptionsFilter.NonErrorIsInternal | src/core/filters/all-exceptions.filter.ts:19-21 | A non-Error throw gives 500 'Internal Server Error' |
| ExceptionsFilter.ErrorResponsePassesThrough | src/core/filters/all-exceptions.filter.ts:32-35 | Every `ErrorResponse` passes through verbatim with its own status |
| ExceptionsFilter.UnauthorizedExceptionResponse | src/core/filters/all-exceptions.filter.ts:27-37 | Nest's 401 keeps its message. For an empty message, Nest's body carries its description 'Unauthorized', which the filter sends |
| ExceptionsFilter.TextResponseMessage | src/core/filters/all-exceptions.filter.ts:27-28 | A string response is the message itself, even when empty, with the exception's status and no metadata |
| ExceptionsFilter.ObjectResponseMessage | src/core/filters/all-exceptions.filter.ts:36-37 | A foreign object body's truthy message is used, else the default, and its metadata is carried |
| ExceptionsFilter.PlainErrorIsInternal | src/core/filters/all-exceptions.filter.ts:39-45 | A plain Error gives 500 with its own message |
| ExceptionsFilter.AppErrorResponse | src/core/response/error/unauthorized.error.ts:4-8 | Each error subclass reaches the client with its status and its message or default |
| EnvUtil.TrimStart | src/common/utils/env.util.ts:20 | Drops exactly the leading JavaScript whitespace |
| EnvUtil.TrimEnd | src/common/utils/env.util.ts:20 | Drops exactly the trailing JavaScript whitespace |
| EnvUtil.TrimEmptyIffBlank | src/common/utils/env.util.ts:20 | The trimmed value is non-empty iff the value has a non-whitespace character |
| EnvUtil.GetEnv | src/common/utils/env.util.ts:13-25 | A value with content comes back untrimmed. Otherwise: required gives 'Not found env for key', a non-empty default is returned, else 'Not found value or default value'. Never returns the empty string |
| Crypto.GenerateRsaKeyPair | src/modules/key-token/key-token.service.ts:42-43 | The public key belongs to the private key |
| Crypto.RandomString | src/modules/encryption/encryption.service.ts:111-113 | Two hex characters per byte, hence colon-free |
| Crypto.CreateJwtPair | src/modules/jwt-token/jwt-token.service.ts:22-39 | Both tokens over the same payload and key, expiring 10 minutes and 7 days on |
| Crypto.PairVerifies | src/modules/jwt-token/jwt-token.service.ts:65-80 | A fresh pair verifies under its public key and decodes to its payload. The access token fails at its expiry |
| Crypto.KdfMessageInjective | src/modules/encryption/encryption.service.ts:48-53 | `secret:nonce` determines secret and nonce when secrets are colon-free |
| Crypto.EncryptionService.EncryptToken | src/modules/encryption/encryption.service.ts:61-81 | The result decrypts to the token under the same secret and nonce |
| Crypto.EncryptionService.DecryptToken | src/modules/encryption/encryption.service.ts:86-106 | Opens iff ciphertext, IV and tag were made under the derived key |
| Crypto.WrongSecretFails | src/modules/encryption/encryption.service.ts:86-106 | A different secret or nonce never opens the artifact |
| Text.AnyIncludes | src/modules/vlute/login/login.service.ts:150-153 | True iff some string contains the substring |
| Text.SplitJoin | src/modules/vlute/login/login.service.ts:107-112 | Splitting separator-free pieces after joining gives them back (the round trip of the `&`/`=` body the form encoder builds) |
| Uri.Utf8RoundTrip | src/modules/vlute/login/login.service.ts:37-39 | UTF-8 decoding recovers every scalar value |
| Uri.Encode | src/modules/vlute/login/login.service.ts:37-39 | `encodeURIComponent` output uses only unreserved characters and `%` |
| Uri.EncodeUnescaped | src/modules/vlute/login/login.service.ts:37-39 | Unreserved characters pass through unchanged |
| Uri.EncodeRoundTrip | src/modules/vlute/login/login.service.ts:37-39 | Percent-decoding undoes encoding, for both character sets |
| Login.ExtractSsoUrlFromHtml | src/modules/vlute/login/login.service.ts:181-190 | None iff `<form[^>]+action="([^"]+)"` matches nowhere (ASCII case-insensitive). Otherwise it is the leftmost match's greedy capture with `&amp;` unescaped |
| Login.UnescapeEscapeAmp | src/modules/vlute/login/login.service.ts:185 | Unescaping `&amp;` undoes HTML escaping of `&` |
| Login.UnescapeAmpNoEntity | src/modules/vlute/login/login.service.ts:185 | Text without `&amp;` is unchanged |
| Login.SsoBaseUrlResolves | src/modules/vlute/vlute.config.ts:7-11 | The base URL is the environment's value if it has content, else `https://sso.vlute.edu.vn`. It never fails |
| Login.GeneratedState | src/modules/vlute/login/login.service.ts:34 | Without a truthy state, the state is the 32 lower-hex digits of 16 random bytes, so `slice(0, 40)` cuts nothing |
| Login.AuthUrlParameters | src/modules/vlute/login/login.service.ts:35-39 | Read back, the URL's query is exactly client_id, redirect_uri, scope, response_type, state. redirect_uri decodes to the given URI. state is the given state when it has no `&` or `#` |
| Login.GeneratedStateTravels | src/modules/vlute/login/login.service.ts:34-39 | A generated state is read back intact from the URL |
| Login.SsoUrlOf | src/modules/vlute/login/login.service.ts:68-73 | A truthy Location wins. Without one, only a non-empty text body is scraped. A found URL is non-empty |
| Login.InitializeSsoSession | src/modules/vlute/login/login.service.ts:26-89 | Fetches the auth URL built from the current state. Returns that reply's SSO URL, cookies (default empty) and the state, or fails with 'Could not get SSO URL from initial request'. The redirect URI defaults to the timetable portal's callback |
| Login.FormBodyRoundTrip | src/modules/vlute/login/login.service.ts:107-112 | The form body reads back as exactly its fields, whatever their text |
| Login.RawPairsOfJoin | src/modules/vlute/login/login.service.ts:107-112 | Pairs joined with `=` and `&` split back into the same pairs |
| Login.Lookup | src/modules/vlute/login/login.service.ts:35-39 | Reading the built authentication query back by raw name: returns the value of the first pair with that name, or none iff no pair has it |
| Login.DecodedLookup | src/modules/vlute/login/login.service.ts:174 | `searchParams.get`: returns the value of the first pair whose percent-decoded name equals the name asked for, or none iff no name decodes to it |
| Login.EscapedNameIsFirst | src/modules/vlute/login/login.service.ts:174 | In `c%6Fde=a&code=b` the escaped name decodes to `code`, so `get('code')` gives `a` |
| Login.Authenticate | src/modules/vlute/login/login.service.ts:99-125 | The body reads back as credentialId '', username, password, login 'login'. The content type is form-urlencoded. The cookie header is the cookies joined by `; `. The origin is the SSO base and the referer is the URL |
| Login.ConsumeCallback | src/modules/vlute/login/login.service.ts:132-176 | Success iff some cookie contains `laravel_session` and some contains `XSRF-TOKEN`. The cookies and status are returned either way. The auth code is read only on success, from the first query parameter whose decoded name is `code` |

## Left out

- Cryptographic internals (RSA key generation, RS256 signatures, HMAC-SHA256, AES-256-GCM) are not computed. JWTs are a `JwtScheme` value with stated laws. The envelope is symbolic, with HMAC taken as collision-free.
- Node's `randomBytes`, the clock and `new Date()` are parameters (`Entropy`, `now`). The seven-day expiry `setDate(getDate() + 7)` is modelled as 604800 s, which ignores daylight-saving shifts.
- Network I/O is not modelled. This covers every axios call, its headers and user agent, `maxRedirects` and `validateStatus`: a reply is whatever the `get` parameter answers. Logging is left out too.
- Concurrency is not modelled. `createKeyToken`'s read-modify-write runs as one sequential step.
- Mongoose and Redis are maps, and the cache TTL is a recorded constant, not a clock. The JSON round trip of cached records and `_id`/timestamps are left out.
- Guard.Authenticate: the guard's own base64/JSON parse of the payload segment is modelled as the library's `decode`, so a token whose middle segment parses but whose signature is garbage is treated alike.
- Guard.AuthGuard.CanActivate: a storage failure inside `handleIntrusion`, which the source's loop swallows and turns into 'Invalid token or expired session', is not modelled, since storage failures are not. BSON's error cannot arise there, because the id has a record.
- Guard.ExtractToken: the scheme `Bearer` is matched case-sensitively, as the source does. Section 2.1 of RFC 6750 treats it as case-insensitive. Headers are split on single spaces only.
- Login.CallbackCode: the strict percent-decoder is used. The URL parser's lenient handling of malformed `%` escapes, and its rejection of unparsable locations, are not modelled (a malformed escape gives no code). Parameter names are percent-decoded before they are compared, as `URLSearchParams` does; a name with a malformed escape matches nothing.
- Login.AuthUrl: the state is inserted without encoding, as written, so `Login.AuthUrlParameters` needs a state without `&` and `#`. The request URL is the bare path `/auth/realms/VLUTE/protocol/openid-connect/auth`, resolved by the HTTP client.
- Login.InitializeSsoSession: a reply body that is not a string (JSON, buffer) is only `OtherBody`.
- Login.ExtractSsoUrlFromHtml: case folding is ASCII only. This matches the non-Unicode regular expression for the letters involved.
- `AuthService.login` (src/modules/auth/auth.service.ts:60-119) is SSO plumbing over network calls and is not modelled. Its email is composed as `${studentId}@${suffix}` with a suffix that already starts with `@`, which gives a double `@`.
- `AuthService.getMe` and `UserService.getUserLoginInfo` are a `users` map parameter. The latter is not defined in src/modules/user/user.service.ts.
- src/modules/auth/auth.controller.ts is not part of this model. It calls methods `AuthService` does not define.
- Mongoose field validators beyond `required` and `default` are not modelled.
- KeyTokens.IsObjectIdText: BSON's current rule is taken (24 hexadecimal digits). Older BSON releases also accept any 12-character string; the dependency version is not fixed in the modelled files.
- KeyTokens.KeyTokenService.FindByUserId: two ids that differ only in the case of their hex letters name the same MongoDB record but different cache keys. The model's store keeps them apart. Stored ids are lower case, so such an id can only come from a forged payload, and its signature fails anyway.
- Auth.AuthService.RefreshToken: a payload with no `userId` field at all makes `new Types.ObjectId(undefined)` draw a fresh id, which finds no record (401). Claims in the model always carry string fields; an empty id is text that BSON rejects.
- Uri.Encode: `encodeURIComponent` throws a `URIError` on a lone UTF-16 surrogate. A Dafny `char` is a Unicode scalar value, so the model cannot state that input.
