/**
 * The portal's single sign-on client: the authentication request URL and its
 * state, the login form's action URL read out of the sign-on page, the form
 * body of the credential post, and the check of the session cookies the
 * callback must set. The HTTP exchanges themselves are parameters: a reply
 * is whatever the server answered to the URL built here.
 */
module Login {
  import opened Wrappers
  import opened Text
  import opened Bytes
  import opened Uri
  import opened EnvUtil

  // ---------------------------------------------------------------- form action in HTML

  /** ASCII case folding: the only folding a case-insensitive non-Unicode pattern applies to these letters. */
  function FoldCase(c: char): char {
    if 'A' <= c <= 'Z' then (c as int + 32) as char else c
  }

  /** The lower-case `pat` occurs at `i` in `s`, ignoring ASCII case. */
  predicate MatchesAt(s: string, i: nat, pat: string) {
    i + |pat| <= |s| && forall k :: 0 <= k < |pat| ==> FoldCase(s[i + k]) == pat[k]
  }

  /**
   * The pattern `<form[^>]+action="([^"]+)"` matches with `<form` at `p` and
   * `action="` at `q`: at least one character other than `>` between them,
   * and a non-empty run of characters other than `"` closed by a `"`.
   */
  predicate IsMatch(html: string, p: nat, q: nat) {
    && p + 5 < q && q + 8 <= |html|
    && MatchesAt(html, p, "<form")
    && (forall k :: p + 5 <= k < q ==> html[k] != '>')
    && MatchesAt(html, q, "action=\"")
    && q + 8 < IndexFrom(html, '"', q + 8) < |html|
  }

  /**
   * The match a backtracking matcher reports: the leftmost start, and for it
   * the greedy `[^>]+`, so the last `action="` that completes a match.
   */
  ghost predicate IsReportedMatch(html: string, p: nat, q: nat) {
    && IsMatch(html, p, q)
    && (forall p': nat, q': nat :: p' < p ==> !IsMatch(html, p', q'))
    && (forall q': nat :: q < q' ==> !IsMatch(html, p, q'))
  }

  /** The captured group: the attribute value up to its closing quote. */
  function Captured(html: string, q: nat): string
    requires q + 8 <= |html|
  {
    html[q + 8..IndexFrom(html, '"', q + 8)]
  }

  /** For `<form` at `p`, the last `action="` at or before `q` that completes a match. */
  function LastActionFrom(html: string, p: nat, q: nat): (r: Option<nat>)
    ensures r.Some? ==> r.value <= q && IsMatch(html, p, r.value)
    ensures r.Some? ==> forall q': nat :: r.value < q' <= q ==> !IsMatch(html, p, q')
    ensures r.None? ==> forall q': nat :: q' <= q ==> !IsMatch(html, p, q')
    decreases q
  {
    if q <= p + 5 then None
    else if IsMatch(html, p, q) then Some(q)
    else LastActionFrom(html, p, q - 1)
  }

  /** The greedy choice for `<form` at `p`: the `[^>]` run ends at the first `>`, so no later `action="` can match. */
  function LastAction(html: string, p: nat): (r: Option<nat>)
    ensures r.Some? ==> IsMatch(html, p, r.value) && forall q': nat :: r.value < q' ==> !IsMatch(html, p, q')
    ensures r.None? ==> forall q': nat :: !IsMatch(html, p, q')
  {
    if p + 5 > |html| then None
    else
      var end := IndexFrom(html, '>', p + 5);
      LastActionFrom(html, p, end)
  }

  /** The leftmost start at or after `p` that has a match, with its greedy `action="`. */
  function FirstMatchFrom(html: string, p: nat): (r: Option<(nat, nat)>)
    ensures r.Some? ==> p <= r.value.0 && IsMatch(html, r.value.0, r.value.1)
    ensures r.Some? ==> forall q': nat :: r.value.1 < q' ==> !IsMatch(html, r.value.0, q')
    ensures r.Some? ==> forall p': nat, q': nat :: p <= p' < r.value.0 ==> !IsMatch(html, p', q')
    ensures r.None? ==> forall p': nat, q': nat :: p <= p' ==> !IsMatch(html, p', q')
    decreases |html| - p
  {
    if p + 5 > |html| then None
    else match LastAction(html, p)
      case Some(q) => Some((p, q))
      case None => FirstMatchFrom(html, p + 1)
  }

  /** `s.replace(/&amp;/g, '&')`: every `&amp;`, left to right and not overlapping, becomes `&`. */
  function UnescapeAmp(s: string): string {
    if |s| == 0 then ""
    else if HasPrefix(s, "&amp;") then "&" + UnescapeAmp(s[5..])
    else [s[0]] + UnescapeAmp(s[1..])
  }

  /** HTML attribute escaping of `&`, the partner of `UnescapeAmp`. */
  function EscapeAmp(s: string): string {
    if |s| == 0 then ""
    else if s[0] == '&' then "&amp;" + EscapeAmp(s[1..])
    else [s[0]] + EscapeAmp(s[1..])
  }

  /** Unescaping undoes escaping, for any text. */
  lemma {:induction false} UnescapeEscapeAmp(s: string)
    ensures UnescapeAmp(EscapeAmp(s)) == s
  {
    if |s| > 0 {
      UnescapeEscapeAmp(s[1..]);
      var e := EscapeAmp(s);
      if s[0] == '&' {
        assert e[..5] == "&amp;" && e[5..] == EscapeAmp(s[1..]);
      } else {
        assert e[1..] == EscapeAmp(s[1..]);
      }
      assert [s[0]] + s[1..] == s;
    }
  }

  /** A text without `&amp;` has none after its first character either. */
  lemma NoEntityInTail(s: string)
    requires |s| > 0 && forall i :: !OccursAt("&amp;", s, i)
    ensures forall i :: !OccursAt("&amp;", s[1..], i)
  {
    forall i | OccursAt("&amp;", s[1..], i) ensures false {
      assert s[1..][i..i + 5] == s[i + 1..i + 6];
      assert OccursAt("&amp;", s, i + 1);
    }
  }

  /** A text without `&amp;` comes out unchanged. */
  lemma {:induction false} UnescapeAmpNoEntity(s: string)
    requires forall i :: !OccursAt("&amp;", s, i)
    ensures UnescapeAmp(s) == s
  {
    if |s| > 0 {
      assert !OccursAt("&amp;", s, 0);
      assert !HasPrefix(s, "&amp;");
      NoEntityInTail(s);
      UnescapeAmpNoEntity(s[1..]);
      assert [s[0]] + s[1..] == s;
    }
  }

  /**
   * `extractSsoUrlFromHtml`: the captured action value of the reported match,
   * with `&amp;` unescaped; None exactly when the pattern matches nowhere.
   */
  function ExtractSsoUrlFromHtml(html: string): (r: Option<string>)
    ensures r.None? <==> forall p: nat, q: nat :: !IsMatch(html, p, q)
    ensures r.Some? ==> exists p: nat, q: nat :: IsReportedMatch(html, p, q) && r.value == UnescapeAmp(Captured(html, q))
  {
    match FirstMatchFrom(html, 0)
    case Some((p, q)) =>
      assert IsReportedMatch(html, p, q);
      Some(UnescapeAmp(Captured(html, q)))
    case None => None
  }

  // ---------------------------------------------------------------- configuration

  const SsoBaseUrlKey: string := "VLUTE_SSO_BASE_URL"
  const DefaultSsoBaseUrl: string := "https://sso.vlute.edu.vn"
  const ClientId: string := "vlute.edu.vn"
  const AuthEndpoint: string := "/auth/realms/VLUTE/protocol/openid-connect/auth"
  const DaotaoRedirectUri: string := "https://daotao.vlute.edu.vn/sinh-vien/sso/callback"
  const HtqlRedirectUri: string := "https://htql.vlute.edu.vn/login/callback"
  const CredentialId: string := ""
  const LoginAction: string := "login"

  /** The sign-on base URL: the environment's value when it has one, else the portal's own. */
  function SsoBaseUrl(env: map<string, string>): Result<string, string> {
    GetEnv(env, SsoBaseUrlKey, false, DefaultSsoBaseUrl)
  }

  /** The base URL always resolves, since its default is not empty. */
  lemma SsoBaseUrlResolves(env: map<string, string>)
    ensures SsoBaseUrl(env) == Success(
      if SsoBaseUrlKey in env && HasContent(env[SsoBaseUrlKey]) then env[SsoBaseUrlKey] else DefaultSsoBaseUrl)
  {
  }

  // ---------------------------------------------------------------- queries and form bodies

  /** `name=value` */
  function PairText(p: (string, string)): string {
    p.0 + "=" + p.1
  }

  function PairTexts(ps: seq<(string, string)>): (ts: seq<string>)
    ensures |ts| == |ps| && forall k :: 0 <= k < |ps| ==> ts[k] == PairText(ps[k])
  {
    if |ps| == 0 then [] else [PairText(ps[0])] + PairTexts(ps[1..])
  }

  /** Pairs written `name=value` and joined by `&`. */
  function JoinPairs(ps: seq<(string, string)>): string {
    Join(PairTexts(ps), "&")
  }

  /** One `&`-separated piece as a pair: up to the first `=`, and the rest (empty without `=`). */
  function SplitPair(piece: string): (string, string) {
    var i := IndexFrom(piece, '=', 0);
    if i == |piece| then (piece, "") else (piece[..i], piece[i + 1..])
  }

  function SplitPairs(pieces: seq<string>): (ps: seq<(string, string)>)
    ensures |ps| == |pieces| && forall k :: 0 <= k < |pieces| ==> ps[k] == SplitPair(pieces[k])
  {
    if |pieces| == 0 then [] else [SplitPair(pieces[0])] + SplitPairs(pieces[1..])
  }

  /** The pairs of a query or form body, still encoded. */
  function RawPairs(text: string): seq<(string, string)> {
    SplitPairs(Split(text, '&'))
  }

  /** A pair that survives being joined and split again. */
  predicate PlainPair(p: (string, string)) {
    '=' !in p.0 && '&' !in p.0 && '&' !in p.1
  }

  /** Splitting joined pairs gives the pairs back, when no name holds `=` or `&` and no value holds `&`. */
  lemma RawPairsOfJoin(ps: seq<(string, string)>)
    requires |ps| >= 1 && forall k :: 0 <= k < |ps| ==> PlainPair(ps[k])
    ensures RawPairs(JoinPairs(ps)) == ps
  {
    var ts := PairTexts(ps);
    forall k | 0 <= k < |ts| ensures '&' !in ts[k] {
      assert ts[k] == ps[k].0 + "=" + ps[k].1;
    }
    SplitJoin(ts, '&');
    assert Split(JoinPairs(ps), '&') == ts;
    forall k | 0 <= k < |ps| ensures SplitPair(ts[k]) == ps[k] {
      FirstSeparator(ps[k].0, '=', ps[k].1);
      assert ts[k] == ps[k].0 + ['='] + ps[k].1;
      assert ts[k][..|ps[k].0|] == ps[k].0;
      assert ts[k][|ps[k].0| + 1..] == ps[k].1;
    }
  }

  /** The first value under `name`, as `URLSearchParams.get` picks it. */
  function Lookup(ps: seq<(string, string)>, name: string): (r: Option<string>)
    ensures r.Some? ==> exists k :: 0 <= k < |ps| && ps[k] == (name, r.value) && forall i :: 0 <= i < k ==> ps[i].0 != name
    ensures r.None? <==> forall k :: 0 <= k < |ps| ==> ps[k].0 != name
  {
    if |ps| == 0 then None
    else if ps[0].0 == name then Some(ps[0].1)
    else
      var r := Lookup(ps[1..], name);
      assert forall k :: 1 <= k < |ps| ==> ps[k] == ps[1..][k - 1];
      r
  }

  /** The query of a URL: after the first `?` of the part before any `#`. */
  function QueryOf(url: string): string {
    var base := url[..IndexFrom(url, '#', 0)];
    var i := IndexFrom(base, '?', 0);
    if i == |base| then "" else base[i + 1..]
  }

  /** The raw value of query parameter `name`. */
  function QueryValue(url: string, name: string): Option<string> {
    Lookup(RawPairs(QueryOf(url)), name)
  }

  /** Each piece encoded with the form set. */
  function EncodePairs(fields: seq<(string, string)>): (ps: seq<(string, string)>)
    ensures |ps| == |fields|
    ensures forall k :: 0 <= k < |fields| ==> ps[k] == (Encode(FormSet, fields[k].0), Encode(FormSet, fields[k].1))
  {
    if |fields| == 0 then [] else [(Encode(FormSet, fields[0].0), Encode(FormSet, fields[0].1))] + EncodePairs(fields[1..])
  }

  function DecodePairs(ps: seq<(string, string)>): Option<seq<(string, string)>> {
    if |ps| == 0 then Some([])
    else match (PercentDecode(FormSet, ps[0].0), PercentDecode(FormSet, ps[0].1), DecodePairs(ps[1..]))
      case (Some(n), Some(v), Some(rest)) => Some([(n, v)] + rest)
      case _ => None
  }

  /** `new URLSearchParams(fields).toString()` */
  function FormBody(fields: seq<(string, string)>): string {
    JoinPairs(EncodePairs(fields))
  }

  /** A form body read back into its fields. */
  function FormFields(body: string): Option<seq<(string, string)>> {
    DecodePairs(RawPairs(body))
  }

  lemma {:induction false} DecodeEncodedPairs(fields: seq<(string, string)>)
    ensures DecodePairs(EncodePairs(fields)) == Some(fields)
  {
    if |fields| > 0 {
      EncodeRoundTrip(FormSet, fields[0].0);
      EncodeRoundTrip(FormSet, fields[0].1);
      assert EncodePairs(fields)[1..] == EncodePairs(fields[1..]);
      DecodeEncodedPairs(fields[1..]);
      assert [fields[0]] + fields[1..] == fields;
    }
  }

  /** A form body reads back as the fields it was built from, whatever their text. */
  lemma FormBodyRoundTrip(fields: seq<(string, string)>)
    requires |fields| >= 1
    ensures FormFields(FormBody(fields)) == Some(fields)
  {
    var ps := EncodePairs(fields);
    forall k | 0 <= k < |ps| ensures PlainPair(ps[k]) {
      assert !InEncodedAlphabet(FormSet, '=') && !InEncodedAlphabet(FormSet, '&');
    }
    RawPairsOfJoin(ps);
    DecodeEncodedPairs(fields);
  }

  // ---------------------------------------------------------------- step 1: the authentication request

  /** The caller's state when it is truthy, else 16 random bytes in hex cut to at most 40 characters. */
  function CurrentState(state: Option<string>, random: seq<byte>): string {
    if state.Some? && state.value != "" then state.value
    else
      var h := LowerHex(random);
      h[..Min(|h|, 40)]
  }

  /** A generated state is the 32 lower-case hex digits of the 16 random bytes. */
  lemma GeneratedState(state: Option<string>, random: seq<byte>)
    requires state.None? || state.value == ""
    requires |random| == 16
    ensures CurrentState(state, random) == LowerHex(random)
    ensures |CurrentState(state, random)| == 32
    ensures forall k :: 0 <= k < 32 ==> IsLowerHexDigit(CurrentState(state, random)[k])
  {
  }

  /** The OpenID Connect parameters of the authentication request, in order. */
  function AuthQuery(redirectUri: string, state: string): seq<(string, string)> {
    [("client_id", ClientId), ("redirect_uri", Encode(ComponentSet, redirectUri)),
     ("scope", "openid"), ("response_type", "code"), ("state", state)]
  }

  /** The query text of the authentication URL, for an encoded redirect URI `enc`. */
  function AuthQueryTemplate(enc: string, state: string): string {
    "client_id=" + ClientId + "&redirect_uri=" + enc + "&scope=openid&response_type=code&state=" + state
  }

  /** The authentication request URL: only the redirect URI is percent-encoded, the state goes in as it is. */
  function AuthUrl(redirectUri: string, state: string): string {
    AuthEndpoint + "?" + AuthQueryTemplate(Encode(ComponentSet, redirectUri), state)
  }

  lemma NoSeparatorInEncoded(es: EncodeSet, s: string)
    ensures '&' !in Encode(es, s) && '#' !in Encode(es, s) && '=' !in Encode(es, s)
  {
  }

  lemma JoinFive(ts: seq<string>)
    requires |ts| == 5
    ensures Join(ts, "&") == ts[0] + "&" + ts[1] + "&" + ts[2] + "&" + ts[3] + "&" + ts[4]
  {
    assert ts[1..][1..] == ts[2..] && ts[2..][1..] == ts[3..] && ts[3..][1..] == ts[4..];
    assert Join(ts[4..], "&") == ts[4];
    var j3 := Join(ts[3..], "&");
    assert j3 == ts[3] + "&" + ts[4];
    var j2 := Join(ts[2..], "&");
    assert j2 == ts[2] + "&" + j3;
    var j1 := Join(ts[1..], "&");
    assert j1 == ts[1] + "&" + j2;
    assert Join(ts, "&") == ts[0] + "&" + j1;
  }

  lemma Regroup(p0: string, v0: string, p1: string, v1: string, t2: string, t3: string, p4: string, v4: string)
    ensures (p0 + v0) + "&" + (p1 + v1) + "&" + t2 + "&" + t3 + "&" + (p4 + v4) ==
      p0 + v0 + ("&" + p1) + v1 + ("&" + t2 + "&" + t3 + "&" + p4) + v4
  {
  }

  lemma JoinedQuery(enc: string, state: string, ts: seq<string>)
    requires |ts| == 5
    requires ts[0] == "client_id=" + ClientId && ts[1] == "redirect_uri=" + enc
    requires ts[2] == "scope=openid" && ts[3] == "response_type=code" && ts[4] == "state=" + state
    ensures ts[0] + "&" + ts[1] + "&" + ts[2] + "&" + ts[3] + "&" + ts[4] ==
      "client_id=" + ClientId + "&redirect_uri=" + enc + "&scope=openid&response_type=code&state=" + state
  {
    assert "&redirect_uri=" == "&" + "redirect_uri=";
    assert "&scope=openid&response_type=code&state=" == "&" + "scope=openid" + "&" + "response_type=code" + "&" + "state=";
    Regroup("client_id=", ClientId, "redirect_uri=", enc, "scope=openid", "response_type=code", "state=", state);
  }

  /** The five parameters joined, for any encoded redirect URI `enc`. */
  lemma AuthQueryText(enc: string, state: string)
    ensures JoinPairs([("client_id", ClientId), ("redirect_uri", enc), ("scope", "openid"),
                       ("response_type", "code"), ("state", state)]) == AuthQueryTemplate(enc, state)
  {
    var ps := [("client_id", ClientId), ("redirect_uri", enc), ("scope", "openid"),
               ("response_type", "code"), ("state", state)];
    var ts := PairTexts(ps);
    JoinFive(ts);
    assert "client_id" + "=" == "client_id=";
    assert "redirect_uri" + "=" == "redirect_uri=";
    assert "state" + "=" == "state=";
    assert ts[0] == "client_id=" + ClientId;
    assert ts[1] == "redirect_uri=" + enc;
    assert ts[2] == "scope=openid";
    assert ts[3] == "response_type=code";
    assert ts[4] == "state=" + state;
    JoinedQuery(enc, state, ts);
  }

  /** The query of `prefix?query` when neither part holds a `#` and the prefix holds no `?`. */
  lemma QueryAfterMark(prefix: string, query: string)
    requires '?' !in prefix && '#' !in prefix && '#' !in query
    ensures QueryOf(prefix + ['?'] + query) == query
  {
    var url := prefix + ['?'] + query;
    assert '#' !in url by {
      assert forall k :: 0 <= k < |url| ==> url[k] == (if k < |prefix| then prefix[k] else if k == |prefix| then '?' else query[k - |prefix| - 1]);
    }
    assert url[..IndexFrom(url, '#', 0)] == url;
    FirstSeparator(prefix, '?', query);
    assert url[|prefix| + 1..] == query;
  }

  lemma QueryTemplateHasNoMark(enc: string, state: string)
    requires '#' !in enc && '#' !in state
    ensures '#' !in AuthQueryTemplate(enc, state)
  {
    var lit := "&scope=openid&response_type=code&state=";
    assert '#' !in "client_id=" + ClientId + "&redirect_uri=" && '#' !in lit;
  }

  lemma RealmHasNoMarks()
    ensures '?' !in "/auth/realms/VLUTE/" && '#' !in "/auth/realms/VLUTE/"
  {
  }

  lemma ProtocolHasNoMarks()
    ensures '?' !in "protocol/openid-connect/auth" && '#' !in "protocol/openid-connect/auth"
  {
  }

  lemma EndpointHasNoMarks()
    ensures '?' !in AuthEndpoint && '#' !in AuthEndpoint
  {
    var realm, protocol := "/auth/realms/VLUTE/", "protocol/openid-connect/auth";
    assert AuthEndpoint == realm + protocol;
    RealmHasNoMarks();
    ProtocolHasNoMarks();
  }

  /** The query of the authentication URL is the five parameters joined. */
  lemma AuthUrlQuery(redirectUri: string, state: string)
    requires '#' !in state
    ensures QueryOf(AuthUrl(redirectUri, state)) == JoinPairs(AuthQuery(redirectUri, state))
  {
    var enc := Encode(ComponentSet, redirectUri);
    NoSeparatorInEncoded(ComponentSet, redirectUri);
    QueryTemplateHasNoMark(enc, state);
    EndpointHasNoMarks();
    QueryAfterMark(AuthEndpoint, AuthQueryTemplate(enc, state));
    AuthQueryText(enc, state);
  }

  /** Read back, the query of the authentication URL is the five parameters. */
  lemma AuthUrlPairs(redirectUri: string, state: string)
    requires '&' !in state && '#' !in state
    ensures RawPairs(QueryOf(AuthUrl(redirectUri, state))) == AuthQuery(redirectUri, state)
  {
    AuthQueryPlain(redirectUri, state);
    AuthUrlQuery(redirectUri, state);
    QueryPairs(AuthUrl(redirectUri, state), AuthQuery(redirectUri, state));
  }

  lemma AuthQueryPlain(redirectUri: string, state: string)
    requires '&' !in state
    ensures forall k :: 0 <= k < 5 ==> PlainPair(AuthQuery(redirectUri, state)[k])
  {
    NoSeparatorInEncoded(ComponentSet, redirectUri);
  }

  /** A URL whose query is pairs joined reads back as those pairs. */
  lemma QueryPairs(url: string, ps: seq<(string, string)>)
    requires |ps| >= 1 && forall k :: 0 <= k < |ps| ==> PlainPair(ps[k])
    requires QueryOf(url) == JoinPairs(ps)
    ensures RawPairs(QueryOf(url)) == ps
  {
    RawPairsOfJoin(ps);
  }

  /** Looking the parameters up by name. */
  lemma AuthQueryLookup(redirectUri: string, state: string)
    ensures var ps := AuthQuery(redirectUri, state);
      && Lookup(ps, "client_id") == Some(ClientId)
      && Lookup(ps, "redirect_uri") == Some(Encode(ComponentSet, redirectUri))
      && Lookup(ps, "response_type") == Some("code")
      && Lookup(ps, "state") == Some(state)
  {
    var ps := AuthQuery(redirectUri, state);
    assert ps[1..][1..] == ps[2..] && ps[2..][1..] == ps[3..] && ps[3..][1..] == ps[4..];
    assert Lookup(ps[3..], "response_type") == Some("code");
    assert Lookup(ps[4..], "state") == Some(state);
  }

  /**
   * A server reading the authentication URL finds exactly the five parameters,
   * the redirect URI decoding back to the one given, when the state holds no
   * `&` or `#` (a generated one never does).
   */
  lemma AuthUrlParameters(redirectUri: string, state: string)
    requires '&' !in state && '#' !in state
    ensures RawPairs(QueryOf(AuthUrl(redirectUri, state))) == AuthQuery(redirectUri, state)
    ensures QueryValue(AuthUrl(redirectUri, state), "client_id") == Some(ClientId)
    ensures QueryValue(AuthUrl(redirectUri, state), "response_type") == Some("code")
    ensures QueryValue(AuthUrl(redirectUri, state), "state") == Some(state)
    ensures match QueryValue(AuthUrl(redirectUri, state), "redirect_uri")
      case Some(raw) => PercentDecode(ComponentSet, raw) == Some(redirectUri)
      case None => false
  {
    AuthUrlPairs(redirectUri, state);
    AuthQueryLookup(redirectUri, state);
    EncodeRoundTrip(ComponentSet, redirectUri);
  }

  /** What the sign-on server answered to the authentication request. */
  datatype Body = TextBody(text: string) | OtherBody
  datatype InitialReply = InitialReply(location: Option<string>, setCookies: Option<seq<string>>, data: Body)

  /** The sign-on session to continue with. */
  datatype SsoSession = SsoSession(ssoUrl: string, cookies: seq<string>, state: string)

  const NoSsoUrlMessage: string := "Could not get SSO URL from initial request"

  /** The login URL of a reply: a truthy `Location`, else the form action of a non-empty HTML body. */
  function SsoUrlOf(reply: InitialReply): (r: Option<string>)
    ensures r.Some? ==> r.value != ""
    ensures reply.location.Some? && reply.location.value != "" ==> r == reply.location
    ensures (reply.location.None? || reply.location.value == "") && reply.data.OtherBody? ==> r.None?
  {
    if reply.location.Some? && reply.location.value != "" then reply.location
    else match reply.data
      case TextBody(text) =>
        if text == "" then None
        else (match ExtractSsoUrlFromHtml(text)
              case Some(url) => if url != "" then Some(url) else None
              case None => None)
      case OtherBody => None
  }

  /**
   * `initializeSsoSession(redirectUri, state)`: `random` is the 16 bytes
   * drawn for a missing state, and `get` is the GET the portal performs,
   * answering the URL it is given. The redirect URI defaults to the timetable
   * portal's callback, and the state to none.
   */
  method InitializeSsoSession(random: seq<byte>, get: string -> InitialReply,
                              redirectUri: string := HtqlRedirectUri, state: Option<string> := None)
    returns (r: Result<SsoSession, string>)
    requires |random| == 16
    ensures var currentState := CurrentState(state, random);
      var reply := get(AuthUrl(redirectUri, currentState));
      match SsoUrlOf(reply)
      case Some(url) => r == Success(SsoSession(url, reply.setCookies.GetOr([]), currentState))
      case None => r == Failure(NoSsoUrlMessage)
  {
    var currentState: string;
    if state.Some? && state.value != "" {
      currentState := state.value;
    } else {
      var hex := LowerHex(random);
      currentState := hex[..Min(|hex|, 40)];
    }
    var authUrl := AuthUrl(redirectUri, currentState);
    var response := get(authUrl);

    var ssoUrl := response.location;
    var cookies := if response.setCookies.Some? then response.setCookies.value else [];

    if (ssoUrl.None? || ssoUrl.value == "") && response.data.TextBody? && response.data.text != "" {
      ssoUrl := ExtractSsoUrlFromHtml(response.data.text);
    }

    if ssoUrl.None? || ssoUrl.value == "" {
      return Failure(NoSsoUrlMessage);
    }
    return Success(SsoSession(ssoUrl.value, cookies, currentState));
  }

  /** With no state of the caller's, the session carries the generated state, which the request URL hands over intact. */
  lemma GeneratedStateTravels(redirectUri: string, random: seq<byte>)
    requires |random| == 16
    ensures QueryValue(AuthUrl(redirectUri, CurrentState(None, random)), "state") == Some(LowerHex(random))
  {
    GeneratedState(None, random);
    var st := LowerHex(random);
    assert '&' !in st && '#' !in st;
    AuthUrlParameters(redirectUri, st);
  }

  // ---------------------------------------------------------------- step 2: the credential post

  const FormContentType: string := "application/x-www-form-urlencoded"
  const CookieSeparator: string := "; "

  /** The request `authenticate` sends (the user agent header is left out). */
  datatype LoginPost = LoginPost(url: string, body: string, contentType: string, cookie: string,
                                 origin: string, referer: string)

  function LoginFields(email: string, pass: string): seq<(string, string)> {
    [("credentialId", CredentialId), ("username", email), ("password", pass), ("login", LoginAction)]
  }

  /** `authenticate(email, pass, url, cookies)`, against the sign-on base URL `baseUrl`. */
  function Authenticate(email: string, pass: string, url: string, cookies: seq<string>, baseUrl: string): (r: LoginPost)
    ensures FormFields(r.body) == Some(LoginFields(email, pass))
    ensures r.url == url && r.referer == url && r.origin == baseUrl
    ensures r.contentType == FormContentType
    ensures r.cookie == Join(cookies, CookieSeparator)
  {
    FormBodyRoundTrip(LoginFields(email, pass));
    LoginPost(url, FormBody(LoginFields(email, pass)), FormContentType, Join(cookies, CookieSeparator), baseUrl, url)
  }

  // ---------------------------------------------------------------- step 3: the callback

  const LaravelSessionCookie: string := "laravel_session"
  const XsrfCookie: string := "XSRF-TOKEN"
  const MissingTokensMessage: string := "Could not capture all required session tokens from Laravel"
  const SuccessMessage: string := "Authentication successful"

  /** What the portal answered to the callback URL. */
  datatype CallbackReply = CallbackReply(status: int, setCookies: Option<seq<string>>)
  datatype CallbackResult = CallbackResult(status: int, success: bool, message: string,
                                           cookies: seq<string>, authCode: Option<string>)

  /**
   * The raw value of the first pair whose name decodes to `name`:
   * `URLSearchParams` decodes every name before `get` compares it.
   */
  function DecodedLookup(ps: seq<(string, string)>, name: string): (r: Option<string>)
    ensures r.Some? ==>
      exists k :: && 0 <= k < |ps| && ps[k].1 == r.value && PercentDecode(FormSet, ps[k].0) == Some(name)
                  && forall i :: 0 <= i < k ==> PercentDecode(FormSet, ps[i].0) != Some(name)
    ensures r.None? <==> forall k :: 0 <= k < |ps| ==> PercentDecode(FormSet, ps[k].0) != Some(name)
  {
    if |ps| == 0 then None
    else if PercentDecode(FormSet, ps[0].0) == Some(name) then Some(ps[0].1)
    else
      var r := DecodedLookup(ps[1..], name);
      assert forall k :: 1 <= k < |ps| ==> ps[k] == ps[1..][k - 1];
      r
  }

  /** The `code` parameter of the callback URL, name and value decoded. */
  function CallbackCode(location: string): Option<string> {
    match DecodedLookup(RawPairs(QueryOf(location)), "code")
    case Some(raw) => PercentDecode(FormSet, raw)
    case None => None
  }

  /** `c%6Fde` decodes to `code`. */
  lemma EscapedCodeName()
    ensures PercentDecode(FormSet, "c%6Fde") == Some("code")
  {
    var escaped := "c%6Fde";
    var us := [Lit('c'), Raw(0x6F), Lit('d'), Lit('e')];
    assert Unescape(FormSet, escaped[5..]) == Some(us[3..]) by {
      assert escaped[5..][1..] == [];
      assert Unescape(FormSet, escaped[5..][1..]) == Some([]);
      assert [Lit('e')] + [] == us[3..];
    }
    assert Unescape(FormSet, escaped[4..]) == Some(us[2..]) by {
      assert escaped[4..][1..] == escaped[5..];
      assert [Lit('d')] + us[3..] == us[2..];
    }
    assert Unescape(FormSet, escaped[1..]) == Some(us[1..]) by {
      var t := escaped[1..];
      assert t[0] == '%' && t[1] == '6' && t[2] == 'F';
      assert t[3..] == escaped[4..];
      assert HexValue('6') == Some(6) && HexValue('F') == Some(15);
      assert [Raw(0x6F)] + us[2..] == us[1..];
    }
    assert Unescape(FormSet, escaped) == Some(us) by {
      assert escaped[0] == 'c' && [Lit('c')] + us[1..] == us;
    }
    assert Assemble(us[3..]) == Some("e") by {
      assert us[3..][1..] == [];
      assert ['e'] + "" == "e";
    }
    assert Assemble(us[2..]) == Some("de") by {
      assert us[2..][1..] == us[3..];
      assert ['d'] + "e" == "de";
    }
    assert Assemble(us[1..]) == Some("ode") by {
      var t := us[1..];
      assert t[0] == Raw(0x6F) && SequenceLength(0x6F) == 1;
      assert t[..1] == [Raw(0x6F)] && AllRaw(t[..1]);
      assert RawBytes(t[..1]) == [0x6F];
      assert DecodeSequence([0x6F]) == Some('o');
      assert t[1..] == us[2..];
      assert ['o'] + "de" == "ode";
    }
    assert Assemble(us) == Some("code") by {
      assert us[1..] == us[1..];
      assert ['c'] + "ode" == "code";
    }
  }

  /** An escaped name still counts: `c%6Fde=a` is found before a later `code=b`. */
  lemma EscapedNameIsFirst()
    ensures DecodedLookup([("c%6Fde", "a"), ("code", "b")], "code") == Some("a")
  {
    EscapedCodeName();
  }

  /**
   * `consumeCallback(location)`, given the reply to the GET of `location`:
   * it succeeds exactly when some cookie mentions the Laravel session and some
   * cookie mentions the XSRF token, and only then reads the authorisation code.
   */
  function ConsumeCallback(location: string, reply: CallbackReply): (r: CallbackResult)
    ensures r.status == reply.status
    ensures r.cookies == (if reply.setCookies.Some? then reply.setCookies.value else [])
    ensures r.success <==>
      (exists k :: 0 <= k < |r.cookies| && OccursIn(LaravelSessionCookie, r.cookies[k])) &&
      (exists k :: 0 <= k < |r.cookies| && OccursIn(XsrfCookie, r.cookies[k]))
    ensures r.message == (if r.success then SuccessMessage else MissingTokensMessage)
    ensures r.authCode == (if r.success then CallbackCode(location) else None)
  {
    var finalCookies := reply.setCookies.GetOr([]);
    if !AnyIncludes(finalCookies, LaravelSessionCookie) || !AnyIncludes(finalCookies, XsrfCookie) then
      CallbackResult(reply.status, false, MissingTokensMessage, finalCookies, None)
    else
      CallbackResult(reply.status, true, SuccessMessage, finalCookies, CallbackCode(location))
  }
}
