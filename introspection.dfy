/**
 * IntrospectionTokenStore (router/introspection_store.go): a token store that asks a remote
 * introspection endpoint (RFC 7662) whether an access token is active. The HTTP exchange is an
 * input: a function from the request sent to what came back.
 */
module Introspection {
  import opened Wrappers
  import opened Clock
  import opened Token

  /** The JSON object of section 2.2 of RFC 7662, as far as the store reads it. */
  datatype IntrospectionResponse = IntrospectionResponse(
    active: bool,
    clientID: string,
    username: string,
    scope: string,
    exp: int,          // seconds since the epoch; 0 when the member is absent
    tokenType: string)

  /** The store's configuration; no method writes it. */
  datatype IntrospectionTokenStore = IntrospectionTokenStore(
    introspectURL: string,
    clientID: string,
    clientSecret: string,
    timeout: Duration)

  /** The request GetByAccess sends (section 2.1 of RFC 7662). */
  datatype HttpRequest = HttpRequest(
    httpMethod: string,
    url: string,
    body: string,
    basicUser: string,
    basicPassword: string,
    contentType: string)

  /** What the exchange produced: no request could be built, no reply arrived, or a reply with its decoding. */
  datatype Exchange =
    | RequestRejected(error: Error)
    | TransportFailed(error: Error)
    | Replied(status: int, body: string, decoded: Result<IntrospectionResponse>)

  const StatusOK := 200

  /** NewIntrospectionTokenStore: URL and credentials as given, and an HTTP client with a 5-second timeout. */
  function NewIntrospectionTokenStore(url: string, clientID: string, clientSecret: string): (s: IntrospectionTokenStore)
    ensures s.introspectURL == url && s.clientID == clientID && s.clientSecret == clientSecret
    ensures s.timeout == 5 * Second
  {
    IntrospectionTokenStore(url, clientID, clientSecret, 5 * Second)
  }

  /** The POST GetByAccess sends: the form body `token=<access>` written out without percent-encoding. */
  function IntrospectionRequest(s: IntrospectionTokenStore, access: string): (q: HttpRequest)
    ensures |q.body| == 6 + |access| && q.body[6..] == access
    ensures q.basicUser == s.clientID && q.basicPassword == s.clientSecret
  {
    HttpRequest("POST", s.introspectURL, "token=" + access, s.clientID, s.clientSecret,
      "application/x-www-form-urlencoded")
  }

  /** The token built from an active response: only client, user, scope, access and its lifetime are set. */
  function ActiveToken(resp: IntrospectionResponse, access: string, now: Instant): (t: TokenInfo)
    ensures t.access == access && t.accessCreateAt == now
    ensures t.code == "" && t.codeExpiresIn == 0 && t.refresh == "" && t.refreshExpiresIn == 0
  {
    TokenInfo(resp.clientID, resp.username, "", resp.scope, "", "", CodeChallengeMethod(""), ZeroInstant, 0,
      access, now, Sub(Unix(resp.exp), now), "", ZeroInstant, 0)
  }

  /** GetByAccess, with the exchange `send` and the clock reading `now` as inputs. */
  function GetByAccess(s: IntrospectionTokenStore, send: HttpRequest -> Exchange, now: Instant, access: string): (r: Result<TokenInfo>)
    ensures r.Ok? ==>
      var x := send(IntrospectionRequest(s, access));
      x.Replied? && x.decoded.Ok? && r.value == ActiveToken(x.decoded.value, access, now)
  {
    match send(IntrospectionRequest(s, access))
    case RequestRejected(e) => Err(e)
    case TransportFailed(e) => Err(e)
    case Replied(status, body, decoded) =>
      if status != StatusOK then Err(Message("introspection failed: " + body))
      else if decoded.Err? then Err(decoded.error)
      else if !decoded.value.active then Err(Message("token is not active"))
      else Ok(ActiveToken(decoded.value, access, now))
  }

  /** GetByCode: the code is introspected as if it were an access token. */
  function GetByCode(s: IntrospectionTokenStore, send: HttpRequest -> Exchange, now: Instant, code: string): (r: Result<TokenInfo>)
    ensures r == GetByAccess(s, send, now, code)
  {
    GetByAccess(s, send, now, code)
  }

  /** The write operations accept everything and store nothing. */
  function Create(s: IntrospectionTokenStore, info: TokenInfo): (r: Outcome)
    ensures r.Pass?
  {
    Pass
  }

  function RemoveByAccess(s: IntrospectionTokenStore, access: string): (r: Outcome)
    ensures r.Pass?
  {
    Pass
  }

  function RemoveByRefresh(s: IntrospectionTokenStore, refresh: string): (r: Outcome)
    ensures r.Pass?
  {
    Pass
  }

  function RemoveByCode(s: IntrospectionTokenStore, code: string): (r: Outcome)
    ensures r.Pass?
  {
    Pass
  }

  /** Refresh tokens are never looked up: every request fails. */
  function GetByRefresh(s: IntrospectionTokenStore, refresh: string): (r: Result<TokenInfo>)
    ensures r.Err? && ErrorText(r.error) == "refresh not supported"
  {
    Err(Message("refresh not supported"))
  }

  // ---------------------------------------------------------------------------
  // Properties

  /** The request is a form POST to the configured URL with the store's Basic credentials. */
  lemma RequestShape(s: IntrospectionTokenStore, access: string)
    ensures var q := IntrospectionRequest(s, access);
      q.httpMethod == "POST" && q.url == s.introspectURL
      && q.basicUser == s.clientID && q.basicPassword == s.clientSecret
      && q.contentType == "application/x-www-form-urlencoded"
      && |q.body| == 6 + |access| && q.body[..6] == "token=" && q.body[6..] == access
  {
  }

  /** The body carries the access string verbatim, so distinct tokens give distinct bodies. */
  lemma RequestBodyInjective(s: IntrospectionTokenStore, a: string, b: string)
    requires IntrospectionRequest(s, a).body == IntrospectionRequest(s, b).body
    ensures a == b
  {
    assert a == IntrospectionRequest(s, a).body[6..];
    assert b == IntrospectionRequest(s, b).body[6..];
  }

  /** The token is granted iff the reply is exactly 200, decodes, and says the token is active. */
  lemma GrantedIff(s: IntrospectionTokenStore, send: HttpRequest -> Exchange, now: Instant, access: string)
    ensures GetByAccess(s, send, now, access).Ok? <==>
      var x := send(IntrospectionRequest(s, access));
      x.Replied? && x.status == StatusOK && x.decoded.Ok? && x.decoded.value.active
  {
  }

  /** Each refusal carries its own error. */
  lemma RefusalErrors(s: IntrospectionTokenStore, send: HttpRequest -> Exchange, now: Instant, access: string)
    ensures var x := send(IntrospectionRequest(s, access));
      var r := GetByAccess(s, send, now, access);
      (x.RequestRejected? || x.TransportFailed? ==> r == Err(x.error))
      && (x.Replied? && x.status != StatusOK ==> r == Err(Message("introspection failed: " + x.body)))
      && (x.Replied? && x.status == StatusOK && x.decoded.Err? ==> r == Err(x.decoded.error))
      && (x.Replied? && x.status == StatusOK && x.decoded.Ok? && !x.decoded.value.active ==> r == Err(Message("token is not active")))
  {
  }

  /**
   * A granted token takes client and user from the response, the access string from the query
   * (not from the response), no code and no refresh string, is created now, and lasts until `exp`.
   */
  lemma GrantedToken(s: IntrospectionTokenStore, send: HttpRequest -> Exchange, now: Instant, access: string)
    requires GetByAccess(s, send, now, access).Ok?
    ensures var x := send(IntrospectionRequest(s, access));
      var t := GetByAccess(s, send, now, access).value;
      var resp := x.decoded.value;
      t.clientID == resp.clientID && t.userID == resp.username && t.scope == resp.scope
      && t.access == access && t.code == "" && t.refresh == ""
      && t.accessCreateAt == now && t.accessExpiresIn == Sub(Unix(resp.exp), now)
      && (IsDuration(Unix(resp.exp) - now) ==> t.accessCreateAt + t.accessExpiresIn == Unix(resp.exp))
  {
  }

  /** A reply without `exp` decodes it as 0, so after 1970 the granted token is already expired. */
  lemma MissingExpIsExpired(resp: IntrospectionResponse, access: string, now: Instant)
    requires resp.exp == 0 && now > 0
    ensures ActiveToken(resp, access, now).accessExpiresIn < 0
  {
  }

  /** The stubs: writes succeed without effect and refresh lookups always fail. */
  lemma Stubs(s: IntrospectionTokenStore, info: TokenInfo, v: string)
    ensures Create(s, info) == Pass && RemoveByAccess(s, v) == Pass
    ensures RemoveByRefresh(s, v) == Pass && RemoveByCode(s, v) == Pass
    ensures GetByRefresh(s, v) == Err(Message("refresh not supported"))
  {
  }
}
