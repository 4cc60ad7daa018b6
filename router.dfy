/**
 * The request-boundary decisions of router/router.go: how verify errors become statuses, which
 * middleware a registered route runs, the bearer check, the auth configuration and the refresh
 * endpoint.
 */
module Router {
  import opened Wrappers
  import opened Clock
  import opened Token
  import opened Controller
  import opened Introspection

  // ---------------------------------------------------------------------------
  // Verify errors

  /** The ErrorHandleFunc of the token-verify middleware: 401 for the two token errors, else 500. */
  function VerifyErrorStatus(errText: string): (status: int)
    ensures status == 401 || status == 500
    ensures status == 401 <==> errText == ErrorText(InvalidAccessToken) || errText == ErrorText(ExpiredAccessToken)
  {
    if errText == "invalid access token" || errText == "expired access token" then 401 else 500
  }

  /** 401 exactly for the texts of ErrInvalidAccessToken and ErrExpiredAccessToken; every other error is 500. */
  lemma VerifyErrorStatusIff(e: Error)
    ensures VerifyErrorStatus(ErrorText(e)) == 401 <==>
      e == InvalidAccessToken || e == ExpiredAccessToken
      || e == Message("invalid access token") || e == Message("expired access token")
    ensures VerifyErrorStatus(ErrorText(e)) != 401 ==> VerifyErrorStatus(ErrorText(e)) == 500
  {
    TokenErrorText(e);
  }

  /** Only the two token errors, and plain errors with the same text, render as a token error's text. */
  lemma TokenErrorText(e: Error)
    ensures ErrorText(e) == "invalid access token" || ErrorText(e) == "expired access token" <==>
      e == InvalidAccessToken || e == ExpiredAccessToken
      || e == Message("invalid access token") || e == Message("expired access token")
  {
    match e
    case Message(t) =>
    case InvalidAccessToken =>
    case ExpiredAccessToken =>
    case DuplicateKey(t) =>
      OtherText(ErrorText(e), "duplicate key value violates unique constraint on "[0]);
    case TimeParse(l, v) =>
      OtherText(ErrorText(e), "parsing time \""[0]);
    case NumSyntax(i) =>
      OtherText(ErrorText(e), "strconv.ParseInt: parsing \""[0]);
    case NumRange(i) =>
      OtherText(ErrorText(e), "strconv.ParseInt: parsing \""[0]);
    case CannotConvert(t) =>
      OtherText(ErrorText(e), "can not convert value to "[0]);
    case InvalidScope =>
      OtherText(ErrorText(e), 'i');
    case UnauthorizedClient =>
      OtherText(ErrorText(e), 'u');
    case StorageFailure =>
      OtherText(ErrorText(e), 's');
    case Foreign(_) =>
      OtherText(ErrorText(e), 'f');
  }

  /** A text that differs from both token errors in its length or its first letter is neither of them. */
  lemma OtherText(s: string, first: char)
    requires |s| > 0 && s[0] == first
    requires |s| != 20 || (first != 'i' && first != 'e')
    ensures s != "invalid access token" && s != "expired access token"
  {
    assert |"invalid access token"| == 20 && "invalid access token"[0] == 'i';
    assert |"expired access token"| == 20 && "expired access token"[0] == 'e';
  }

  // ---------------------------------------------------------------------------
  // Route registration

  /** The handlers a gin chain can hold here. */
  datatype Middleware = Logger | Recovery | TokenVerify | BearerCheck | Handle(f: HandlerFunc)

  /** A gin RouterGroup as a value: its path segments and its own copy of the handler chain. */
  datatype RouterGroup = RouterGroup(path: seq<string>, handlers: seq<Middleware>)

  /** `g.Use(m)`: appends to this group's chain only. */
  function Use(g: RouterGroup, m: Middleware): RouterGroup
  {
    g.(handlers := g.handlers + [m])
  }

  /** `g.Group(p)`: a new group whose chain is a copy of the parent's chain at this moment. */
  function SubGroup(g: RouterGroup, relativePath: string): RouterGroup
  {
    RouterGroup(g.path + [relativePath], g.handlers)
  }

  /** A registered route: the router method, the path segments, and the chain it runs. */
  datatype Route = Route(httpMethod: string, path: seq<string>, urlTemplate: string, chain: seq<Middleware>)

  /** The router method each HttpMethod constant is registered under; other values have none. */
  function MethodName(m: HttpMethod): (r: Option<string>)
    ensures r.Some? <==> GET <= m <= DELETE
  {
    if m == GET then Some("GET")
    else if m == POST then Some("POST")
    else if m == PUT then Some("PUT")
    else if m == PATCH then Some("PATCH")
    else if m == DELETE then Some("DELETE")
    else None
  }

  /** The route a handler yields in a group with the given chain, if its method is one of the five. */
  function RouteOf(g: RouterGroup, h: HttpFunc): seq<Route>
  {
    match MethodName(h.httpMethod)
    case None => []
    case Some(n) => [Route(n, g.path, h.urlTemplate, g.handlers + [Handle(h.httpFunc)])]
  }

  /** The method switch of RegisterRoute: one route under the matching router method, none for other values. */
  method Dispatch(g: RouterGroup, h: HttpFunc) returns (added: seq<Route>)
    ensures added == RouteOf(g, h)
    ensures |added| <= 1
    ensures GET <= h.httpMethod <= DELETE <==> |added| == 1
    ensures forall r :: r in added ==> r.path == g.path && r.urlTemplate == h.urlTemplate && r.chain == g.handlers + [Handle(h.httpFunc)]
  {
    var chain := g.handlers + [Handle(h.httpFunc)];
    added := [];
    if h.httpMethod == GET {
      added := [Route("GET", g.path, h.urlTemplate, chain)];
    } else if h.httpMethod == POST {
      added := [Route("POST", g.path, h.urlTemplate, chain)];
    } else if h.httpMethod == PUT {
      added := [Route("PUT", g.path, h.urlTemplate, chain)];
    } else if h.httpMethod == PATCH {
      added := [Route("PATCH", g.path, h.urlTemplate, chain)];
    } else if h.httpMethod == DELETE {
      added := [Route("DELETE", g.path, h.urlTemplate, chain)];
    }
  }

  /** `r` is the route `h` registers in `g`: its method, the group's path, its template, and the chain ending in it. */
  predicate RegisteredFor(g: RouterGroup, h: HttpFunc, r: Route)
  {
    Some(r.httpMethod) == MethodName(h.httpMethod) && r.path == g.path && r.urlTemplate == h.urlTemplate
    && r.chain == g.handlers + [Handle(h.httpFunc)]
  }

  /** The routes a list of handlers yields in order. */
  function RoutesFor(g: RouterGroup, hs: seq<HttpFunc>): seq<Route>
  {
    if hs == [] then [] else RoutesFor(g, hs[..|hs| - 1]) + RouteOf(g, hs[|hs| - 1])
  }

  lemma RoutesForSnoc(g: RouterGroup, hs: seq<HttpFunc>, i: nat)
    requires i < |hs|
    ensures RoutesFor(g, hs[..i + 1]) == RoutesFor(g, hs[..i]) + RouteOf(g, hs[i])
  {
    assert hs[..i + 1][..i] == hs[..i];
  }

  /** The chain of the controller group: the engine's, then the token verifier twice when gated. */
  function ControllerChain(engine: seq<Middleware>, gated: bool): seq<Middleware>
  {
    engine + (if gated then [TokenVerify, TokenVerify] else [])
  }

  /** What all routes of one controller look like. */
  function ControllerRoutes(engine: seq<Middleware>, baseUrl: string, authEnabled: bool, cnt: ControllerInfo): seq<Route>
  {
    RoutesFor(RouterGroup([baseUrl, cnt.groupName], ControllerChain(engine, authEnabled && cnt.isAuthEnabled)), cnt.handlers)
  }

  function AllRoutes(engine: seq<Middleware>, baseUrl: string, authEnabled: bool, cs: seq<ControllerInfo>): seq<Route>
  {
    if cs == [] then []
    else AllRoutes(engine, baseUrl, authEnabled, cs[..|cs| - 1]) + ControllerRoutes(engine, baseUrl, authEnabled, cs[|cs| - 1])
  }

  lemma AllRoutesSnoc(engine: seq<Middleware>, baseUrl: string, authEnabled: bool, cs: seq<ControllerInfo>, i: nat)
    requires i < |cs|
    ensures AllRoutes(engine, baseUrl, authEnabled, cs[..i + 1]) ==
      AllRoutes(engine, baseUrl, authEnabled, cs[..i]) + ControllerRoutes(engine, baseUrl, authEnabled, cs[i])
  {
    assert cs[..i + 1][..i] == cs[..i];
  }

  /** The token-store and grant configuration EnableAuth installs. */
  datatype ManagerConfig = ManagerConfig(accessTokenExp: Duration, refreshTokenExp: Duration, isGenerateRefresh: bool)

  datatype ServerConfig = ServerConfig(
    tokenStore: IntrospectionTokenStore,
    authorizeCodeCfg: ManagerConfig,
    passwordCfg: ManagerConfig,
    allowGetAccessRequest: bool)

  /** go-oauth2's default for the authorization-code grant: 2 hours access, 3 days refresh, refresh on. */
  const DefaultAuthorizeCodeTokenCfg := ManagerConfig(2 * Hour, 24 * 3 * Hour, true)

  /** The password grant: 24 hours access, 24 * 30 * 12 hours (360 days) refresh, refresh on. */
  const PasswordTokenCfg := ManagerConfig(24 * Hour, 24 * 30 * 12 * Hour, true)

  class Router {
    const baseUrl: string
    /** The chain of the gin engine itself: gin.Default() installs Logger and Recovery. */
    const engineHandlers: seq<Middleware>
    var server: Option<ServerConfig>
    var authEnabled: bool
    var routes: seq<Route>

    constructor (baseUrl: string)
      ensures this.baseUrl == baseUrl && engineHandlers == [Logger, Recovery]
      ensures !authEnabled && server == None && routes == []
    {
      this.baseUrl := baseUrl;
      engineHandlers := [Logger, Recovery];
      server := None;
      authEnabled := false;
      routes := [];
    }

    /** EnableAuth: installs the introspection store and the grant configuration, and turns auth on. */
    method EnableAuth(introspectURL: string, clientId: string, clientSecret: string) returns (err: Outcome)
      modifies this
      ensures err == Pass && authEnabled && routes == old(routes)
      ensures server == Some(ServerConfig(NewIntrospectionTokenStore(introspectURL, clientId, clientSecret),
        DefaultAuthorizeCodeTokenCfg, PasswordTokenCfg, true))
    {
      var store := NewIntrospectionTokenStore(introspectURL, clientId, clientSecret);
      server := Some(ServerConfig(store, DefaultAuthorizeCodeTokenCfg, PasswordTokenCfg, true));
      authEnabled := true;
      err := Pass;
    }

    /**
     * RegisterRoute: builds the base group and the controller group, attaches the middleware, and
     * registers each handler under its method. The base group is returned for inspection: no route
     * is registered on it.
     */
    method RegisterRoute(cnt: ControllerInfo) returns (baseGroup: RouterGroup)
      modifies this
      ensures server == old(server) && authEnabled == old(authEnabled)
      ensures routes == old(routes) + ControllerRoutes(engineHandlers, baseUrl, authEnabled, cnt)
      ensures baseGroup == RouterGroup([baseUrl],
        engineHandlers + (if authEnabled && cnt.isAuthEnabled then [TokenVerify] else []) + [BearerCheck])
    {
      var engine, url, auth := engineHandlers, baseUrl, authEnabled;
      var gated := auth && cnt.isAuthEnabled;
      var baseRouter := RouterGroup([url], engine);
      if gated {
        baseRouter := Use(baseRouter, TokenVerify);
      }
      var controllerRouter := SubGroup(baseRouter, cnt.groupName);
      if gated {
        controllerRouter := Use(controllerRouter, TokenVerify);
      }
      baseRouter := Use(baseRouter, BearerCheck);
      assert controllerRouter == RouterGroup([url, cnt.groupName], ControllerChain(engine, gated));
      var hs := cnt.handlers;
      var registered: seq<Route> := [];
      for i := 0 to |hs|
        modifies {}
        invariant registered == RoutesFor(controllerRouter, hs[..i])
      {
        var added := Dispatch(controllerRouter, hs[i]);
        RoutesForSnoc(controllerRouter, hs, i);
        registered := registered + added;
      }
      assert hs[..|hs|] == hs;
      assert registered == ControllerRoutes(engine, url, auth, cnt);
      routes := routes + registered;
      baseGroup := baseRouter;
    }

    /** RegisterRoutes: each controller in order. */
    method RegisterRoutes(controllers: seq<ControllerInfo>)
      modifies this
      ensures server == old(server) && authEnabled == old(authEnabled)
      ensures routes == old(routes) + AllRoutes(engineHandlers, baseUrl, authEnabled, controllers)
    {
      var engine, url, auth := engineHandlers, baseUrl, authEnabled;
      for i := 0 to |controllers|
        invariant server == old(server) && authEnabled == auth
        invariant routes == old(routes) + AllRoutes(engine, url, auth, controllers[..i])
      {
        var _ := RegisterRoute(controllers[i]);
        AllRoutesSnoc(engine, url, auth, controllers, i);
      }
      assert controllers[..|controllers|] == controllers;
    }
  }

  /** NewRouteHandler: never fails, and starts with auth off. */
  method NewRouteHandler(baseUrl: string) returns (r: Router, err: Outcome)
    ensures fresh(r) && err == Pass
    ensures r.baseUrl == baseUrl && !r.authEnabled && r.server == None && r.routes == []
  {
    r := new Router(baseUrl);
    err := Pass;
  }

  // ---------------------------------------------------------------------------
  // Properties of route registration

  /**
   * Every route lies under the group's path and comes from one of the handlers: it carries that
   * handler's template and method, and runs exactly the group's chain followed by that handler.
   */
  lemma {:induction false} RoutesShape(g: RouterGroup, hs: seq<HttpFunc>)
    ensures forall r :: r in RoutesFor(g, hs) ==> exists i :: 0 <= i < |hs| && RegisteredFor(g, hs[i], r)
  {
    forall r | r in RoutesFor(g, hs) ensures exists i :: 0 <= i < |hs| && RegisteredFor(g, hs[i], r) {
      RouteEndsInHandle(g, hs, r);
    }
  }

  /**
   * The bearer middleware is Use'd on the base group after the controller group has copied the
   * base group's chain, so no registered route ever runs it.
   */
  lemma BearerNeverOnRoutes(engine: seq<Middleware>, baseUrl: string, authEnabled: bool, cnt: ControllerInfo)
    requires BearerCheck !in engine
    ensures forall r :: r in ControllerRoutes(engine, baseUrl, authEnabled, cnt) ==> BearerCheck !in r.chain
  {
    var g := RouterGroup([baseUrl, cnt.groupName], ControllerChain(engine, authEnabled && cnt.isAuthEnabled));
    forall r | r in RoutesFor(g, cnt.handlers) ensures BearerCheck !in r.chain {
      RouteEndsInHandle(g, cnt.handlers, r);
    }
  }

  /** A route's chain is the group's chain followed by the handler of the HttpFunc it was registered for. */
  lemma {:induction false} RouteEndsInHandle(g: RouterGroup, hs: seq<HttpFunc>, r: Route)
    requires r in RoutesFor(g, hs)
    ensures exists i :: 0 <= i < |hs| && RegisteredFor(g, hs[i], r)
  {
    var n := |hs| - 1;
    if r in RouteOf(g, hs[n]) {
      assert RegisteredFor(g, hs[n], r);
    } else {
      var init := hs[..n];
      RouteEndsInHandle(g, init, r);
      var i :| 0 <= i < |init| && RegisteredFor(g, init[i], r);
      assert init[i] == hs[i];
    }
  }

  /** A gated controller's routes run the token verifier twice; an ungated one's never. */
  lemma VerifierCount(engine: seq<Middleware>, baseUrl: string, authEnabled: bool, cnt: ControllerInfo)
    requires TokenVerify !in engine
    ensures forall r :: r in ControllerRoutes(engine, baseUrl, authEnabled, cnt) ==>
      multiset(r.chain)[TokenVerify] == if authEnabled && cnt.isAuthEnabled then 2 else 0
  {
    var g := RouterGroup([baseUrl, cnt.groupName], ControllerChain(engine, authEnabled && cnt.isAuthEnabled));
    forall r | r in RoutesFor(g, cnt.handlers)
      ensures multiset(r.chain)[TokenVerify] == if authEnabled && cnt.isAuthEnabled then 2 else 0
    {
      RouteEndsInHandle(g, cnt.handlers, r);
      assert multiset(engine)[TokenVerify] == 0;
    }
  }

  /** Each handler with one of the five methods is registered exactly once, in order, under its method. */
  lemma {:induction false} DispatchOnce(g: RouterGroup, hs: seq<HttpFunc>)
    requires forall i :: 0 <= i < |hs| ==> GET <= hs[i].httpMethod <= DELETE
    ensures |RoutesFor(g, hs)| == |hs|
    ensures forall i :: 0 <= i < |hs| ==>
      Some(RoutesFor(g, hs)[i].httpMethod) == MethodName(hs[i].httpMethod)
      && RoutesFor(g, hs)[i].urlTemplate == hs[i].urlTemplate
      && RoutesFor(g, hs)[i].chain == g.handlers + [Handle(hs[i].httpFunc)]
  {
    if hs != [] {
      DispatchOnce(g, hs[..|hs| - 1]);
    }
  }

  /** A handler whose method is none of the five constants is silently not registered. */
  lemma UnknownMethodDropped(g: RouterGroup, hs: seq<HttpFunc>, h: HttpFunc)
    requires !(GET <= h.httpMethod <= DELETE)
    ensures RoutesFor(g, hs + [h]) == RoutesFor(g, hs)
  {
    assert (hs + [h])[..|hs|] == hs;
  }

  // ---------------------------------------------------------------------------
  // The bearer middleware

  /** What a middleware does with the request: abort with a status and JSON body, or go on with new keys. */
  datatype Step = Aborted(status: int, body: map<string, string>) | Continued(keys: map<string, ContextValue>)

  /** authMiddleware, given the result of ValidationBearerToken (section 2.1 of RFC 6750). */
  function BearerMiddleware(validation: Result<TokenInfo>, keys: map<string, ContextValue>): (r: Step)
    ensures r.Aborted? <==> validation.Err?
    ensures r.Aborted? ==> r.status == 401 && r.body.Keys == {"error"}
    ensures r.Continued? ==> r.keys.Keys == keys.Keys + {"TokenInfo"}
  {
    match validation
    case Err(e) => Aborted(401, map["error" := ErrorText(e)])
    case Ok(ti) => Continued(keys["TokenInfo" := TokenValue(ti)])
  }

  /** A failed validation aborts with 401 and the error text; a success stores the token and continues. */
  lemma BearerDecision(validation: Result<TokenInfo>, keys: map<string, ContextValue>)
    ensures BearerMiddleware(validation, keys).Aborted? <==> validation.Err?
    ensures validation.Err? ==> BearerMiddleware(validation, keys) == Aborted(401, map["error" := ErrorText(validation.error)])
    ensures validation.Ok? ==>
      var k := BearerMiddleware(validation, keys).keys;
      GetTokenInfo(k, "TokenInfo") == Returned(Ok(validation.value))
      && forall x :: x in keys && x != "TokenInfo" ==> x in k && k[x] == keys[x]
  {
  }

  // ---------------------------------------------------------------------------
  // The refresh endpoint (section 6 of RFC 6749)

  datatype TokenGenerateRequest = TokenGenerateRequest(refresh: string, clientID: string, clientSecret: string)

  datatype JsonValue = JString(s: string) | JNumber(n: int)

  /** The reply of the handler, and the request it handed to the manager, if any. */
  datatype HandlerReply = HandlerReply(status: int, body: map<string, JsonValue>, managerCall: Option<TokenGenerateRequest>)

  /** `c.PostForm(key)`: the (first) value of the form field, or "" when it is absent. */
  function PostForm(form: map<string, string>, key: string): string
  {
    if key in form then form[key] else ""
  }

  /** The success body as the handler builds it: `expires_in` is the time.Duration, i.e. nanoseconds. */
  function RefreshResponseAsWritten(t: TokenInfo): (body: map<string, JsonValue>)
    ensures body.Keys == {"access_token", "refresh_token", "expires_in", "token_type"}
    ensures body["expires_in"] == JNumber(t.accessExpiresIn)
  {
    map["access_token" := JString(t.access), "refresh_token" := JString(t.refresh),
        "expires_in" := JNumber(t.accessExpiresIn), "token_type" := JString("Bearer")]
  }

  /** The success body with `expires_in` in whole seconds, as section 5.1 of RFC 6749 defines it. */
  function RefreshResponse(t: TokenInfo): (body: map<string, JsonValue>)
    ensures body.Keys == {"access_token", "refresh_token", "expires_in", "token_type"}
    ensures forall k :: k in body && k != "expires_in" ==> body[k] == RefreshResponseAsWritten(t)[k]
  {
    map["access_token" := JString(t.access), "refresh_token" := JString(t.refresh),
        "expires_in" := JNumber(WholeSeconds(t.accessExpiresIn)), "token_type" := JString("Bearer")]
  }

  /** The form check and the manager call of refreshTokenHandler; `respond` builds the success body. */
  function RefreshReply(form: map<string, string>, refreshAccessToken: TokenGenerateRequest -> Result<TokenInfo>,
                        respond: TokenInfo -> map<string, JsonValue>): HandlerReply
  {
    var refreshToken := PostForm(form, "refresh_token");
    var clientID := PostForm(form, "client_id");
    var clientSecret := PostForm(form, "client_secret");
    if refreshToken == "" || clientID == "" || clientSecret == "" then
      HandlerReply(400, map["error" := JString("Missing parameters")], None)
    else
      var tgr := TokenGenerateRequest(refreshToken, clientID, clientSecret);
      match refreshAccessToken(tgr)
      case Err(e) => HandlerReply(400, map["error" := JString(ErrorText(e))], Some(tgr))
      case Ok(token) => HandlerReply(200, respond(token), Some(tgr))
  }

  /** All three form fields are present and non-empty. */
  predicate HasRefreshParameters(form: map<string, string>)
  {
    PostForm(form, "refresh_token") != "" && PostForm(form, "client_id") != "" && PostForm(form, "client_secret") != ""
  }

  /** refreshTokenHandler as written, with the manager's RefreshAccessToken as an input. */
  function RefreshTokenHandler(form: map<string, string>, refreshAccessToken: TokenGenerateRequest -> Result<TokenInfo>): (r: HandlerReply)
    ensures r.status == 200 || r.status == 400
    ensures r.managerCall.Some? <==> HasRefreshParameters(form)
    ensures r.status == 200 ==>
      r.managerCall.Some? && refreshAccessToken(r.managerCall.value).Ok?
      && r.body == RefreshResponseAsWritten(refreshAccessToken(r.managerCall.value).value)
  {
    RefreshReply(form, refreshAccessToken, RefreshResponseAsWritten)
  }

  /** The handler as evidently intended: the same, with the success body in whole seconds. */
  function RefreshTokenHandlerIntended(form: map<string, string>, refreshAccessToken: TokenGenerateRequest -> Result<TokenInfo>): (r: HandlerReply)
    ensures r.status == 200 || r.status == 400
    ensures r.managerCall.Some? <==> HasRefreshParameters(form)
    ensures r.status == 200 ==>
      r.managerCall.Some? && refreshAccessToken(r.managerCall.value).Ok?
      && r.body == RefreshResponse(refreshAccessToken(r.managerCall.value).value)
  {
    RefreshReply(form, refreshAccessToken, RefreshResponse)
  }

  /** A missing or empty parameter gives 400 "Missing parameters" and the manager is not called. */
  lemma RefreshMissingParameters(form: map<string, string>, m: TokenGenerateRequest -> Result<TokenInfo>)
    requires !HasRefreshParameters(form)
    ensures RefreshTokenHandler(form, m) == HandlerReply(400, map["error" := JString("Missing parameters")], None)
    ensures RefreshTokenHandlerIntended(form, m) == RefreshTokenHandler(form, m)
  {
  }

  /**
   * With all three parameters, the manager gets exactly them; its error is a 400 carrying the
   * error text, and its token a 200 with the success body.
   */
  lemma RefreshCallsManager(form: map<string, string>, m: TokenGenerateRequest -> Result<TokenInfo>)
    requires HasRefreshParameters(form)
    ensures var tgr := TokenGenerateRequest(form["refresh_token"], form["client_id"], form["client_secret"]);
      var reply := RefreshTokenHandler(form, m);
      reply.managerCall == Some(tgr)
      && (m(tgr).Err? ==> reply.status == 400 && reply.body == map["error" := JString(ErrorText(m(tgr).error))])
      && (m(tgr).Ok? ==> reply.status == 200 && reply.body == RefreshResponseAsWritten(m(tgr).value))
      && (m(tgr).Ok? ==> RefreshTokenHandlerIntended(form, m).body == RefreshResponse(m(tgr).value))
  {
  }

  /** The two handlers differ only in the value of `expires_in` in a success body. */
  lemma HandlersDifferInExpiresInOnly(form: map<string, string>, m: TokenGenerateRequest -> Result<TokenInfo>)
    ensures var a, b := RefreshTokenHandler(form, m), RefreshTokenHandlerIntended(form, m);
      a.status == b.status && a.managerCall == b.managerCall && a.body.Keys == b.body.Keys
      && (forall k :: k in a.body && k != "expires_in" ==> a.body[k] == b.body[k])
      && (a.status == 400 ==> a == b)
  {
  }

  /** A success body has exactly the four keys, the token's strings, and the type "Bearer". */
  lemma RefreshResponseShape(t: TokenInfo)
    ensures RefreshResponse(t).Keys == {"access_token", "refresh_token", "expires_in", "token_type"}
    ensures RefreshResponse(t)["access_token"] == JString(t.access)
    ensures RefreshResponse(t)["refresh_token"] == JString(t.refresh)
    ensures RefreshResponse(t)["token_type"] == JString("Bearer")
    ensures RefreshResponse(t)["expires_in"].n * Second <= t.accessExpiresIn || t.accessExpiresIn < 0
    ensures t.accessExpiresIn >= 0 ==> t.accessExpiresIn < (RefreshResponse(t)["expires_in"].n + 1) * Second
  {
  }

  /** As written, a 24-hour token is announced with expires_in 86400000000000 instead of 86400. */
  lemma ExpiresInAsWrittenIsNanoseconds(t: TokenInfo)
    requires t.accessExpiresIn == 24 * Hour
    ensures RefreshResponseAsWritten(t)["expires_in"] == JNumber(86_400_000_000_000)
    ensures RefreshResponse(t)["expires_in"] == JNumber(86_400)
    ensures RefreshResponseAsWritten(t) != RefreshResponse(t)
  {
    assert RefreshResponseAsWritten(t)["expires_in"] != RefreshResponse(t)["expires_in"];
  }
}
