/** Route descriptions and the token-info lookup of controller/controller_type.go. */
module Controller {
  import opened Wrappers
  import opened Token

  /** `type HttpMethod int`: any int is a value of the type; the five constants are 0 to 4. */
  type HttpMethod = int

  const GET: HttpMethod := 0
  const POST: HttpMethod := 1
  const PUT: HttpMethod := 2
  const PATCH: HttpMethod := 3
  const DELETE: HttpMethod := 4

  /** A gin.HandlerFunc, known only by a name. */
  type HandlerFunc = nat

  /** HttpFunc: one route of a controller. */
  datatype HttpFunc = HttpFunc(httpMethod: HttpMethod, httpFunc: HandlerFunc, urlTemplate: string)

  /** The Controller interface, as the values its three methods return. */
  datatype ControllerInfo = ControllerInfo(groupName: string, handlers: seq<HttpFunc>, isAuthEnabled: bool)

  function NewHttpFunc(m: HttpMethod, urlTemplate: string, f: HandlerFunc): HttpFunc
  {
    HttpFunc(m, f, urlTemplate)
  }

  function GetHttpMethod(h: HttpFunc): HttpMethod { h.httpMethod }
  function GetHandlerFunc(h: HttpFunc): HandlerFunc { h.httpFunc }
  function GetUrlTemplate(h: HttpFunc): string { h.urlTemplate }

  /** The getters give back what NewHttpFunc was given. */
  lemma HttpFuncGetters(m: HttpMethod, u: string, f: HandlerFunc)
    ensures GetHttpMethod(NewHttpFunc(m, u, f)) == m
    ensures GetHandlerFunc(NewHttpFunc(m, u, f)) == f
    ensures GetUrlTemplate(NewHttpFunc(m, u, f)) == u
  {
  }

  /** The five methods are the distinct values 0 to 4. */
  lemma MethodValues()
    ensures [GET, POST, PUT, PATCH, DELETE] == [0, 1, 2, 3, 4]
  {
  }

  /** A value stored in a gin.Context: a token, or something of another dynamic type (nil included). */
  datatype ContextValue = TokenValue(token: TokenInfo) | OtherValue(typeName: string)

  /**
   * GetTokenInfo, reading the context's key map under `tokenKey` (the value of constants.TokenKey):
   * an error when the key is absent, a panic of the unchecked type assertion when the value is not a token.
   */
  function GetTokenInfo(keys: map<string, ContextValue>, tokenKey: string): (r: Completion<Result<TokenInfo>>)
    ensures tokenKey !in keys <==> r == Returned(Err(Message("no token info found")))
    ensures tokenKey in keys && keys[tokenKey].TokenValue? ==> r == Returned(Ok(keys[tokenKey].token))
    ensures r.Returned? && r.value.Ok? ==> tokenKey in keys && keys[tokenKey] == TokenValue(r.value.value)
    ensures tokenKey in keys && keys[tokenKey].OtherValue? <==> r.Panicked?
  {
    if tokenKey !in keys then Returned(Err(Message("no token info found")))
    else match keys[tokenKey]
      case TokenValue(t) => Returned(Ok(t))
      case OtherValue(n) => Panicked("interface conversion: interface {} is " + n + ", not oauth2.TokenInfo")
  }
}
