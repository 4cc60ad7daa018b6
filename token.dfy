/** The token record of the authorisation server (auth/token.go). */
module Token {
  import opened Clock

  /** `oauth2.CodeChallengeMethod`, a named string type. */
  datatype CodeChallengeMethod = CodeChallengeMethod(name: string)

  /**
   * An `oauth2.TokenInfo` as the go-oauth2 `models.Token` carries it: the fifteen values its
   * getters return.
   */
  datatype TokenInfo = TokenInfo(
    clientID: string,
    userID: string,
    redirectURI: string,
    scope: string,
    code: string,
    codeChallenge: string,
    codeChallengeMethod: CodeChallengeMethod,
    codeCreateAt: Instant,
    codeExpiresIn: Duration,
    access: string,
    accessCreateAt: Instant,
    accessExpiresIn: Duration,
    refresh: string,
    refreshCreateAt: Instant,
    refreshExpiresIn: Duration)

  /** The fifteen columns of one row of the `tokens` table, i.e. a DbToken's fields at one moment. */
  datatype TokenRecord = TokenRecord(
    clientID: string,
    userID: string,
    redirectURI: string,
    scope: string,
    code: string,
    codeChallenge: string,
    codeChallengeMethod: string,
    codeCreateAt: Instant,
    codeExpiresIn: Duration,
    access: string,
    accessCreateAt: Instant,
    accessExpiresIn: Duration,
    refresh: string,
    refreshCreateAt: Instant,
    refreshExpiresIn: Duration)

  /** The name gorm uses for the table of DbToken rows. */
  function TableName(): (name: string)
    ensures name == "tokens"
  {
    "tokens"
  }

  /** `DbToken{}`: every string empty, every time the zero time, every duration zero. */
  const ZeroRecord := TokenRecord("", "", "", "", "", "", "", ZeroInstant, 0, "", ZeroInstant, 0, "", ZeroInstant, 0)

  /** The DbToken built by NewDBTokenFromTokenInfo, as a value. */
  function FromInfo(info: TokenInfo): TokenRecord
  {
    TokenRecord(info.clientID, info.userID, info.redirectURI, info.scope, info.code,
      info.codeChallenge, info.codeChallengeMethod.name, info.codeCreateAt, info.codeExpiresIn,
      info.access, info.accessCreateAt, info.accessExpiresIn,
      info.refresh, info.refreshCreateAt, info.refreshExpiresIn)
  }

  /** What the getters of a DbToken holding this record return, viewed as a TokenInfo. */
  function AsInfo(r: TokenRecord): TokenInfo
  {
    TokenInfo(r.clientID, r.userID, r.redirectURI, r.scope, r.code,
      r.codeChallenge, CodeChallengeMethod(r.codeChallengeMethod), r.codeCreateAt, r.codeExpiresIn,
      r.access, r.accessCreateAt, r.accessExpiresIn,
      r.refresh, r.refreshCreateAt, r.refreshExpiresIn)
  }

  /** Copying a token into a DbToken loses nothing: its getters give back the original values. */
  lemma InfoRoundTrip(info: TokenInfo)
    ensures AsInfo(FromInfo(info)) == info
  {
  }

  /** A DbToken copied through NewDBTokenFromTokenInfo has the same getters as the original. */
  lemma RecordRoundTrip(r: TokenRecord)
    ensures FromInfo(AsInfo(r)) == r
  {
  }

  /** NewDBTokenFromTokenInfo is injective: distinct tokens give distinct rows. */
  lemma FromInfoInjective(a: TokenInfo, b: TokenInfo)
    ensures FromInfo(a) == FromInfo(b) ==> a == b
  {
    InfoRoundTrip(a);
    InfoRoundTrip(b);
  }

  /** DbToken: a mutable token record with a getter and a setter per field. */
  class DbToken {
    var clientID: string
    var userID: string
    var redirectURI: string
    var scope: string
    var code: string
    var codeChallenge: string
    var codeChallengeMethod: string
    var codeCreateAt: Instant
    var codeExpiresIn: Duration
    var access: string
    var accessCreateAt: Instant
    var accessExpiresIn: Duration
    var refresh: string
    var refreshCreateAt: Instant
    var refreshExpiresIn: Duration

    /** The record's fields as one value. */
    function Row(): TokenRecord
      reads this
    {
      TokenRecord(clientID, userID, redirectURI, scope, code, codeChallenge, codeChallengeMethod,
        codeCreateAt, codeExpiresIn, access, accessCreateAt, accessExpiresIn,
        refresh, refreshCreateAt, refreshExpiresIn)
    }

    /** NewDBToken: all fields empty or zero. */
    constructor ()
      ensures Row() == ZeroRecord
    {
      clientID, userID, redirectURI, scope, code, codeChallenge, codeChallengeMethod := "", "", "", "", "", "", "";
      codeCreateAt, codeExpiresIn := ZeroInstant, 0;
      access, accessCreateAt, accessExpiresIn := "", ZeroInstant, 0;
      refresh, refreshCreateAt, refreshExpiresIn := "", ZeroInstant, 0;
    }

    /** NewDBTokenFromTokenInfo: every getter of the copy answers as the original's does. */
    constructor FromTokenInfo(info: TokenInfo)
      ensures Row() == FromInfo(info)
      ensures AsInfo(Row()) == info
    {
      clientID, userID, redirectURI, scope := info.clientID, info.userID, info.redirectURI, info.scope;
      code, codeChallenge, codeChallengeMethod := info.code, info.codeChallenge, info.codeChallengeMethod.name;
      codeCreateAt, codeExpiresIn := info.codeCreateAt, info.codeExpiresIn;
      access, accessCreateAt, accessExpiresIn := info.access, info.accessCreateAt, info.accessExpiresIn;
      refresh, refreshCreateAt, refreshExpiresIn := info.refresh, info.refreshCreateAt, info.refreshExpiresIn;
      new;
      InfoRoundTrip(info);
    }

    /** The record gorm fills in from a selected row. */
    constructor FromRecord(r: TokenRecord)
      ensures Row() == r
    {
      clientID, userID, redirectURI, scope := r.clientID, r.userID, r.redirectURI, r.scope;
      code, codeChallenge, codeChallengeMethod := r.code, r.codeChallenge, r.codeChallengeMethod;
      codeCreateAt, codeExpiresIn := r.codeCreateAt, r.codeExpiresIn;
      access, accessCreateAt, accessExpiresIn := r.access, r.accessCreateAt, r.accessExpiresIn;
      refresh, refreshCreateAt, refreshExpiresIn := r.refresh, r.refreshCreateAt, r.refreshExpiresIn;
    }

    /** DbToken.New: a fresh, empty record, unrelated to this one. */
    method New() returns (t: DbToken)
      ensures fresh(t) && t.Row() == ZeroRecord
    {
      t := new DbToken();
    }

    function GetClientID(): string reads this { clientID }
    function GetUserID(): string reads this { userID }
    function GetRedirectURI(): string reads this { redirectURI }
    function GetScope(): string reads this { scope }
    function GetCode(): string reads this { code }
    function GetCodeChallenge(): string reads this { codeChallenge }
    function GetCodeChallengeMethod(): CodeChallengeMethod reads this { CodeChallengeMethod(codeChallengeMethod) }
    function GetCodeCreateAt(): Instant reads this { codeCreateAt }
    function GetCodeExpiresIn(): Duration reads this { codeExpiresIn }
    function GetAccess(): string reads this { access }
    function GetAccessCreateAt(): Instant reads this { accessCreateAt }
    function GetAccessExpiresIn(): Duration reads this { accessExpiresIn }
    function GetRefresh(): string reads this { refresh }
    function GetRefreshCreateAt(): Instant reads this { refreshCreateAt }
    function GetRefreshExpiresIn(): Duration reads this { refreshExpiresIn }

    /** The getters together are the record read through AsInfo. */
    lemma GettersAreAsInfo()
      ensures AsInfo(Row()) == TokenInfo(GetClientID(), GetUserID(), GetRedirectURI(), GetScope(), GetCode(),
        GetCodeChallenge(), GetCodeChallengeMethod(), GetCodeCreateAt(), GetCodeExpiresIn(),
        GetAccess(), GetAccessCreateAt(), GetAccessExpiresIn(),
        GetRefresh(), GetRefreshCreateAt(), GetRefreshExpiresIn())
    {
    }

    method SetClientID(v: string)
      modifies this
      ensures GetClientID() == v && Row() == old(Row()).(clientID := v)
    {
      clientID := v;
    }

    method SetUserID(v: string)
      modifies this
      ensures GetUserID() == v && Row() == old(Row()).(userID := v)
    {
      userID := v;
    }

    method SetRedirectURI(v: string)
      modifies this
      ensures GetRedirectURI() == v && Row() == old(Row()).(redirectURI := v)
    {
      redirectURI := v;
    }

    method SetScope(v: string)
      modifies this
      ensures GetScope() == v && Row() == old(Row()).(scope := v)
    {
      scope := v;
    }

    method SetCode(v: string)
      modifies this
      ensures GetCode() == v && Row() == old(Row()).(code := v)
    {
      code := v;
    }

    method SetCodeChallenge(v: string)
      modifies this
      ensures GetCodeChallenge() == v && Row() == old(Row()).(codeChallenge := v)
    {
      codeChallenge := v;
    }

    /** The method is stored as its string and converted back by the getter. */
    method SetCodeChallengeMethod(v: CodeChallengeMethod)
      modifies this
      ensures GetCodeChallengeMethod() == v && Row() == old(Row()).(codeChallengeMethod := v.name)
    {
      codeChallengeMethod := v.name;
    }

    method SetCodeCreateAt(v: Instant)
      modifies this
      ensures GetCodeCreateAt() == v && Row() == old(Row()).(codeCreateAt := v)
    {
      codeCreateAt := v;
    }

    method SetCodeExpiresIn(v: Duration)
      modifies this
      ensures GetCodeExpiresIn() == v && Row() == old(Row()).(codeExpiresIn := v)
    {
      codeExpiresIn := v;
    }

    method SetAccess(v: string)
      modifies this
      ensures GetAccess() == v && Row() == old(Row()).(access := v)
    {
      access := v;
    }

    method SetAccessCreateAt(v: Instant)
      modifies this
      ensures GetAccessCreateAt() == v && Row() == old(Row()).(accessCreateAt := v)
    {
      accessCreateAt := v;
    }

    method SetAccessExpiresIn(v: Duration)
      modifies this
      ensures GetAccessExpiresIn() == v && Row() == old(Row()).(accessExpiresIn := v)
    {
      accessExpiresIn := v;
    }

    method SetRefresh(v: string)
      modifies this
      ensures GetRefresh() == v && Row() == old(Row()).(refresh := v)
    {
      refresh := v;
    }

    method SetRefreshCreateAt(v: Instant)
      modifies this
      ensures GetRefreshCreateAt() == v && Row() == old(Row()).(refreshCreateAt := v)
    {
      refreshCreateAt := v;
    }

    method SetRefreshExpiresIn(v: Duration)
      modifies this
      ensures GetRefreshExpiresIn() == v && Row() == old(Row()).(refreshExpiresIn := v)
    {
      refreshExpiresIn := v;
    }
  }
}
