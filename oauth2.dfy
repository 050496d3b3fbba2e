/**
 * The OAuth2 authorization-code broker of NBacklog (`OAuth2Broker`): freshness tests, the
 * authorization URI (section 4.1.1 of RFC 6749), the two token requests, the credential cache
 * file, and the two entry points `AuthorizeAsync` and `UpdateCredentialsAsync`.
 *
 * The clock, the file system, the browser, the redirect listener and the token endpoint are
 * inputs: `now`/`issuedAt` are the two readings of `DateTime.Now` in whole seconds, the file
 * system is a map from path to file content, the listener's result is the captured `code`, and
 * the endpoint's reply is a `QueryTokenResult`.
 */
module OAuth2 {
  import opened Wrappers
  import opened Exceptions
  import opened Strings

  datatype OAuth2App = OAuth2App(
    clientId: string,
    clientSecret: string,
    redirectUri: string,
    credentialsCachePath: string)

  datatype OAuth2EndPoint = OAuth2EndPoint(
    baseUri: string,
    authResource: string,
    queryTokenResource: string)

  /** A credential snapshot; `expires` is an absolute time on the broker's clock. */
  datatype OAuth2Credentials = OAuth2Credentials(
    accessToken: Option<string>,
    refreshToken: Option<string>,
    expires: int)

  /**
   * The token endpoint's JSON reply as deserialised. A field the reply lacks keeps the default
   * of its C# type (`null` for the strings, 0 for `expires_in`); nothing checks the reply.
   */
  datatype QueryTokenResult = QueryTokenResult(
    accessToken: Option<string>,
    tokenType: Option<string>,
    expiresIn: int,
    refreshToken: Option<string>)

  /** The form fields of the token requests; `Wire()` is the name the source passes. */
  datatype FormField = GrantType | Code | ClientId | ClientSecret | RefreshToken
  {
    function Wire(): string {
      match this
      case GrantType => "grant_type"
      case Code => "code"
      case ClientId => "client_id"
      case ClientSecret => "client_secret"
      case RefreshToken => "refresh_token"
    }
  }

  /** One `AddParameter(name, value)` on a token request; the value may be `null`. */
  datatype FormParam = FormParam(name: FormField, value: Option<string>)

  /** A POST to the token endpoint: the REST client's base URL, the resource, the form body. */
  datatype TokenRequest = TokenRequest(clientBase: string, resource: string, parameters: seq<FormParam>)

  /**
   * What a file at the cache path holds: a serialised snapshot, nothing (or the JSON `null`),
   * which deserialises to `null`, or anything else: text that is not JSON, or JSON that is not a
   * credentials object.
   */
  datatype CacheFile = Snapshot(credentials: OAuth2Credentials) | Empty | Malformed

  type FileSystem = map<string, CacheFile>

  /** Everything one broker call does that the caller or the world can observe. */
  datatype BrokerOutcome = BrokerOutcome(
    result: Result<OAuth2Credentials, Exception>,
    /** The file system afterwards. */
    files: FileSystem,
    /** The prefix the redirect listener was started on, if it was started. */
    listenedOn: Option<string>,
    /** The URI handed to the system browser, if any. */
    browsed: Option<string>,
    /** The request sent to the token endpoint, if any. */
    tokenRequest: Option<TokenRequest>)

  // ----- Freshness -----------------------------------------------------------------------------

  /** `AuthorizeAsync`'s test: the interactive flow is needed. */
  predicate NeedsAuthorization(c: Option<OAuth2Credentials>, now: int) {
    c.None? || c.value.accessToken.None? || c.value.expires < now
  }

  /** `UpdateCredentialsAsync`'s test: the credentials are returned as they are. */
  predicate IsStillValid(c: Option<OAuth2Credentials>, now: int) {
    c.Some? && c.value.accessToken.Some? && now < c.value.expires
  }

  /**
   * The two tests are complementary except at one instant: credentials that expire exactly `now`
   * are kept by `AuthorizeAsync` and replaced by `UpdateCredentialsAsync`.
   */
  lemma FreshnessTestsDisagreeOnlyAtExpiry(c: Option<OAuth2Credentials>, now: int)
    ensures NeedsAuthorization(c, now) == IsStillValid(c, now)
        <==> c.Some? && c.value.accessToken.Some? && c.value.expires == now
    ensures NeedsAuthorization(c, now) == IsStillValid(c, now)
        ==> !NeedsAuthorization(c, now) && !IsStillValid(c, now)
  {
  }

  // ----- Token exchange ------------------------------------------------------------------------

  /** The credentials built from a token reply received at `now`: expiry is `now + expires_in`. */
  function CredentialsFromToken(result: QueryTokenResult, now: int): (c: OAuth2Credentials)
    ensures c.accessToken == result.accessToken && c.refreshToken == result.refreshToken
    ensures c.expires - now == result.expiresIn
  {
    OAuth2Credentials(result.accessToken, result.refreshToken, now + result.expiresIn)
  }

  /**
   * How long freshly built credentials pass each test: `AuthorizeAsync` keeps them up to and
   * including their expiry, `UpdateCredentialsAsync` strictly before it, and neither without an
   * access token.
   */
  lemma FreshnessOfNewCredentials(result: QueryTokenResult, issuedAt: int, later: int)
    ensures var c := Some(CredentialsFromToken(result, issuedAt));
      && (IsStillValid(c, later) <==> result.accessToken.Some? && later - issuedAt < result.expiresIn)
      && (!NeedsAuthorization(c, later) <==> result.accessToken.Some? && later - issuedAt <= result.expiresIn)
  {
  }

  /** With a positive lifetime, new credentials pass both tests at the instant they are built. */
  lemma FreshOnArrival(result: QueryTokenResult, issuedAt: int)
    requires result.accessToken.Some? && result.expiresIn > 0
    ensures !NeedsAuthorization(Some(CredentialsFromToken(result, issuedAt)), issuedAt)
    ensures IsStillValid(Some(CredentialsFromToken(result, issuedAt)), issuedAt)
  {
    FreshnessOfNewCredentials(result, issuedAt, issuedAt);
  }

  /** `BaseUri.TrimEnd('/') + '/'`, the base of the REST client both token requests use. */
  function ClientBase(endPoint: OAuth2EndPoint): (r: string)
    ensures |r| > 0 && r[|r| - 1] == '/'
    ensures |r| == 1 || r[|r| - 2] != '/'
    ensures r[..|r| - 1] <= endPoint.baseUri
    ensures forall i :: |r| - 1 <= i < |endPoint.baseUri| ==> endPoint.baseUri[i] == '/'
  {
    TrimEnd(endPoint.baseUri, '/') + "/"
  }

  /** The first parameter named `name`, as `Some(value)`, or `None` if there is none. */
  function Lookup(ps: seq<FormParam>, name: FormField): (r: Option<Option<string>>)
    ensures r.None? <==> forall i :: 0 <= i < |ps| ==> ps[i].name != name
    ensures r.Some? ==> exists i :: 0 <= i < |ps| && ps[i] == FormParam(name, r.value)
  {
    if ps == [] then None
    else if ps[0].name == name then Some(ps[0].value)
    else
      var r := Lookup(ps[1..], name);
      assert forall i :: 1 <= i < |ps| ==> ps[i] == ps[1..][i - 1];
      r
  }

  /** A parameter with no earlier namesake is the one Lookup finds. */
  lemma {:induction false} LookupAt(ps: seq<FormParam>, name: FormField, k: nat)
    requires k < |ps| && ps[k].name == name
    requires forall i :: 0 <= i < k ==> ps[i].name != name
    ensures Lookup(ps, name) == Some(ps[k].value)
  {
    if k > 0 {
      LookupAt(ps[1..], name, k - 1);
    }
  }

  /** An access token request as section 4.1.3 of RFC 6749 defines it. */
  predicate IsAuthorizationCodeGrant(ps: seq<FormParam>) {
    && Lookup(ps, GrantType) == Some(Some("authorization_code"))
    && Lookup(ps, Code).Some? && Lookup(ps, Code).value.Some?
    && Lookup(ps, ClientId).Some?
  }

  /** A refresh request as section 6 of RFC 6749 defines it. */
  predicate IsRefreshTokenGrant(ps: seq<FormParam>) {
    && Lookup(ps, GrantType) == Some(Some("refresh_token"))
    && Lookup(ps, RefreshToken).Some? && Lookup(ps, RefreshToken).value.Some?
  }

  /** The form body of the code exchange, in the order the parameters are added. */
  function CodeExchangeParameters(code: Option<string>, app: OAuth2App): (ps: seq<FormParam>)
    ensures |ps| == 4
    ensures [ps[0].name, ps[1].name, ps[2].name, ps[3].name] == [GrantType, Code, ClientId, ClientSecret]
    ensures ps[0].value == Some("authorization_code") && ps[1].value == code
    ensures ps[2].value == Some(app.clientId) && ps[3].value == Some(app.clientSecret)
  {
    [ FormParam(GrantType, Some("authorization_code")),
      FormParam(Code, code),
      FormParam(ClientId, Some(app.clientId)),
      FormParam(ClientSecret, Some(app.clientSecret)) ]
  }

  /** The form body of the refresh request, in the order the parameters are added. */
  function RefreshParameters(refreshToken: Option<string>, app: OAuth2App): (ps: seq<FormParam>)
    ensures |ps| == 4
    ensures [ps[0].name, ps[1].name, ps[2].name, ps[3].name] == [GrantType, ClientId, ClientSecret, RefreshToken]
    ensures ps[0].value == Some("authorization_code") && ps[1].value == Some(app.clientId)
    ensures ps[2].value == Some(app.clientSecret) && ps[3].value == refreshToken
  {
    [ FormParam(GrantType, Some("authorization_code")),
      FormParam(ClientId, Some(app.clientId)),
      FormParam(ClientSecret, Some(app.clientSecret)),
      FormParam(RefreshToken, refreshToken) ]
  }

  /**
   * The code exchange is a well-formed authorization-code grant exactly when the listener captured
   * a code; it carries the client's credentials and never a refresh token.
   */
  lemma CodeExchangeConforms(code: Option<string>, app: OAuth2App)
    ensures IsAuthorizationCodeGrant(CodeExchangeParameters(code, app)) <==> code.Some?
    ensures Lookup(CodeExchangeParameters(code, app), GrantType) == Some(Some("authorization_code"))
    ensures Lookup(CodeExchangeParameters(code, app), Code) == Some(code)
    ensures Lookup(CodeExchangeParameters(code, app), ClientId) == Some(Some(app.clientId))
    ensures Lookup(CodeExchangeParameters(code, app), ClientSecret) == Some(Some(app.clientSecret))
    ensures Lookup(CodeExchangeParameters(code, app), RefreshToken).None?
  {
    var ps := CodeExchangeParameters(code, app);
    LookupAt(ps, GrantType, 0);
    LookupAt(ps, Code, 1);
    LookupAt(ps, ClientId, 2);
    LookupAt(ps, ClientSecret, 3);
  }

  /**
   * The refresh request sends its refresh token under grant type `authorization_code` and no
   * code, so it is neither a refresh grant (section 6 of RFC 6749) nor a code grant.
   */
  lemma RefreshRequestConformsToNoGrant(refreshToken: Option<string>, app: OAuth2App)
    ensures Lookup(RefreshParameters(refreshToken, app), RefreshToken) == Some(refreshToken)
    ensures Lookup(RefreshParameters(refreshToken, app), GrantType) == Some(Some("authorization_code"))
    ensures Lookup(RefreshParameters(refreshToken, app), ClientId) == Some(Some(app.clientId))
    ensures Lookup(RefreshParameters(refreshToken, app), ClientSecret) == Some(Some(app.clientSecret))
    ensures !IsRefreshTokenGrant(RefreshParameters(refreshToken, app))
    ensures !IsAuthorizationCodeGrant(RefreshParameters(refreshToken, app))
  {
    var ps := RefreshParameters(refreshToken, app);
    LookupAt(ps, GrantType, 0);
    LookupAt(ps, ClientId, 1);
    LookupAt(ps, ClientSecret, 2);
    LookupAt(ps, RefreshToken, 3);
  }

  /**
   * The code exchange as `GetCredentials` sends it: a POST of `CodeExchangeParameters` to
   * `QueryTokenResource` on the client based at `ClientBase`.
   */
  function CodeExchangeRequest(code: Option<string>, app: OAuth2App, endPoint: OAuth2EndPoint): (r: TokenRequest)
    ensures r.resource == endPoint.queryTokenResource
    ensures r.clientBase == ClientBase(endPoint)
    ensures Lookup(r.parameters, GrantType) == Some(Some("authorization_code"))
    ensures Lookup(r.parameters, Code) == Some(code) && Lookup(r.parameters, RefreshToken).None?
  {
    CodeExchangeConforms(code, app);
    TokenRequest(ClientBase(endPoint), endPoint.queryTokenResource, CodeExchangeParameters(code, app))
  }

  /**
   * The refresh as `UpdateCredentialsAsync` sends it: a POST of `RefreshParameters` to
   * `QueryTokenResource` on the client based at `ClientBase`.
   */
  function RefreshRequest(refreshToken: Option<string>, app: OAuth2App, endPoint: OAuth2EndPoint): (r: TokenRequest)
    ensures r.resource == endPoint.queryTokenResource
    ensures r.clientBase == ClientBase(endPoint)
    ensures Lookup(r.parameters, RefreshToken) == Some(refreshToken)
    ensures !IsRefreshTokenGrant(r.parameters)
  {
    RefreshRequestConformsToNoGrant(refreshToken, app);
    TokenRequest(ClientBase(endPoint), endPoint.queryTokenResource, RefreshParameters(refreshToken, app))
  }

  // ----- Authorization URI ---------------------------------------------------------------------

  const ResponseTypeQuery := "?response_type=code&client_id="

  /**
   * The consent page's address: `BaseUri` without its trailing slashes, one slash, `AuthResource`
   * without its leading slashes, then the query of section 4.1.1 of RFC 6749, which asks for a
   * code for this client.
   */
  function AuthUri(app: OAuth2App, endPoint: OAuth2EndPoint): (uri: string)
    ensures var query := ResponseTypeQuery + app.clientId;
      |query| < |uri| && uri[|uri| - |query|..] == query
  {
    var base := TrimEnd(endPoint.baseUri, '/');
    var resource := TrimStart(endPoint.authResource, '/');
    var query := ResponseTypeQuery + app.clientId;
    var uri := base + "/" + resource + query;
    assert uri[|uri| - |query|..] == query;
    uri
  }

  /**
   * Before the joining slash is `BaseUri` up to its trailing slashes, and the slash is the only
   * one at the join.
   */
  lemma AuthUriBase(app: OAuth2App, endPoint: OAuth2EndPoint)
    ensures var uri, base := AuthUri(app, endPoint), endPoint.baseUri;
      var k := |TrimEnd(base, '/')|;
      && k < |uri| && uri[..k] == base[..k] && (forall i :: k <= i < |base| ==> base[i] == '/')
      && uri[k] == '/' && (k == 0 || uri[k - 1] != '/') && uri[k + 1] != '/'
  {
    var base := TrimEnd(endPoint.baseUri, '/');
    var resource := TrimStart(endPoint.authResource, '/');
    var query := ResponseTypeQuery + app.clientId;
    var uri := base + "/" + resource + query;
    assert uri[..|base|] == base;
    assert uri[|base| + 1] == (resource + query)[0];
  }

  /** Between the joining slash and the query is `AuthResource` after its leading slashes. */
  lemma AuthUriResource(app: OAuth2App, endPoint: OAuth2EndPoint)
    ensures var uri, resource := AuthUri(app, endPoint), endPoint.authResource;
      var k := |TrimEnd(endPoint.baseUri, '/')|;
      var m := |uri| - |ResponseTypeQuery + app.clientId|;
      && k < m && m - k - 1 <= |resource|
      && uri[k + 1..m] == resource[|resource| - (m - k - 1)..]
      && (forall i :: 0 <= i < |resource| - (m - k - 1) ==> resource[i] == '/')
  {
    var base := TrimEnd(endPoint.baseUri, '/');
    var resource := TrimStart(endPoint.authResource, '/');
    var query := ResponseTypeQuery + app.clientId;
    var uri := base + "/" + resource + query;
    assert uri[|base| + 1..|uri| - |query|] == resource;
  }

  /** Extra slashes around the join do not change the authorization URI. */
  lemma AuthUriIgnoresExtraSlashes(app: OAuth2App, endPoint: OAuth2EndPoint)
    ensures AuthUri(app, endPoint.(baseUri := endPoint.baseUri + "/")) == AuthUri(app, endPoint)
    ensures AuthUri(app, endPoint.(authResource := "/" + endPoint.authResource)) == AuthUri(app, endPoint)
  {
    TrimEndAbsorbs(endPoint.baseUri, '/');
    TrimStartAbsorbs(endPoint.authResource, '/');
  }

  // ----- Credential cache ----------------------------------------------------------------------

  /**
   * `LoadCredentials`: no file, or an empty one, is no credentials; any other content that is not
   * a credentials snapshot throws.
   */
  function LoadCredentials(files: FileSystem, app: OAuth2App): (r: Result<Option<OAuth2Credentials>, Exception>)
    ensures r == Success(None) <==> app.credentialsCachePath !in files || files[app.credentialsCachePath].Empty?
    ensures r.Failure? <==> app.credentialsCachePath in files && files[app.credentialsCachePath].Malformed?
    ensures r.Failure? ==> r.error == JsonDeserialization
    ensures r.Success? && r.value.Some? ==> files[app.credentialsCachePath] == Snapshot(r.value.value)
  {
    var path := app.credentialsCachePath;
    if path !in files then Success(None)
    else match files[path]
      case Snapshot(c) => Success(Some(c))
      case Empty => Success(None)
      case Malformed => Failure(JsonDeserialization)
  }

  /** `SaveCredentials`: the file at the cache path is overwritten; no other file changes. */
  function SaveCredentials(files: FileSystem, credentials: OAuth2Credentials, app: OAuth2App): (files': FileSystem)
    ensures files'.Keys == files.Keys + {app.credentialsCachePath}
    ensures files'[app.credentialsCachePath] == Snapshot(credentials)
    ensures forall p :: p in files && p != app.credentialsCachePath ==> files'[p] == files[p]
  {
    files[app.credentialsCachePath := Snapshot(credentials)]
  }

  /** Load after Save on the same path gives back what was saved; other paths are unaffected. */
  lemma SaveThenLoad(files: FileSystem, credentials: OAuth2Credentials, app: OAuth2App, other: OAuth2App)
    ensures LoadCredentials(SaveCredentials(files, credentials, app), app) == Success(Some(credentials))
    ensures other.credentialsCachePath != app.credentialsCachePath ==>
      LoadCredentials(SaveCredentials(files, credentials, app), other) == LoadCredentials(files, other)
  {
  }

  // ----- The broker ----------------------------------------------------------------------------

  /**
   * `AuthorizeAsync`: load the cached credentials and return them if `NeedsAuthorization` says no;
   * otherwise start the listener, open the consent page, exchange the captured code, save the new
   * credentials and return them. The cached refresh token is never used.
   */
  method AuthorizeAsync(
    files: FileSystem, app: OAuth2App, endPoint: OAuth2EndPoint,
    now: int, code: Option<string>, response: QueryTokenResult, issuedAt: int)
    returns (out: BrokerOutcome)
    ensures LoadCredentials(files, app).Failure? ==>
      out == BrokerOutcome(Failure(JsonDeserialization), files, None, None, None)
    ensures LoadCredentials(files, app).Success? ==>
      var loaded := LoadCredentials(files, app).value;
      && (out.browsed.Some? <==> NeedsAuthorization(loaded, now))
      && (!NeedsAuthorization(loaded, now) ==>
            out == BrokerOutcome(Success(loaded.value), files, None, None, None))
      && (NeedsAuthorization(loaded, now) ==>
            && out.listenedOn == Some(app.redirectUri)
            && out.browsed == Some(AuthUri(app, endPoint))
            && out.tokenRequest == Some(CodeExchangeRequest(code, app, endPoint))
            && out.result == Success(CredentialsFromToken(response, issuedAt))
            && out.files == SaveCredentials(files, out.result.value, app))
    ensures out.result.Success? ==> LoadCredentials(out.files, app) == Success(Some(out.result.value))
    ensures out.tokenRequest.Some? ==> Lookup(out.tokenRequest.value.parameters, RefreshToken).None?
  {
    var loaded := LoadCredentials(files, app);
    if loaded.Failure? {
      return BrokerOutcome(Failure(loaded.error), files, None, None, None);
    }
    var credentials := loaded.value;
    var listenedOn, browsed, request := None, None, None;
    var files' := files;
    if NeedsAuthorization(credentials, now) {
      listenedOn := Some(app.redirectUri);
      browsed := Some(AuthUri(app, endPoint));
      request := Some(CodeExchangeRequest(code, app, endPoint));
      CodeExchangeConforms(code, app);
      credentials := Some(CredentialsFromToken(response, issuedAt));
      files' := SaveCredentials(files', credentials.value, app);
    }
    out := BrokerOutcome(Success(credentials.value), files', listenedOn, browsed, request);
  }

  /**
   * `UpdateCredentialsAsync`: return the credentials if `IsStillValid`; otherwise send a refresh
   * request with their refresh token, save the credentials built from the reply and return them.
   * With `null` credentials the refresh token's dereference throws before the request is sent.
   */
  method UpdateCredentialsAsync(
    files: FileSystem, credentials: Option<OAuth2Credentials>, app: OAuth2App, endPoint: OAuth2EndPoint,
    now: int, response: QueryTokenResult, issuedAt: int)
    returns (out: BrokerOutcome)
    ensures out.listenedOn.None? && out.browsed.None?
    ensures out.tokenRequest.None? ==> out.files == files
    ensures IsStillValid(credentials, now) ==>
      out == BrokerOutcome(Success(credentials.value), files, None, None, None)
    ensures !IsStillValid(credentials, now) && credentials.None? ==>
      out == BrokerOutcome(Failure(NullReference), files, None, None, None)
    ensures !IsStillValid(credentials, now) && credentials.Some? ==>
      && out.tokenRequest == Some(RefreshRequest(credentials.value.refreshToken, app, endPoint))
      && out.result == Success(CredentialsFromToken(response, issuedAt))
      && out.files == SaveCredentials(files, out.result.value, app)
      && LoadCredentials(out.files, app) == Success(Some(out.result.value))
  {
    if IsStillValid(credentials, now) {
      return BrokerOutcome(Success(credentials.value), files, None, None, None);
    }
    if credentials.None? {
      return BrokerOutcome(Failure(NullReference), files, None, None, None);
    }
    var request := RefreshRequest(credentials.value.refreshToken, app, endPoint);
    var renewed := CredentialsFromToken(response, issuedAt);
    var files' := SaveCredentials(files, renewed, app);
    out := BrokerOutcome(Success(renewed), files', None, None, Some(request));
  }
}
