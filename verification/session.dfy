/**
 * The `Account` instance's session fields (src/account.js:155-168) and the
 * way `login`, `authRequest` and `authState` overwrite them from a
 * response (src/account.js:188-264).
 */
module Session {
  import opened Optional
  import opened JsValues
  import opened Cookies
  import opened Decoder

  /**
   * The fields the client reads and writes. The two tokens hold whatever
   * the cookie lookup returned: `None` is `undefined`. The identity fields
   * hold whatever the decoded response carried.
   */
  datatype Account = Account(
    host: string,
    username: Value,
    password: Value,
    sessionId: Option<string>,
    crfsToken: Option<string>,
    accountId: Value,
    accountName: Value)

  /** `new Account(host)`: empty strings for the credentials and tokens, `null` identity. */
  function NewAccount(host: string): (a: Account)
    ensures a.host == host
    ensures !HasToken(a.crfsToken) && !HasToken(a.sessionId)
    ensures !Truthy(a.accountId)
  {
    Account(host, Str(""), Str(""), Some(""), Some(""), Null, Null)
  }

  /** A stored token is truthy: present and non-empty. */
  predicate HasToken(t: Option<string>)
  {
    t.Some? && |t.value| > 0
  }

  /** The two assignments from `parseCookies(headers['set-cookie'])`: both fields are overwritten, even with `undefined`. */
  function CaptureCookies(a: Account, setCookie: Option<seq<string>>): (r: Account)
    ensures r.host == a.host && r.username == a.username && r.password == a.password
    ensures r.accountId == a.accountId && r.accountName == a.accountName
    ensures setCookie.None? ==> r.crfsToken.None? && r.sessionId.None?
  {
    var jar := ParseCookies(setCookie);
    a.(crfsToken := Get(jar, "csrftoken"), sessionId := Get(jar, "sessionid"))
  }

  /**
   * The last `csrftoken=value; ...` entry decides the stored CSRF token; a
   * response whose entries never name `csrftoken` leaves it `undefined`.
   */
  lemma CaptureTakesLastCsrfEntry(a: Account, entries: seq<string>, j: nat)
    requires j < |entries|
    requires NameOf(entries[j]) == "csrftoken"
    requires forall i :: j < i < |entries| ==> NameOf(entries[i]) != "csrftoken"
    ensures CaptureCookies(a, Some(entries)).crfsToken == CookieOf(entries[j]).1
  {
    ParseEntriesLastWins(entries, j);
  }

  /** Likewise for the session id. */
  lemma CaptureTakesLastSessionEntry(a: Account, entries: seq<string>, j: nat)
    requires j < |entries|
    requires NameOf(entries[j]) == "sessionid"
    requires forall i :: j < i < |entries| ==> NameOf(entries[i]) != "sessionid"
    ensures CaptureCookies(a, Some(entries)).sessionId == CookieOf(entries[j]).1
  {
    ParseEntriesLastWins(entries, j);
  }

  /** No entry named `csrftoken` means the stored CSRF token becomes `undefined`. */
  lemma CaptureWithoutCsrfEntry(a: Account, entries: seq<string>)
    requires forall i :: 0 <= i < |entries| ==> NameOf(entries[i]) != "csrftoken"
    ensures CaptureCookies(a, Some(entries)).crfsToken == None
  {
    ParseEntriesKeys(entries, "csrftoken");
  }

  /** A stored token came from a cookie value, so it holds neither `=` nor `;`. */
  lemma CapturedTokensAreCookieSafe(a: Account, setCookie: Option<seq<string>>)
    ensures var r := CaptureCookies(a, setCookie);
            (r.crfsToken.Some? ==> '=' !in r.crfsToken.value && ';' !in r.crfsToken.value)
            && (r.sessionId.Some? ==> '=' !in r.sessionId.value && ';' !in r.sessionId.value)
  {
    if setCookie.Some? {
      ParseEntriesValuesSafe(setCookie.value);
    }
  }

  /** `login(login, password)` once the response is in: credentials stored, cookies captured. */
  function Login(a: Account, login: Value, password: Value, response: RawResponse): (r: Account)
    ensures r.username == login && r.password == password
    ensures r.host == a.host && r.accountId == a.accountId && r.accountName == a.accountName
  {
    CaptureCookies(a.(username := login, password := password), response.headers.setCookie)
  }

  /** A login stores the credentials, replaces both tokens from the cookies and keeps the identity. */
  lemma LoginOverwritesTokens(a: Account, login: Value, password: Value, response: RawResponse)
    ensures var r := Login(a, login, password, response);
            var jar := ParseCookies(response.headers.setCookie);
            && r.username == login && r.password == password
            && r.crfsToken == Get(jar, "csrftoken") && r.sessionId == Get(jar, "sessionid")
            && r.host == a.host && r.accountId == a.accountId && r.accountName == a.accountName
  {
  }

  /** What an API call hands back: a value, or the exception it throws. */
  datatype ClientError =
    | Thrown(error: JsError)
    | ApiError(errors: Value)

  /** The `AUTH_STATE.SUCCESS` code. */
  const AuthSuccess: int := 2

  /**
   * `authRequest(...)` once the response is in. The cookies are captured
   * first, so the session changes even when the call then throws.
   */
  function AuthRequest(a: Account, response: RawResponse, parse: JsonParser): (r: (Account, Result<Value, ClientError>))
    ensures r.0.host == a.host && r.0.username == a.username && r.0.password == a.password
    ensures r.0.accountId == a.accountId && r.0.accountName == a.accountName
    ensures response.headers.setCookie.None? ==> r.0.crfsToken.None? && r.0.sessionId.None?
  {
    var a' := CaptureCookies(a, response.headers.setCookie);
    var body := ParseResponse(response, parse);
    match GetProperty(body, "status")
    case Err(e) => (a', Err(Thrown(e)))
    case Ok(status) =>
      if status == Str("error") then
        (a', Err(ApiError(GetProperty(body, "errors").value)))
      else
        match GetProperty(GetProperty(body, "data").value, "authorisation_page")
        case Err(e) => (a', Err(Thrown(e)))
        case Ok(page) => (a', Ok(page))
  }

  /** Whatever the response says, the session afterwards holds the response's cookies. */
  lemma AuthRequestCapturesBeforeThrowing(a: Account, response: RawResponse, parse: JsonParser)
    ensures AuthRequest(a, response, parse).0 == CaptureCookies(a, response.headers.setCookie)
  {
  }

  /** The call rejects with the API's errors exactly when the decoded body's `status` is `'error'`. */
  lemma AuthRequestApiError(a: Account, response: RawResponse, parse: JsonParser)
    ensures var body := ParseResponse(response, parse);
            AuthRequest(a, response, parse).1.Err? && AuthRequest(a, response, parse).1.error.ApiError?
            <==> body.Obj? && "status" in body.fields && body.fields["status"] == Str("error")
  {
  }

  /** A defined page comes from `data.authorisation_page` of the decoded body. */
  lemma AuthRequestReturnsPage(a: Account, response: RawResponse, parse: JsonParser, page: Value)
    requires AuthRequest(a, response, parse).1 == Ok(page)
    requires page != Undefined
    ensures var body := ParseResponse(response, parse);
            && body.Obj? && "data" in body.fields
            && body.fields["data"].Obj? && "authorisation_page" in body.fields["data"].fields
            && body.fields["data"].fields["authorisation_page"] == page
  {
    var body := ParseResponse(response, parse);
    var status := GetProperty(body, "status");
    assert status.Ok?;
    var data := GetProperty(body, "data").value;
    assert GetProperty(data, "authorisation_page") == Ok(page);
    assert data.Obj?;
    assert body.Obj?;
  }

  /**
   * `authState()` once the response is in. Only a `SUCCESS` state touches
   * the session: the tokens come from the cookies, the identity from the
   * body's `account_id` and `accountName`.
   */
  function AuthState(a: Account, response: RawResponse, parse: JsonParser): (r: (Account, Result<Value, ClientError>))
    ensures r.0 != a ==> StateOf(response, parse) == Some(Num(AuthSuccess))
    ensures r.0.host == a.host && r.0.username == a.username && r.0.password == a.password
  {
    var result := ParseResponse(response, parse);
    match GetProperty(result, "data")
    case Err(e) => (a, Err(Thrown(e)))
    case Ok(data) =>
      match GetProperty(data, "state")
      case Err(e) => (a, Err(Thrown(e)))
      case Ok(state) =>
        if state == Num(AuthSuccess) then
          var a' := CaptureCookies(a, response.headers.setCookie);
          (a'.(accountId := GetProperty(data, "account_id").value,
               accountName := GetProperty(data, "accountName").value), Ok(data))
        else (a, Ok(data))
  }

  /** The decoded `data.state`, when the body has one. */
  function StateOf(response: RawResponse, parse: JsonParser): Option<Value>
  {
    var result := ParseResponse(response, parse);
    match GetProperty(result, "data")
    case Err(_) => None
    case Ok(data) =>
      match GetProperty(data, "state")
      case Err(_) => None
      case Ok(state) => Some(state)
  }

  /** On `SUCCESS` both tokens are overwritten from the cookies and both identity fields from `data`. */
  lemma AuthStateSuccess(a: Account, response: RawResponse, parse: JsonParser)
    requires StateOf(response, parse) == Some(Num(AuthSuccess))
    ensures var r := AuthState(a, response, parse).0;
            var jar := ParseCookies(response.headers.setCookie);
            var data := ParseResponse(response, parse).fields["data"];
            && ParseResponse(response, parse).Obj? && data.Obj?
            && r.crfsToken == Get(jar, "csrftoken") && r.sessionId == Get(jar, "sessionid")
            && r.accountId == (if "account_id" in data.fields then data.fields["account_id"] else Undefined)
            && r.accountName == (if "accountName" in data.fields then data.fields["accountName"] else Undefined)
            && r.host == a.host && r.username == a.username && r.password == a.password
  {
    var result := ParseResponse(response, parse);
    var data := GetProperty(result, "data").value;
    assert GetProperty(data, "state") == Ok(Num(AuthSuccess));
  }
}
