/**
 * The request options `sendRequest` composes before handing them to the
 * HTTPS client (src/account.js:406-429): the tokens it sends, the cache
 * buster on GET, the path, the verb and the POST headers. The clock, the
 * random draws and `querystring.encode` are inputs.
 */
module Transport {
  import opened Optional
  import opened JsStrings
  import opened JsValues
  import opened Cookies
  import opened Csrf
  import opened Session

  /** `querystring.encode`, applied to the request data. */
  type Encoder = Entries -> string

  /** The draws `generateCsrf` consumes when it is called for the CSRF token and for the session id. */
  datatype Draws = Draws(forCsrf: seq<real>, forSession: seq<real>)

  predicate ValidRandomness(r: Draws)
  {
    ValidDraws(r.forCsrf) && ValidDraws(r.forSession)
  }

  /** The three headers only a POST carries. */
  datatype PostHeaders = PostHeaders(contentType: string, contentLength: nat, csrfHeader: string)

  /** The options object, plus the text written as the request body (if any). */
  datatype RequestOptions = RequestOptions(
    host: string,
    path: string,
    httpMethod: string,
    referer: string,
    cookie: string,
    post: Option<PostHeaders>,
    body: Option<string>)

  const FormContentType: string := "application/x-www-form-urlencoded"

  /** `this.crfsToken ? this.crfsToken : generateCsrf()`, and the same for the session id. */
  function EffectiveToken(stored: Option<string>, draws: seq<real>): (t: string)
    requires ValidDraws(draws)
    ensures HasToken(stored) ==> t == stored.value
    ensures !HasToken(stored) ==> t == TokenFrom(draws) && IsToken(t)
  {
    TokenIsAlphanumeric(draws);
    if HasToken(stored) then stored.value else TokenFrom(draws)
  }

  /** The `Cookie` header. */
  function CookieHeader(csrf: string, sessionId: string): string
  {
    "csrftoken=" + csrf + "; sessionid=" + sessionId
  }

  /** The data sent: a GET gets the `_` cache buster set to the current time in milliseconds. */
  function RequestData(verb: string, data: Entries, now: int): (r: Entries)
    requires DistinctKeys(data)
    ensures DistinctKeys(r)
    ensures verb == "GET" ==> Lookup(r, "_") == Num(now)
    ensures verb == "GET" ==> forall k :: k != "_" ==> Lookup(r, k) == Lookup(data, k)
    ensures verb != "GET" ==> r == data
  {
    if verb == "GET" then SetProperty(data, "_", Num(now)) else data
  }

  /** The path: only a GET with non-empty encoded data gets `&` and the data appended. */
  function RequestPath(uri: string, verb: string, encoded: string): string
  {
    uri + (if verb == "GET" && encoded != "" then "&" + encoded else "")
  }

  /**
   * `sendRequest(uri, type = 'GET', data = {})` up to the point where the
   * options go to the network. `verb` and `data` are `None` when the caller
   * passes `undefined`.
   */
  function SendRequest(a: Account, uri: string, verb: Option<string>, data: Option<Entries>,
                       now: int, draws: Draws, encode: Encoder): (o: RequestOptions)
    requires ValidRandomness(draws)
    requires data.Some? ==> DistinctKeys(data.value)
    ensures o.host == a.host && o.referer == "https://" + a.host
    ensures o.httpMethod == "GET" || o.httpMethod == "POST"
    ensures o.post.Some? <==> o.httpMethod == "POST"
    ensures o.body.Some? ==> o.httpMethod == "POST" && o.body.value != ""
    ensures |uri| <= |o.path| && o.path[..|uri|] == uri
  {
    var csrf := EffectiveToken(a.crfsToken, draws.forCsrf);
    var sessionId := EffectiveToken(a.sessionId, draws.forSession);
    var v := verb.GetOr("GET");
    var encoded := encode(RequestData(v, data.GetOr([]), now));
    var m := if v == "POST" then "POST" else "GET";
    RequestOptions(
      a.host,
      RequestPath(uri, v, encoded),
      m,
      "https://" + a.host,
      CookieHeader(csrf, sessionId),
      if m == "POST" then Some(PostHeaders(FormContentType, Utf8Length(encoded), csrf)) else None,
      if m == "POST" && encoded != "" then Some(encoded) else None)
  }

  /** The `Cookie` header cuts back into the two tokens at its first `;`, when the CSRF token holds none. */
  lemma CookieHeaderSplits(csrf: string, sessionId: string)
    requires ';' !in csrf
    ensures Before(CookieHeader(csrf, sessionId), ';') == "csrftoken=" + csrf
    ensures After(CookieHeader(csrf, sessionId), ';') == " sessionid=" + sessionId
  {
    assert CookieHeader(csrf, sessionId) == ("csrftoken=" + csrf) + [';'] + (" sessionid=" + sessionId);
    FirstIndexAfter("csrftoken=" + csrf, ';', " sessionid=" + sessionId);
  }

  /** Read back with the cookie parser's rule, the header's first pair is the CSRF token. */
  lemma CookieHeaderParsesBack(csrf: string, sessionId: string)
    requires '=' !in csrf && ';' !in csrf
    ensures CookieOf(CookieHeader(csrf, sessionId)) == ("csrftoken", Some(csrf))
  {
    assert CookieHeader(csrf, sessionId) == "csrftoken" + "=" + csrf + ";" + (" sessionid=" + sessionId);
    CookieOfNameValue("csrftoken", csrf, " sessionid=" + sessionId);
  }

  /**
   * Each token is decided on its own: the `Cookie` header carries the
   * stored CSRF token or a fresh one, and the stored session id or a fresh
   * one, whatever state the other token is in.
   */
  lemma RequestCookieCarriesEffectiveTokens(a: Account, uri: string, verb: Option<string>, data: Option<Entries>,
                                            now: int, draws: Draws, encode: Encoder)
    requires ValidRandomness(draws)
    requires data.Some? ==> DistinctKeys(data.value)
    ensures var o := SendRequest(a, uri, verb, data, now, draws, encode);
            && o.cookie == CookieHeader(EffectiveToken(a.crfsToken, draws.forCsrf), EffectiveToken(a.sessionId, draws.forSession))
            && (o.post.Some? ==> o.post.value.csrfHeader == EffectiveToken(a.crfsToken, draws.forCsrf))
  {
  }

  /** A stored CSRF token with no stored session id: the token is replayed and only the session id is fresh. */
  lemma CsrfStoredSessionMissing(a: Account, uri: string, verb: Option<string>, data: Option<Entries>,
                                 now: int, draws: Draws, encode: Encoder)
    requires ValidRandomness(draws)
    requires data.Some? ==> DistinctKeys(data.value)
    requires HasToken(a.crfsToken) && !HasToken(a.sessionId)
    ensures SendRequest(a, uri, verb, data, now, draws, encode).cookie
            == CookieHeader(a.crfsToken.value, TokenFrom(draws.forSession))
  {
  }

  /** A stored session id with no stored CSRF token: the session id is replayed and only the CSRF token is fresh. */
  lemma SessionStoredCsrfMissing(a: Account, uri: string, verb: Option<string>, data: Option<Entries>,
                                 now: int, draws: Draws, encode: Encoder)
    requires ValidRandomness(draws)
    requires data.Some? ==> DistinctKeys(data.value)
    requires !HasToken(a.crfsToken) && HasToken(a.sessionId)
    ensures SendRequest(a, uri, verb, data, now, draws, encode).cookie
            == CookieHeader(TokenFrom(draws.forCsrf), a.sessionId.value)
  {
  }

  /** Stored tokens are replayed as they are, in the cookie and in the POST header. */
  lemma StoredTokensReplayed(a: Account, uri: string, verb: Option<string>, data: Option<Entries>,
                             now: int, draws: Draws, encode: Encoder)
    requires ValidRandomness(draws)
    requires data.Some? ==> DistinctKeys(data.value)
    requires HasToken(a.crfsToken) && HasToken(a.sessionId)
    ensures var o := SendRequest(a, uri, verb, data, now, draws, encode);
            && o.cookie == CookieHeader(a.crfsToken.value, a.sessionId.value)
            && (o.post.Some? ==> o.post.value.csrfHeader == a.crfsToken.value)
  {
  }

  /** A missing or empty token is replaced by a fresh 64-character token from the draws. */
  lemma MissingTokensFabricated(a: Account, uri: string, verb: Option<string>, data: Option<Entries>,
                                now: int, draws: Draws, encode: Encoder)
    requires ValidRandomness(draws)
    requires data.Some? ==> DistinctKeys(data.value)
    requires !HasToken(a.crfsToken) && !HasToken(a.sessionId)
    ensures var o := SendRequest(a, uri, verb, data, now, draws, encode);
            && o.cookie == CookieHeader(TokenFrom(draws.forCsrf), TokenFrom(draws.forSession))
            && IsToken(TokenFrom(draws.forCsrf)) && IsToken(TokenFrom(draws.forSession))
  {
    TokenIsAlphanumeric(draws.forCsrf);
    TokenIsAlphanumeric(draws.forSession);
  }

  /**
   * The double-submit pair agrees: on a POST the `x-csrftoken` header is the
   * token the `Cookie` header carries, whether stored or fabricated.
   */
  lemma PostCsrfHeaderMatchesCookie(a: Account, uri: string, data: Option<Entries>,
                                    now: int, draws: Draws, encode: Encoder)
    requires ValidRandomness(draws)
    requires data.Some? ==> DistinctKeys(data.value)
    requires a.crfsToken.Some? ==> '=' !in a.crfsToken.value && ';' !in a.crfsToken.value
    ensures var o := SendRequest(a, uri, Some("POST"), data, now, draws, encode);
            && o.post.Some?
            && CookieOf(o.cookie) == ("csrftoken", Some(o.post.value.csrfHeader))
  {
    var csrf := EffectiveToken(a.crfsToken, draws.forCsrf);
    if !HasToken(a.crfsToken) {
      TokenIsAlphanumeric(draws.forCsrf);
      var t := TokenFrom(draws.forCsrf);
      forall i | 0 <= i < |t|
        ensures t[i] != '=' && t[i] != ';'
      {
        assert IsAlphanumeric(t[i]);
      }
    }
    CookieHeaderParsesBack(csrf, EffectiveToken(a.sessionId, draws.forSession));
  }

  /**
   * A GET (named, or by default) carries the `_` timestamp, appends the
   * encoded data after `&`, and has no POST headers and no body.
   */
  lemma GetRequestShape(a: Account, uri: string, verb: Option<string>, data: Option<Entries>,
                        now: int, draws: Draws, encode: Encoder)
    requires ValidRandomness(draws)
    requires data.Some? ==> DistinctKeys(data.value)
    requires verb.None? || verb == Some("GET")
    ensures var sent := RequestData("GET", data.GetOr([]), now);
            var o := SendRequest(a, uri, verb, data, now, draws, encode);
            && Lookup(sent, "_") == Num(now)
            && (forall k :: k != "_" ==> Lookup(sent, k) == Lookup(data.GetOr([]), k))
            && o.httpMethod == "GET" && o.post.None? && o.body.None?
            && (encode(sent) != "" ==> o.path == uri + "&" + encode(sent))
            && (encode(sent) == "" ==> o.path == uri)
  {
  }

  /**
   * A POST keeps the path as given, sends the encoded data as the body,
   * declares its UTF-8 length and repeats the CSRF token in `x-csrftoken`.
   */
  lemma PostRequestShape(a: Account, uri: string, data: Option<Entries>,
                         now: int, draws: Draws, encode: Encoder)
    requires ValidRandomness(draws)
    requires data.Some? ==> DistinctKeys(data.value)
    ensures var encoded := encode(data.GetOr([]));
            var o := SendRequest(a, uri, Some("POST"), data, now, draws, encode);
            && o.httpMethod == "POST" && o.path == uri
            && o.post == Some(PostHeaders(FormContentType, Utf8Length(encoded), EffectiveToken(a.crfsToken, draws.forCsrf)))
            && (encoded != "" ==> o.body == Some(encoded))
            && (encoded == "" ==> o.body.None?)
  {
  }

  /** With an ASCII encoding (as `querystring.encode` percent-escapes), `Content-length` is the text length. */
  lemma ContentLengthOfAsciiBody(a: Account, uri: string, data: Option<Entries>,
                                 now: int, draws: Draws, encode: Encoder)
    requires ValidRandomness(draws)
    requires data.Some? ==> DistinctKeys(data.value)
    requires IsAscii(encode(data.GetOr([])))
    ensures SendRequest(a, uri, Some("POST"), data, now, draws, encode).post.value.contentLength
            == |encode(data.GetOr([]))|
  {
  }

  /**
   * Any other verb string is sent as a GET, but without the timestamp and
   * without its data: the path is the URI alone.
   */
  lemma OtherVerbDropsData(a: Account, uri: string, verb: string, data: Option<Entries>,
                           now: int, draws: Draws, encode: Encoder)
    requires ValidRandomness(draws)
    requires data.Some? ==> DistinctKeys(data.value)
    requires verb != "GET" && verb != "POST"
    ensures var o := SendRequest(a, uri, Some(verb), data, now, draws, encode);
            o.httpMethod == "GET" && o.path == uri && o.post.None? && o.body.None?
  {
  }

  /** Every request names the account's host and a referer on it. */
  lemma RequestTargetsHost(a: Account, uri: string, verb: Option<string>, data: Option<Entries>,
                           now: int, draws: Draws, encode: Encoder)
    requires ValidRandomness(draws)
    requires data.Some? ==> DistinctKeys(data.value)
    ensures var o := SendRequest(a, uri, verb, data, now, draws, encode);
            o.host == a.host && o.referer == "https://" + a.host && uri <= o.path
  {
  }
}
