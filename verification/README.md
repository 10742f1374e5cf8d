# tale-client account core in Dafny

This project models the pure logic of the game-API client in
`src/account.js`: the `METHODS` table, the CSRF token generator, the URL
builder, the cookie parser, the response decoder, the way `login`,
`authRequest` and `authState` overwrite the session, the `accountInfo`
guard, the request options `sendRequest` composes and the decision rule of
the pending-task poller. JavaScript values are a small `Value` datatype
(integers only). `JSON.parse` and `querystring.encode` are function-typed
parameters. `Math.random()` draws and the clock are inputs.

Modules, in dependency order:

- `Optional` (`optional.dfy`): `Option` and `Result`.
- `JsStrings` (`js_strings.dfy`): `indexOf`, one-character `split` and
  `join`, `replace` with a string pattern (including the `$$`, `$&`,
  `` $` `` and `$'` replacement patterns), integer-to-text, UTF-8 length.
- `JsValues` (`js_values.dfy`): values, truthiness, `String(v)`, property
  reads that throw on `null`/`undefined`, default parameters, and the
  ordered plain objects passed as request data.
- `Registry` (`registry.dfy`): `CLIENT_NAME` and the `METHODS` table.
- `UrlBuilder` (`url_builder.dfy`): `buildBaseApiUrl` as written and as
  evidently intended (see Findings).
- `Cookies` (`cookies.dfy`): `parseCookies`.
- `Decoder` (`decoder.dfy`): responses and `parseResponse`.
- `Csrf` (`csrf.dfy`): `generateCsrf`.
- `Session` (`session.dfy`): the `Account` fields and the session updates.
- `Transport` (`transport.dfy`): `sendRequest` up to the network call.
- `Client` (`client.dfy`): the request each API method issues, and
  `accountInfo`.
- `Poller` (`poller.dfy`): `waitPospondetTask` over a finite run of
  responses.

What the code does, in places a reader may not expect:

- Both tokens are overwritten on every capture, with `undefined` when a
  cookie is missing (`Session.CaptureWithoutCsrfEntry`).
- `authRequest` also writes the tokens, before it looks at the body
  (`Session.AuthRequestCapturesBeforeThrowing`).
- `sendRequest` generates a random token for a missing or empty stored
  token, each token on its own (`Transport.RequestCookieCarriesEffectiveTokens`).
- The poller waits 300 ms before every poll, including the first, so two
  processing answers then a final one take three intervals
  (`Poller.TwoProcessingThenDone`).

## Model

| member | source | states |
|---|---|---|
| Registry.Descriptor | src/account.js:13-97 | Every table path starts with `/`; an entry names a verb exactly for authRequest, authState, authLogout, accountInfo, newMessagesNumber and heroInfo, and that verb is GET or POST |
| JsStrings.IndexOf | src/account.js:120 | The match `replace` acts on: found exactly when the pattern occurs, at the least index where it occurs |
| JsStrings.Split | src/account.js:136 | No piece holds the separator; the first piece is the text before the first separator; one piece exactly when there is no separator; the second piece is the text up to the next separator |
| JsStrings.SplitThenJoin | src/account.js:136 | Joining the pieces of a split with the separator gives the original text back |
| JsStrings.JoinThenSplit | src/account.js:136 | Splitting the join of separator-free pieces gives the pieces back |
| JsStrings.ReplaceFirst | src/account.js:120 | `replace` with a string pattern: text without the pattern is returned unchanged; the first-occurrence rule is stated by `JsStrings.ReplaceFirstOccurrence` and `JsStrings.ReplaceAfterPrefix` |
| JsStrings.ExpandReplacement | src/account.js:120 | A replacement without `$` is inserted as it is; the expansion of the patterns is stated by `JsStrings.ExpandOnePattern` |
| JsStrings.ExpandFreePrefix | src/account.js:120 | Text without `$` in front of a replacement is copied unchanged, whatever follows it |
| JsStrings.ExpandOnePattern | src/account.js:120 | One pattern amid `$`-free text expands to its piece: `$$` to `$`, `$&` to the matched text, `` $` `` to the text before the match, `$'` to the text after it; the text around it is copied |
| JsStrings.ReplaceFirstOccurrence | src/account.js:120 | With a `$`-free replacement, `replace` swaps the first occurrence of the pattern for the replacement and keeps every other character |
| JsStrings.ReplaceAfterPrefix | src/account.js:120 | With a `$`-free value, when the text before a pattern cannot start it, `replace` fills exactly that occurrence |
| JsStrings.NatToStringRoundTrip | src/account.js:120 | The decimal text a number value is converted to reads back as that number |
| JsStrings.Utf8Length | src/account.js:427 | The byte length is between one and four bytes per character, and equals the text length for ASCII text |
| JsValues.GetProperty | src/account.js:225-231 | A property read throws a TypeError naming the property exactly on `null` or `undefined`; on an object it gives the field or `undefined`; only objects (and `length`) give a defined value |
| JsValues.WithDefault | src/account.js:335 | An `undefined` argument gives the default; any other argument, `null` included, is kept |
| JsValues.SetProperty | src/account.js:410-412 | `data['_'] = …` keeps keys distinct, sets that key, leaves every other key's value alone, keeps an existing key in place and appends a new one |
| UrlBuilder.BuildBaseApiUrlAsWritten | src/account.js:115-126 | The builder as written: the URL ends with the query suffix, and without parameters or with `{}` it is the table path plus that suffix; its substitution is stated by `UrlBuilder.AsWrittenKeepsOnlyLastKey`, `UrlBuilder.AsWrittenSingleKey` and `UrlBuilder.AsWrittenAbsentKey` |
| UrlBuilder.BuildBaseApiUrl | src/account.js:115-126 | The corrected builder, with the `reduce` accumulator threaded through: the URL always ends with `?api_version=<version>&api_client=CrazyNigerHACS-1.0`; without parameters, with `{}`, or with a template that has no `%`, the path is the table path unchanged; filling is stated by `UrlBuilder.SubstituteFillsTemplate` |
| UrlBuilder.AccountInfoUrlShape | src/account.js:37-41 | The account page path is `/accounts/`, the `%accountId%` placeholder, then `/api/show`, and the entry's verb is GET |
| UrlBuilder.SubstituteNoPlaceholder | src/account.js:118-121 | Substituting any parameters into a template without `%` leaves it unchanged |
| UrlBuilder.AsWrittenKeepsOnlyLastKey | src/account.js:119-121 | The written `reduce` returns the original template with only the last key substituted |
| UrlBuilder.AsWrittenSingleKey | src/account.js:119-125 | With one key, the written builder replaces the first occurrence of `%key%` by the value, keeps every other character, and appends the query suffix |
| UrlBuilder.AsWrittenAbsentKey | src/account.js:119-125 | With one key whose placeholder does not occur, the path is the template unchanged |
| UrlBuilder.AsWrittenAgreesOnOneKey | src/account.js:115-126 | With no parameters or one parameter, the written and the intended builder give the same URL |
| UrlBuilder.IntendedOneKeyAfterPrefix | src/account.js:119-125 | With one key, a `$`-free value, and a placeholder that follows `%`-free text, that placeholder is replaced by the value and the rest of the template is kept |
| UrlBuilder.SubstituteFillsTemplate | src/account.js:119-121 | When the parameters name each placeholder once, in the order the placeholders occur, the intended substitution replaces every placeholder by its value and keeps all literal text |
| UrlBuilder.BuildBaseApiUrlFillsTemplate | src/account.js:115-126 | The intended builder on such a template gives the filled path followed by the query suffix |
| UrlBuilder.IntendedOnTwoKeysReversed | src/account.js:119-121 | On `/%x%/%y%` with the keys given as `y` then `x`, the intended builder still gives `/1/2` plus the suffix |
| UrlBuilder.IntendedRepeatedPlaceholder | src/account.js:119-121 | A placeholder that occurs twice is filled only at its first occurrence: `/%x%/%x%` with `{x: '1'}` gives `/1/%x%` plus the suffix |
| UrlBuilder.AsWrittenOnTwoKeys | src/account.js:119-121 | On `/%x%/%y%` with `x`, `y` the written builder gives `/%x%/2` plus the suffix |
| UrlBuilder.IntendedOnTwoKeys | src/account.js:119-121 | On the same input the intended builder gives `/1/2` plus the suffix |
| UrlBuilder.AsWrittenLosesEarlierSubstitutions | src/account.js:119-121 | The two builders differ on that input |
| Cookies.CookieOf | src/account.js:136-137 | Within the text before the first `;`, the name is the text before the first `=` and the value the text between the first and the second `=`; the value is absent exactly when there is no `=`; neither holds `=` or `;` |
| Cookies.StoreAllKeys | src/account.js:135-138 | The stored names are exactly the cookies' names other than `__proto__` |
| Cookies.StoreAllLastWins | src/account.js:135-138 | A name holds the value of the last cookie carrying it |
| Cookies.ParseCookies | src/account.js:132-141 | No header, or an empty list of entries, gives the empty object |
| Cookies.ParseEntriesKeys | src/account.js:135-138 | The keys of the result are exactly the entries' names other than `__proto__` |
| Cookies.ParseEntriesLastWins | src/account.js:135-138 | Each name maps to the value of the last entry carrying it |
| Cookies.ParseEntriesValuesSafe | src/account.js:136-137 | Every value in the result holds neither `=` nor `;` |
| Cookies.CookieOfNameValue | src/account.js:136-137 | `name=value; attributes` yields that name and that value |
| Cookies.CookieValueTruncated | src/account.js:136-137 | A value holding `=` is cut at it, with or without `; attributes` after it: only the text between the first and second `=` is kept |
| Cookies.CookieWithoutValue | src/account.js:136-137 | An entry without `=`, with or without `; attributes`, gives its name with an `undefined` value |
| Decoder.IsJsonIff | src/account.js:144 | JSON is selected exactly when a content type is present and holds `json` |
| Decoder.ParseResponse | src/account.js:143-153 | Without `json` in the content type the body is returned as text; with it, the decoded value, or the text when decoding fails |
| Decoder.ParseResponseBodyOrDecoded | src/account.js:143-153 | The result is the raw text or the decoder's value for that text, nothing else |
| Decoder.MissingContentTypeKeepsBody | src/account.js:144-152 | A missing content type (tested as the text `undefined`) keeps the raw body |
| Decoder.JsonContentTypeDecodes | src/account.js:144-146 | `application/json`, with any parameters after it, selects the decoder |
| Decoder.UpperCaseJsonKeepsBody | src/account.js:144 | The test is case-sensitive: `application/JSON` does not select the decoder |
| Csrf.AlphabetIndex | src/account.js:103 | `Math.floor(d * 62)` for a draw in [0, 1) is a valid alphabet position |
| Csrf.GenerateCsrf | src/account.js:99-107 | The generated token is character `i` from draw `i`, 64 characters, all from the alphabet |
| Csrf.TokenIsAlphanumeric | src/account.js:100-106 | Every token has the generator's shape and only ASCII letters and digits |
| Csrf.AlphabetIsAlphanumeric | src/account.js:100 | The alphabet has 62 characters, each an ASCII letter or digit |
| Csrf.EveryCharacterReachable | src/account.js:103 | Every alphabet character is selected by some draw |
| Session.NewAccount | src/account.js:156-164 | A new account keeps its host, holds no usable token and has a falsy account id |
| Session.CaptureCookies | src/account.js:199-201 | A capture keeps the host, credentials and identity, and no `Set-Cookie` header leaves both tokens `undefined`; which entry wins is stated by `Session.CaptureTakesLastCsrfEntry` and `Session.CaptureTakesLastSessionEntry` |
| Session.CaptureTakesLastCsrfEntry | src/account.js:199-200 | The stored CSRF token is the value of the last `csrftoken` entry |
| Session.CaptureTakesLastSessionEntry | src/account.js:199-201 | The stored session id is the value of the last `sessionid` entry |
| Session.CaptureWithoutCsrfEntry | src/account.js:199-200 | Without a `csrftoken` entry the stored CSRF token becomes `undefined` |
| Session.CapturedTokensAreCookieSafe | src/account.js:199-201 | A captured token holds neither `=` nor `;` |
| Session.Login | src/account.js:246-261 | A login stores the credentials and keeps the host and identity; the tokens are stated by `Session.LoginOverwritesTokens` |
| Session.LoginOverwritesTokens | src/account.js:246-261 | Login stores the credentials, sets both tokens to whatever the cookie parser gave (including `undefined`) and keeps the identity |
| Session.AuthRequest | src/account.js:188-209 | `authRequest` changes only the tokens, and clears both when the response sets no cookie; its result is stated by `Session.AuthRequestApiError` and `Session.AuthRequestReturnsPage` |
| Session.AuthRequestCapturesBeforeThrowing | src/account.js:199-207 | The session after `authRequest` holds the response's cookies, whether the call returns or throws |
| Session.AuthRequestApiError | src/account.js:203-207 | The call throws the API's error exactly when the decoded body's `status` is `'error'` |
| Session.AuthRequestReturnsPage | src/account.js:209 | A defined result is `data.authorisation_page` of the decoded body |
| Session.AuthState | src/account.js:218-234 | `authState` changes the session only when `data.state` is `SUCCESS`, and never the host or credentials; the success case is stated by `Session.AuthStateSuccess` |
| Session.AuthStateSuccess | src/account.js:225-232 | On `SUCCESS` both tokens come from the cookies and the identity from `data.account_id` and `data.accountName`; host and credentials are kept |
| Transport.SendRequest | src/account.js:406-429 | A request goes to the account's host with a referer on it, as GET or POST; POST headers exactly on a POST, a body only on a POST with non-empty data; the path starts with the URI; the shapes are stated by `Transport.GetRequestShape` and `Transport.PostRequestShape` |
| Transport.EffectiveToken | src/account.js:408-409 | A truthy stored token is used as it is; a missing or empty one is replaced by the token generated from the draws, which has the generator's shape |
| Transport.RequestData | src/account.js:410-412 | A GET adds `_` set to the current time and keeps every other field; any other verb sends the data as given |
| Transport.CookieHeaderSplits | src/account.js:421 | The `Cookie` header cuts at its first `;` into the CSRF pair and the session pair |
| Transport.CookieHeaderParsesBack | src/account.js:421 | Read back with the cookie parser's rule, the header's first pair is the CSRF token |
| Transport.RequestCookieCarriesEffectiveTokens | src/account.js:408-421 | Whatever state either token is in, the `Cookie` header carries the effective CSRF token and the effective session id, and a POST's `x-csrftoken` is the effective CSRF token |
| Transport.CsrfStoredSessionMissing | src/account.js:408-421 | A stored CSRF token with no session id: the token is replayed and only the session id is generated |
| Transport.SessionStoredCsrfMissing | src/account.js:408-421 | A stored session id with no CSRF token: the session id is replayed and only the CSRF token is generated |
| Transport.StoredTokensReplayed | src/account.js:408-428 | Stored tokens are sent unchanged in the `Cookie` header and in `x-csrftoken` |
| Transport.MissingTokensFabricated | src/account.js:408-421 | A missing or empty token is replaced by a freshly generated 64-character token |
| Transport.PostCsrfHeaderMatchesCookie | src/account.js:408-428 | On a POST, `x-csrftoken` equals the CSRF token in the `Cookie` header |
| Transport.GetRequestShape | src/account.js:410-429 | A GET sends `_`, appends `&` and the encoded data when there is any, and has no POST headers and no body |
| Transport.PostRequestShape | src/account.js:414-429 | A POST keeps the path, sends the encoded data as the body when non-empty, and sets the form content type, its UTF-8 length and `x-csrftoken` |
| Transport.ContentLengthOfAsciiBody | src/account.js:427 | For an ASCII encoding, `Content-length` is the text length |
| Transport.OtherVerbDropsData | src/account.js:410-418 | Any other verb goes out as a GET of the bare path, without the timestamp, the data or a body |
| Transport.RequestTargetsHost | src/account.js:415-421 | Every request names the account's host and a referer on it, and its path starts with the URI |
| Client.CallOf | src/account.js:175-380 | Every method's request has its table path plus the query suffix as URI, a GET or POST verb if any, and data with distinct keys; the verbs are stated by `Client.CallVerbAgreesWithTable` and `Client.PostingOperations` |
| Client.CallVerbAgreesWithTable | src/account.js:175-380 | Where the table names a verb, the method's request goes out with that verb |
| Client.PostingOperations | src/account.js:175-380 | The requests that go out as POST are exactly those of authRequest, authLogout, login, the three sell-lot methods, sendHelp, cardReceive and cardCombine |
| Client.HeroInfoDefaults | src/account.js:335-344 | `getHeroInfo()` without arguments sends `null` for both fields |
| Client.AccountInfo | src/account.js:320-325 | An immediate answer is `{}` and happens only without an account id; a request carries no data; the guard and the URL are stated by `Client.AccountInfoGuard` and `Client.AccountInfoRequest` |
| Client.AccountInfoGuard | src/account.js:320-323 | No request is made exactly when the account id is falsy, and the answer is then `{}` |
| Client.AccountInfoRequest | src/account.js:320-325 | With an account id, the request is a GET of `/accounts/<id>/api/show` plus the query suffix |
| Client.NewAccountInfoIsEmpty | src/account.js:320-323 | A new client's `accountInfo()` answers `{}` without a request |
| Client.ClientUrlsUnaffectedByReduceBug | src/account.js:115-126 | Every URL the client builds is the same under the written and the intended builder |
| Poller.Settle | src/account.js:384-391 | The handler run from a given poll: a resolved task carries a later body that is not processing, a stuck one a later body without a readable status, a waiting one has used every response |
| Poller.Poll | src/account.js:382-397 | A resolved task carries the decoded body of the poll it stopped at, which is not processing; a waiting one has used every response; the exact stopping point is stated by `Poller.FirstNonProcessingWins` |
| Poller.SettleResolves | src/account.js:384-391 | From any poll on, the run resolves at poll `k` exactly when the bodies in between say processing and body `k` has another status |
| Poller.FirstNonProcessingWins | src/account.js:382-397 | The task resolves with the first decoded body whose status is not `'processing'`, after that many polls |
| Poller.AllProcessingKeepsWaiting | src/account.js:386-388 | While every body says processing, the task keeps waiting, one poll per response |
| Poller.TwoProcessingThenDone | src/account.js:382-397 | Two processing answers and then any body with a readable status other than `'processing'` resolve on the third poll with that body, after 900 ms |
| Poller.PollLoop | src/account.js:382-397 | The loop stops at the first settled status and agrees with the rule; a resolved body is not processing |
| Poller.PollRequestPath | src/account.js:385 | Each poll is a GET of `url?&_=<now>` with no body |
| Poller.MissingStatusUrlPollsUndefined | src/account.js:310-312 | A close response whose decoded body is an object without `status_url`, or text, polls the text `undefined?` |

## Left out

- The HTTPS request, the response stream, `Buffer.concat` and the error
  event (src/account.js:431-451) are network I/O. A response is an input.
- Promises, `async`/`await` and `setTimeout` are not modelled. The poller
  decides over a finite sequence of responses, and waiting time is counted
  as 300 ms per poll.
- A rejected transport promise in the poller is not modelled.
- `Math.random()` and `Date.getTime()` are inputs: a sequence of draws in
  [0, 1) and an integer timestamp.
- `JSON.parse` and `querystring.encode` are abstract functions. Field order
  in decoded objects is not modelled, because objects are maps.
- `JSON.stringify(response.errors)` in the thrown message is not modelled.
  The error carries the `errors` value itself.
- The `heroId` and `heroName` fields are never read or written after the
  constructor.
- `newMessagesNumber` has a table entry but no client method.
- src/hero-actions.js is a constant table with no behaviour. It is not part
  of this model.
- Numbers are integers. Floating point, `NaN` and the exponent form of
  `Number.prototype.toString` are not modelled.
- Property reads of names defined on built-in prototypes (other than
  `length`) are not modelled. The client reads none.
- The `set-cookie` header is an array of entries or absent, as Node.js
  delivers it. Other shapes of the `cookieSets` argument are not modelled.
- UTF-8 length counts Unicode scalar values. Lone UTF-16 surrogates, which
  `Buffer.from` writes as three bytes, are not modelled.
- UrlBuilder.BuildBaseApiUrlAsWritten: parameter keys are taken in the
  order given. `Object.keys` lists array-index keys (such as `"0"`) first,
  in ascending order; that ordering is not modelled. The client's only
  parameter key is `accountId`.
- UrlBuilder.AsWrittenKeepsOnlyLastKey: "last" means last in the order
  given, for the same reason.
- Client.AccountInfoRequest: stated only for account ids whose text has no
  `$`. For other ids, `replace` expands the replacement patterns (modelled
  in `JsStrings.ExpandReplacement`), and the path is not stated.
- UrlBuilder.AsWrittenSingleKey: stated only for values whose text has no
  `$`, for the same reason.
- UrlBuilder.SubstituteFillsTemplate: stated for templates whose literal
  text and values hold no `%`, whose values hold no `$`, and whose
  parameters name each placeholder once, in the order the placeholders
  occur. Another key order is stated only on one example
  (`UrlBuilder.IntendedOnTwoKeysReversed`). A placeholder repeated in the
  template is filled only at its first occurrence
  (`UrlBuilder.IntendedRepeatedPlaceholder`), so "every placeholder" does
  not hold for such templates.

## Findings

| source | as written | input that shows it | evidently intended | confidence | as-written member | corrected member |
|---|---|---|---|---|---|---|
| src/account.js:119-121 | The `reduce` callback calls `baseUrl.replace(...)` on the original template and ignores its accumulator `url`, so each step discards the previous substitutions | template `/%x%/%y%` with parameters `{x: '1', y: '2'}` gives `/%x%/2` | every placeholder filled: `/1/2` | not executed | UrlBuilder.AsWrittenLosesEarlierSubstitutions | UrlBuilder.SubstituteFillsTemplate |

Every URL the client itself builds passes at most one parameter, so the
written and the intended builder agree on all of them
(`Client.ClientUrlsUnaffectedByReduceBug`). The rest of the model uses the
intended builder.
