/**
 * The client's API methods (src/account.js:175-380) as the requests they
 * issue: which table entry, which verb and which data each passes to
 * `sendRequest`, and the `accountInfo` guard that issues none.
 */
module Client {
  import opened Optional
  import opened JsValues
  import Registry
  import opened UrlBuilder
  import opened Session

  /** One call of an API method, with the arguments the caller passed (`Undefined` where omitted). */
  datatype Operation =
    | Info
    | RequestAuthorisation(applicationName: Value, applicationInfo: Value, applicationDesc: Value)
    | CheckAuthorisation
    | Logout
    | LogIn(login: Value, password: Value)
    | ShopInfo
    | ShopItemPrices(cardType: Value)
    | ShopCreateSellLot(card: Value, price: Value)
    | ShopCancelSellLot(cardType: Value, price: Value)
    | ShopCloseSellLot(cardType: Value, price: Value)
    | GetHeroInfo(clientTurns: Value, accountId: Value)
    | SendHelp
    | CardGet
    | CardReceive
    | CardCombine(card: Value)

  /** The arguments of one `sendRequest` call; `None` is an omitted argument. */
  datatype Call = Call(uri: string, verb: Option<string>, data: Option<Entries>)

  /** The table entry each method reads. */
  function MethodOf(op: Operation): Registry.MethodName
  {
    match op
    case Info => Registry.GameInfo
    case RequestAuthorisation(_, _, _) => Registry.AuthRequest
    case CheckAuthorisation => Registry.AuthState
    case Logout => Registry.AuthLogout
    case LogIn(_, _) => Registry.Login
    case ShopInfo => Registry.ShopInfo
    case ShopItemPrices(_) => Registry.ShopItemPrices
    case ShopCreateSellLot(_, _) => Registry.ShopCreateSellLot
    case ShopCancelSellLot(_, _) => Registry.ShopCancelSellLot
    case ShopCloseSellLot(_, _) => Registry.ShopCloseSellLot
    case GetHeroInfo(_, _) => Registry.HeroInfo
    case SendHelp => Registry.SendHelp
    case CardGet => Registry.CardGet
    case CardReceive => Registry.CardReceive
    case CardCombine(_) => Registry.CardCombine
  }

  /**
   * The verb argument: some methods pass the table's `method` field (which
   * may be absent), some a literal, some none.
   */
  function VerbOf(op: Operation): (v: Option<string>)
    ensures v.Some? ==> v.value == "GET" || v.value == "POST"
  {
    match op
    case RequestAuthorisation(_, _, _) => Registry.Descriptor(Registry.AuthRequest).verb
    case CheckAuthorisation => Registry.Descriptor(Registry.AuthState).verb
    case Logout => Registry.Descriptor(Registry.AuthLogout).verb
    case GetHeroInfo(_, _) => Registry.Descriptor(Registry.HeroInfo).verb
    case LogIn(_, _) => Some("POST")
    case ShopItemPrices(_) => Some("GET")
    case ShopCreateSellLot(_, _) => Some("POST")
    case ShopCancelSellLot(_, _) => Some("POST")
    case ShopCloseSellLot(_, _) => Some("POST")
    case SendHelp => Some("POST")
    case CardReceive => Some("POST")
    case CardCombine(_) => Some("POST")
    case _ => None
  }

  /** The data argument, with the defaults of the methods' optional parameters applied. */
  function DataOf(op: Operation): (d: Option<Entries>)
    ensures d.Some? ==> DistinctKeys(d.value)
  {
    match op
    case RequestAuthorisation(name, info, desc) =>
      Some([("application_name", name), ("application_info", info),
            ("application_description", WithDefault(desc, Str("")))])
    case LogIn(login, password) => Some([("email", login), ("password", password)])
    case ShopItemPrices(cardType) => Some([("item_type", cardType)])
    case ShopCreateSellLot(card, price) => Some([("card", card), ("price", price)])
    case ShopCancelSellLot(cardType, price) => Some([("item_type", cardType), ("price", price)])
    case ShopCloseSellLot(cardType, price) => Some([("item_type", cardType), ("price", price)])
    case GetHeroInfo(turns, id) =>
      Some([("client_turns", WithDefault(turns, Null)), ("account_id", WithDefault(id, Null))])
    case CardCombine(card) => Some([("card", card)])
    case _ => None
  }

  /** The request an operation issues. */
  function CallOf(op: Operation): (c: Call)
    ensures c.uri == Registry.Descriptor(MethodOf(op)).url + QuerySuffix(Registry.Descriptor(MethodOf(op)))
    ensures c.data.Some? ==> DistinctKeys(c.data.value)
    ensures c.verb.Some? ==> c.verb.value == "GET" || c.verb.value == "POST"
  {
    Call(BuildBaseApiUrl(Registry.Descriptor(MethodOf(op)), None), VerbOf(op), DataOf(op))
  }

  /** The verb the request goes out with: only the literal `POST` gives a POST. */
  function EffectiveVerb(c: Call): string
  {
    if c.verb == Some("POST") then "POST" else "GET"
  }

  /** Where the table names a verb, the request goes out with exactly that verb. */
  lemma CallVerbAgreesWithTable(op: Operation)
    requires Registry.Descriptor(MethodOf(op)).verb.Some?
    ensures EffectiveVerb(CallOf(op)) == Registry.Descriptor(MethodOf(op)).verb.value
  {
  }

  /** The methods that change server state are the ones that POST. */
  lemma PostingOperations(op: Operation)
    ensures EffectiveVerb(CallOf(op)) == "POST" <==>
              op.RequestAuthorisation? || op.Logout? || op.LogIn? || op.ShopCreateSellLot?
              || op.ShopCancelSellLot? || op.ShopCloseSellLot? || op.SendHelp?
              || op.CardReceive? || op.CardCombine?
  {
  }

  /** `getHeroInfo()` with no arguments sends `null` for both fields. */
  lemma HeroInfoDefaults()
    ensures CallOf(GetHeroInfo(Undefined, Undefined)).data
            == Some([("client_turns", Null), ("account_id", Null)])
  {
  }

  /** `accountInfo()`: an immediate `{}` when there is no account id, else a request. */
  datatype Dispatch = Immediate(value: Value) | Send(call: Call)

  /** The parameter object `{accountId: this.accountId}`. */
  function AccountParams(a: Account): Entries
  {
    [("accountId", a.accountId)]
  }

  /** `accountInfo()` up to the request it issues. */
  function AccountInfo(a: Account): (r: Dispatch)
    ensures r.Immediate? ==> r.value == Obj(map[]) && !Truthy(a.accountId)
    ensures r.Send? ==> r.call.data.None?
  {
    if !Truthy(a.accountId) then Immediate(Obj(map[]))
    else
      var d := Registry.Descriptor(Registry.AccountInfo);
      Send(Call(BuildBaseApiUrl(d, Some(AccountParams(a))), d.verb, None))
  }

  /** No request is made exactly when the account id is falsy, and then the answer is `{}`. */
  lemma AccountInfoGuard(a: Account)
    ensures AccountInfo(a).Immediate? <==> !Truthy(a.accountId)
    ensures AccountInfo(a).Immediate? ==> AccountInfo(a).value == Obj(map[])
  {
  }

  /** With an account id, the request is a GET of that account's page. */
  lemma AccountInfoRequest(a: Account)
    requires Truthy(a.accountId)
    requires '$' !in ToString(a.accountId)
    ensures var d := Registry.Descriptor(Registry.AccountInfo);
            && AccountInfo(a).Send?
            && AccountInfo(a).call.uri == "/accounts/" + ToString(a.accountId) + "/api/show" + QuerySuffix(d)
            && AccountInfo(a).call.verb == Some("GET")
  {
    var d := Registry.Descriptor(Registry.AccountInfo);
    AccountInfoUrlShape();
    IntendedOneKeyAfterPrefix(d, "/accounts/", "accountId", a.accountId, "/api/show");
    assert AccountInfo(a) == Send(Call(BuildBaseApiUrl(d, Some([("accountId", a.accountId)])), d.verb, None));
  }

  /** A fresh client has no account id, so `accountInfo()` answers `{}` without a request. */
  lemma NewAccountInfoIsEmpty(host: string)
    ensures AccountInfo(NewAccount(host)) == Immediate(Obj(map[]))
  {
  }

  /**
   * The builder as written and the intended one agree on every URL the
   * client builds, since no call passes more than one placeholder key.
   */
  lemma ClientUrlsUnaffectedByReduceBug(op: Operation, a: Account)
    ensures CallOf(op).uri == BuildBaseApiUrlAsWritten(Registry.Descriptor(MethodOf(op)), None)
    ensures AccountInfo(a).Send? ==>
              AccountInfo(a).call.uri
              == BuildBaseApiUrlAsWritten(Registry.Descriptor(Registry.AccountInfo), Some(AccountParams(a)))
  {
    AsWrittenAgreesOnOneKey(Registry.Descriptor(MethodOf(op)), None);
    AsWrittenAgreesOnOneKey(Registry.Descriptor(Registry.AccountInfo), Some(AccountParams(a)));
  }
}
