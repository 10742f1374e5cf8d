/** The client's table of API methods: path template, API version and, for some, the HTTP verb. */
module Registry {
  import opened Optional

  /** The value of the `api_client` query parameter on every request. */
  const ClientName: string := "CrazyNigerHACS-1.0"

  /** The common prefix of the third-party authorisation endpoints. */
  const ThirdPartyTokensApi: string := "/accounts/third-party/tokens/api/"

  /** One entry of the table; `verb` is `None` where the entry names no verb. */
  datatype MethodDescriptor = MethodDescriptor(version: string, verb: Option<string>, url: string)

  datatype MethodName =
    | GameInfo
    | AuthRequest
    | AuthState
    | AuthLogout
    | AccountInfo
    | NewMessagesNumber
    | Login
    | ShopInfo
    | ShopItemPrices
    | ShopCreateSellLot
    | ShopCancelSellLot
    | ShopCloseSellLot
    | HeroInfo
    | SendHelp
    | CardGet
    | CardReceive
    | CardCombine

  /** The table. Every path is absolute; the verbs it names are GET and POST. */
  function Descriptor(name: MethodName): (d: MethodDescriptor)
    ensures 1 <= |d.url| && d.url[0] == '/'
    ensures d.verb.Some? ==> d.verb.value == "GET" || d.verb.value == "POST"
    ensures d.verb.Some? <==> name in {AuthRequest, AuthState, AuthLogout, AccountInfo, NewMessagesNumber, HeroInfo}
  {
    match name
    case GameInfo => MethodDescriptor("1.0", None, "/api/info")
    case AuthRequest => MethodDescriptor("1.0", Some("POST"), ThirdPartyTokensApi + "request-authorisation")
    case AuthState => MethodDescriptor("1.0", Some("GET"), ThirdPartyTokensApi + "authorisation-state")
    case AuthLogout => MethodDescriptor("1.0", Some("POST"), "/accounts/auth/api/logout")
    case AccountInfo => MethodDescriptor("1.0", Some("GET"), "/accounts/%accountId%/api/show")
    case NewMessagesNumber => MethodDescriptor("1.0", Some("GET"), "/accounts/messages/api/new-messages-number")
    case Login => MethodDescriptor("1.0", None, "/accounts/auth/api/login")
    case ShopInfo => MethodDescriptor("0.0", None, "/shop/info")
    case ShopItemPrices => MethodDescriptor("0.0", None, "/shop/item-type-prices")
    case ShopCreateSellLot => MethodDescriptor("0.0", None, "/shop/create-sell-lot")
    case ShopCancelSellLot => MethodDescriptor("0.0", None, "/shop/cancel-sell-lot")
    case ShopCloseSellLot => MethodDescriptor("0.0", None, "/shop/close-sell-lot")
    case HeroInfo => MethodDescriptor("1.9", Some("GET"), "/game/api/info")
    case SendHelp => MethodDescriptor("1.0", None, "/game/abilities/help/api/use")
    case CardGet => MethodDescriptor("2.0", None, "/game/cards/api/get-cards")
    case CardReceive => MethodDescriptor("1.0", None, "/game/cards/api/receive")
    case CardCombine => MethodDescriptor("2.0", None, "/game/cards/api/combine")
  }
}
