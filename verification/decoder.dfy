/**
 * Responses as the transport hands them over, and `parseResponse`
 * (src/account.js:143-153): decode the body as JSON when the content type
 * says so, otherwise (or when decoding fails) keep the raw text.
 */
module Decoder {
  import opened Optional
  import opened JsStrings
  import opened JsValues

  /** The two response headers the client reads; `None` is a header the server did not send. */
  datatype Headers = Headers(contentType: Option<string>, setCookie: Option<seq<string>>)

  /** `{headers, body}` as resolved by the transport, the body decoded as UTF-8 text. */
  datatype RawResponse = RawResponse(headers: Headers, body: string)

  /** A JSON decoder: `None` where `JSON.parse` throws. */
  type JsonParser = string -> Option<Value>

  /**
   * `/json/.test(contentType)`: the regular expression tests the header's
   * string conversion, so a missing header tests the text `undefined`.
   */
  predicate IsJson(contentType: Option<string>)
  {
    Contains(match contentType case None => "undefined" case Some(t) => t, "json")
  }

  /** The content type selects JSON exactly when it holds `json` somewhere, case-sensitively. */
  lemma IsJsonIff(contentType: Option<string>)
    ensures IsJson(contentType) <==>
              contentType.Some? && exists i: nat :: MatchesAt(contentType.value, "json", i)
  {
    if contentType.None? {
      AbsentFirstChar("undefined", "json");
    }
  }

  /** `parseResponse(response)`. */
  function ParseResponse(response: RawResponse, parse: JsonParser): (v: Value)
    ensures !IsJson(response.headers.contentType) ==> v == Str(response.body)
    ensures IsJson(response.headers.contentType) && parse(response.body).None? ==> v == Str(response.body)
    ensures IsJson(response.headers.contentType) && parse(response.body).Some? ==> v == parse(response.body).value
  {
    if IsJson(response.headers.contentType) then
      match parse(response.body)
      case Some(decoded) => decoded
      case None => Str(response.body)
    else Str(response.body)
  }

  /** The result is the raw body or the decoder's value for it, never anything else. */
  lemma ParseResponseBodyOrDecoded(response: RawResponse, parse: JsonParser)
    ensures var v := ParseResponse(response, parse);
            v == Str(response.body) || parse(response.body) == Some(v)
  {
  }

  /** A missing content type never selects JSON, whatever the body. */
  lemma MissingContentTypeKeepsBody(body: string, setCookie: Option<seq<string>>, parse: JsonParser)
    ensures ParseResponse(RawResponse(Headers(None, setCookie), body), parse) == Str(body)
  {
    AbsentFirstChar("undefined", "json");
  }

  /** The JSON content types the server sends select the decoder. */
  lemma JsonContentTypeDecodes(parameters: string)
    ensures IsJson(Some("application/json" + parameters))
  {
    var t := "application/json" + parameters;
    assert t[12..16] == "json";
    assert MatchesAt(t, "json", 12);
  }

  /** The match is case-sensitive: an upper-case `JSON` keeps the raw body. */
  lemma UpperCaseJsonKeepsBody()
    ensures !IsJson(Some("application/JSON"))
  {
    AbsentFirstChar("application/JSON", "json");
  }
}
