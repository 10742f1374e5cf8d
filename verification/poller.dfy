/**
 * `waitPospondetTask(url)` (src/account.js:382-397): wait 300 ms, GET
 * `url + '?'`, decode; while the decoded `status` is `'processing'` wait
 * and poll again, otherwise resolve with the decoded body. The responses
 * the server gives are an input, in order; timers are left out and the
 * waiting time is counted instead.
 */
module Poller {
  import opened Optional
  import opened JsValues
  import opened Decoder
  import opened Session
  import opened Transport

  /** The delay before each poll, in milliseconds. */
  const PollInterval: nat := 300

  /**
   * How polling over a finite run of responses ends. `Stuck` is a poll
   * whose decoded body has no readable `status` (it is `null` or
   * `undefined`): the read throws inside the response handler, which
   * rejects nothing the caller holds, so the task never settles.
   * `Waiting` means every response so far was still processing.
   */
  datatype PollOutcome =
    | Resolved(data: Value, polls: nat)
    | Stuck(error: JsError, polls: nat)
    | Waiting(polls: nat)

  /** The decoded body says the task is still running. */
  predicate IsProcessing(data: Value)
  {
    GetProperty(data, "status") == Ok(Str("processing"))
  }

  /** The decoded body of every response, in order. */
  function Decoded(responses: seq<RawResponse>, parse: JsonParser): (ds: seq<Value>)
    ensures |ds| == |responses|
  {
    seq(|responses|, i requires 0 <= i < |responses| => ParseResponse(responses[i], parse))
  }

  /** The response handler, from the `i`-th decoded body on. */
  function Settle(ds: seq<Value>, i: nat): (o: PollOutcome)
    requires i <= |ds|
    ensures o.Waiting? ==> o.polls == |ds|
    ensures o.Resolved? ==> i < o.polls <= |ds| && o.data == ds[o.polls - 1] && !IsProcessing(o.data)
    ensures o.Stuck? ==> i < o.polls <= |ds| && GetProperty(ds[o.polls - 1], "status").Err?
    decreases |ds| - i
  {
    if i == |ds| then Waiting(i)
    else
      match GetProperty(ds[i], "status")
      case Err(e) => Stuck(e, i + 1)
      case Ok(status) =>
        if status == Str("processing") then Settle(ds, i + 1)
        else Resolved(ds[i], i + 1)
  }

  /** Polling from the first response. */
  function Poll(responses: seq<RawResponse>, parse: JsonParser): (o: PollOutcome)
    ensures o.Waiting? ==> o.polls == |responses|
    ensures o.Resolved? ==> 1 <= o.polls <= |responses| && !IsProcessing(o.data)
                            && o.data == ParseResponse(responses[o.polls - 1], parse)
  {
    var o := Settle(Decoded(responses, parse), 0);
    if o.Resolved? then DecodedAt(responses, parse, o.polls - 1); o else o
  }

  /** Time spent waiting before the outcome: one interval before every poll. */
  function Elapsed(o: PollOutcome): nat
  {
    PollInterval * o.polls
  }

  /** Every body before `k` says processing. */
  predicate ProcessingBefore(ds: seq<Value>, k: nat)
    requires k <= |ds|
  {
    forall i :: 0 <= i < k ==> IsProcessing(ds[i])
  }

  /** The run from `i` on resolves at poll `k` exactly when everything between is processing and poll `k` is not. */
  lemma {:induction false} SettleResolves(ds: seq<Value>, i: nat, data: Value, k: nat)
    requires i <= |ds|
    requires ProcessingBefore(ds, i)
    ensures Settle(ds, i) == Resolved(data, k) <==>
              && 1 <= k <= |ds|
              && ProcessingBefore(ds, k - 1)
              && data == ds[k - 1]
              && GetProperty(data, "status").Ok? && !IsProcessing(data)
    decreases |ds| - i
  {
    if i < |ds| {
      assert 1 <= k <= |ds| && ProcessingBefore(ds, k - 1) && i < k - 1 ==> IsProcessing(ds[i]);
      if IsProcessing(ds[i]) {
        SettleResolves(ds, i + 1, data, k);
      }
    } else {
      assert 1 <= k <= |ds| ==> IsProcessing(ds[k - 1]);
    }
  }

  /**
   * The first response whose status is anything but `'processing'`
   * resolves the task with its decoded body, after that many polls.
   */
  lemma FirstNonProcessingWins(responses: seq<RawResponse>, parse: JsonParser, data: Value, k: nat)
    ensures var ds := Decoded(responses, parse);
            Poll(responses, parse) == Resolved(data, k) <==>
              && 1 <= k <= |responses|
              && ProcessingBefore(ds, k - 1)
              && data == ParseResponse(responses[k - 1], parse)
              && GetProperty(data, "status").Ok? && !IsProcessing(data)
  {
    var ds := Decoded(responses, parse);
    assert Poll(responses, parse) == Settle(ds, 0);
    SettleResolves(ds, 0, data, k);
    if 1 <= k <= |responses| {
      DecodedAt(responses, parse, k - 1);
    }
  }

  /** The `j`-th decoded body is the decoder's answer to the `j`-th response. */
  lemma DecodedAt(responses: seq<RawResponse>, parse: JsonParser, j: nat)
    requires j < |responses|
    ensures Decoded(responses, parse)[j] == ParseResponse(responses[j], parse)
  {
  }

  /** While every response is still processing, the task keeps waiting, one poll per response. */
  lemma {:induction false} AllProcessingKeepsWaiting(ds: seq<Value>, i: nat)
    requires i <= |ds|
    requires forall j :: i <= j < |ds| ==> IsProcessing(ds[j])
    ensures Settle(ds, i) == Waiting(|ds|)
    decreases |ds| - i
  {
    if i < |ds| {
      assert IsProcessing(ds[i]);
      AllProcessingKeepsWaiting(ds, i + 1);
    }
  }

  /**
   * Two processing answers and then a finished one: the task resolves on
   * the third poll, after three intervals, with the third body.
   */
  lemma TwoProcessingThenDone(responses: seq<RawResponse>, parse: JsonParser, done: Value)
    requires |responses| == 3
    requires IsProcessing(ParseResponse(responses[0], parse))
    requires IsProcessing(ParseResponse(responses[1], parse))
    requires ParseResponse(responses[2], parse) == done
    requires GetProperty(done, "status").Ok? && !IsProcessing(done)
    ensures Poll(responses, parse) == Resolved(done, 3)
    ensures Elapsed(Poll(responses, parse)) == 900
  {
    var ds := Decoded(responses, parse);
    assert IsProcessing(ds[0]) && IsProcessing(ds[1]) && ds[2] == done;
    assert Settle(ds, 2) == Resolved(done, 3);
    assert Settle(ds, 1) == Resolved(done, 3);
  }

  /** The handler loop written out: poll, decode, stop at the first settled status. */
  method PollLoop(responses: seq<RawResponse>, parse: JsonParser) returns (o: PollOutcome)
    ensures o == Poll(responses, parse)
    ensures o.Resolved? ==> !IsProcessing(o.data) && 1 <= o.polls <= |responses|
    ensures o.Waiting? ==> o.polls == |responses|
  {
    ghost var ds := Decoded(responses, parse);
    var i := 0;
    while i < |responses|
      invariant 0 <= i <= |responses|
      invariant Settle(ds, i) == Settle(ds, 0)
      invariant ProcessingBefore(ds, i)
    {
      var data := ParseResponse(responses[i], parse);
      assert data == ds[i];
      var status := GetProperty(data, "status");
      if status.Err? {
        return Stuck(status.error, i + 1);
      }
      if status.value != Str("processing") {
        return Resolved(data, i + 1);
      }
      i := i + 1;
    }
    o := Waiting(i);
  }

  /** `url + '?'`: the status URL converted to text, then the separator the cache buster extends. */
  function PollUri(statusUrl: Value): string
  {
    ToString(statusUrl) + "?"
  }

  /**
   * `shopCloseSellLot`: the decoded response's `status_url` is the task to
   * poll; a body without readable properties throws instead.
   */
  function StatusUrlOf(closeResponse: RawResponse, parse: JsonParser): Result<Value, JsError>
  {
    GetProperty(ParseResponse(closeResponse, parse), "status_url")
  }

  /** Each poll is a GET of `url?&_=<now>`, with no body. */
  lemma PollRequestPath(a: Account, statusUrl: Value, now: int, draws: Draws, encode: Encoder)
    requires ValidRandomness(draws)
    requires encode([("_", Num(now))]) != ""
    ensures var o := SendRequest(a, PollUri(statusUrl), None, None, now, draws, encode);
            && o.path == ToString(statusUrl) + "?" + "&" + encode([("_", Num(now))])
            && o.httpMethod == "GET" && o.body.None?
  {
    assert RequestData("GET", [], now) == [("_", Num(now))];
  }

  /** A decoded object without `status_url`, or a text body, polls the text `undefined?`. */
  lemma MissingStatusUrlPollsUndefined(closeResponse: RawResponse, parse: JsonParser)
    requires var b := ParseResponse(closeResponse, parse);
             (b.Obj? && "status_url" !in b.fields) || b.Str?
    ensures StatusUrlOf(closeResponse, parse) == Ok(Undefined)
    ensures PollUri(Undefined) == "undefined?"
  {
  }
}
