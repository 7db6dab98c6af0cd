/**
 The response interceptor of the API service: an HTTP 429 answer is
 retried after the server's `retry_after` (60 seconds when absent or 0)
 by submitting the same request again through the request interceptor;
 every other failure is rejected unchanged.
 */
module ThrottleRetry {
  import opened Text
  import RequestGovernor

  /** Status of a throttling answer. */
  const TooManyRequests: int := 429
  /** Seconds to wait when the answer carries no usable `retry_after`. */
  const DefaultRetryAfter: int := 60

  /** An HTTP error answer: its status and the `retry_after` field of its
      JSON body, in seconds. */
  datatype ErrorResponse = ErrorResponse(status: int, retryAfter: Option<int>)

  /** A failed request. `response` is absent when no answer arrived at all
      (a transport failure or a timeout). */
  datatype RequestError = RequestError(response: Option<ErrorResponse>)

  /** What the response interceptor does with a failure. */
  datatype Handling =
    | Resubmit(delayMs: int)     // wait, then `api.request(error.config)`
    | Reject(error: RequestError) // `Promise.reject(error)`

  /** The answer to one submission of a request. */
  datatype Answer = Success | Failed(error: RequestError)

  predicate IsThrottled(e: RequestError) {
    e.response.Some? && e.response.value.status == TooManyRequests
  }

  /** `retry_after || 60`: an absent field and 0 are both falsy. */
  function RetryAfterSeconds(retryAfter: Option<int>): int {
    match retryAfter
    case Some(s) => if s != 0 then s else DefaultRetryAfter
    case None => DefaultRetryAfter
  }

  /** The error branch of the response interceptor. */
  function OnResponseError(e: RequestError): (h: Handling)
    ensures h.Resubmit? <==> IsThrottled(e)
    ensures h.Reject? ==> h.error == e
    ensures h.Resubmit? && e.response.value.retryAfter in {None, Some(0)} ==> h.delayMs == 60000
    ensures h.Resubmit? && e.response.value.retryAfter.Some? && e.response.value.retryAfter.value != 0 ==>
              h.delayMs == e.response.value.retryAfter.value * 1000
  {
    if IsThrottled(e) then Resubmit(RetryAfterSeconds(e.response.value.retryAfter) * 1000)
    else Reject(e)
  }

  /** After the wait, the retried request enters the request interceptor
      like any new request; a rejected failure leaves the governor alone. */
  function AfterError(g: RequestGovernor.Governor, id: RequestGovernor.RequestId, e: RequestError)
    : (r: RequestGovernor.Governor)
    ensures !IsThrottled(e) ==> r == g
    ensures IsThrottled(e) && g.count < RequestGovernor.MaxRequests ==>
              r.dispatched == g.dispatched + [RequestGovernor.Dispatch(id, g.now)] && r.queue == g.queue
    ensures IsThrottled(e) && g.count >= RequestGovernor.MaxRequests ==>
              r.dispatched == g.dispatched && r.queue == g.queue + [id]
  {
    match OnResponseError(e)
    case Resubmit(_) => RequestGovernor.OnArrive(g, id)
    case Reject(_) => g
  }

  /** The retried request is subject to the governor's invariant like any
      other: it neither exceeds the ceiling nor overtakes queued requests. */
  lemma AfterErrorKeepsInv(g: RequestGovernor.Governor, id: RequestGovernor.RequestId, e: RequestError)
    requires RequestGovernor.Inv(g)
    ensures RequestGovernor.Inv(AfterError(g, id, e))
    ensures RequestGovernor.Ids(AfterError(g, id, e).dispatched) + AfterError(g, id, e).queue ==
              RequestGovernor.Ids(g.dispatched) + g.queue + (if IsThrottled(e) then [id] else [])
  {
    if IsThrottled(e) {
      RequestGovernor.ArrivePreservesInv(g, id);
    }
  }

  /** How a request ends when the server gives the successive `answers`
      to its submissions. */
  datatype Settlement =
    | Settled(answer: Answer, attempts: nat, delays: seq<int>)
    | StillThrottled(attempts: nat, delays: seq<int>)

  /** Follows the retry chain over the server's successive answers. The
      chain is unbounded in the source; here it is bounded by the number of
      answers supplied. */
  function Settle(answers: seq<Answer>): (r: Settlement)
    ensures r.attempts <= |answers|
    ensures r.Settled? ==>
              && r.attempts >= 1
              && answers[r.attempts - 1] == r.answer
              && (r.answer.Failed? ==> !IsThrottled(r.answer.error))
    ensures r.StillThrottled? ==> r.attempts == |answers|
    ensures forall i :: 0 <= i < r.attempts - 1 || (r.StillThrottled? && 0 <= i < r.attempts) ==>
              answers[i].Failed? && IsThrottled(answers[i].error)
    ensures |r.delays| == (if r.Settled? then r.attempts - 1 else r.attempts)
    ensures forall i :: 0 <= i < |r.delays| ==>
              answers[i].Failed? && r.delays[i] == OnResponseError(answers[i].error).delayMs
  {
    if |answers| == 0 then StillThrottled(0, [])
    else match answers[0]
      case Success => Settled(Success, 1, [])
      case Failed(e) =>
        match OnResponseError(e)
        case Reject(_) => Settled(answers[0], 1, [])
        case Resubmit(d) =>
          var rest := Settle(answers[1..]);
          match rest
          case Settled(a, n, ds) => Settled(a, n + 1, [d] + ds)
          case StillThrottled(n, ds) => StillThrottled(n + 1, [d] + ds)
  }

  /** A throttled request whose server says `retry_after = 5` and then
      accepts it is resubmitted once, 5000 ms later. */
  lemma RetryAfterFiveSeconds()
    ensures Settle([Failed(RequestError(Some(ErrorResponse(429, Some(5))))), Success])
              == Settled(Success, 2, [5000])
  {
  }
}
