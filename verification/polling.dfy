/** auth.go WaitForAuthorization: the polling loop of the OAuth 2.0 Device
    Authorization Grant (sections 3.4 and 3.5 of RFC 8628).

    The network is replaced by a finite script.  Each `Poll` is what one
    token request returned (a decoded response, or a JSON decode failure)
    together with whether the caller's context fires during the wait that
    would follow it.  The loop consumes polls from the front and stops at the
    first terminal one; if the script runs out while the source would still
    be polling, the run ends as `StillPolling`.

    A transport failure in the generic postForm is not one of the modelled
    poll results: that function discards the error from client.Do and reads
    response.StatusCode regardless (auth.go:162-164); the error variable is
    then overwritten by the decoder's result (auth.go:167), so a failed
    request dereferences a nil response instead of returning the error. */
module Polling {

  import opened Wrappers
  import opened OAuth2
  import opened Errors
  import opened Auth

  /** authorizationResponse: a token plus the error fields of the body. */
  datatype AuthorizationResponse = AuthorizationResponse(
    token: Token,
    error: string,
    errorDescription: string)

  /** One postForm result.  On a decode failure the source still returns
      whatever the decoder had filled in, kept here as `partial`. */
  datatype PollResult =
    | Decoded(response: AuthorizationResponse)
    | DecodeFailed(partial: Token, reason: string)

  datatype Poll = Poll(result: PollResult, cancelledDuringWait: bool)

  /** The switch on token.Error. */
  datatype Signal = Granted | Pending | SlowDown | Denied | Failed(code: string)

  function Classify(error: string): (s: Signal)
    ensures s == Granted <==> error == ""
    ensures s == Pending <==> error == "authorization_pending"
    ensures s == SlowDown <==> error == "slow_down"
    ensures s == Denied <==> error == "access_denied"
    ensures s.Failed? ==> s.code == error
  {
    if error == "" then Granted
    else if error == "authorization_pending" then Pending
    else if error == "slow_down" then SlowDown
    else if error == "access_denied" then Denied
    else Failed(error)
  }

  /** A poll after which the source waits: pending or slow_down. */
  predicate Transient(p: Poll)
  {
    p.result.Decoded? && (p.result.response.error == "authorization_pending" || p.result.response.error == "slow_down")
  }

  /** A poll after which the source waits the full interval and polls again. */
  predicate Continues(p: Poll)
  {
    Transient(p) && !p.cancelledDuringWait
  }

  predicate IsSlowDown(p: Poll)
  {
    p.result.Decoded? && p.result.response.error == "slow_down"
  }

  /** How the loop ends, stated by the error strings alone: the reference
      reading of the protocol's terminal responses. */
  predicate SettlesAs(p: Poll, o: Outcome)
  {
    match p.result
    case DecodeFailed(partial, reason) => o == Finished(partial, Some(ResponseDecode(reason)))
    case Decoded(resp) =>
      && o.Finished?
      && o.token == resp.token
      && (if resp.error == "" then o.err == None
          else if resp.error == "access_denied" then o.err == Some(AccessDenied)
          else if resp.error == "authorization_pending" || resp.error == "slow_down"
          then p.cancelledDuringWait && o.err == Some(ContextDone)
          else o.err == Some(AuthorizationFailed(resp.error)))
  }

  /** `Finished` is a return from WaitForAuthorization (token, error);
      `StillPolling` means the script ended while the loop was waiting to
      poll again with the given interval. */
  datatype Outcome = Finished(token: Token, err: Option<Error>) | StillPolling(interval: int)

  /** A run: how it ended, the form bodies sent (one per token request, in
      order), and the length in seconds of every wait begun (in order; the
      last one is cut short when the context fires). */
  datatype Run = Run(outcome: Outcome, requests: seq<FormValues>, waits: seq<int>)

  /** What the loop does after one poll: stop with an outcome, or wait
      `next` seconds and poll again. */
  datatype Step = Stop(outcome: Outcome) | Continue(next: int)

  /** One poll of auth.go:92-110: a decode failure returns at once, then the
      switch on the error string; slow_down doubles the interval. */
  function Dispatch(interval: int, result: PollResult): (s: Step)
    ensures s.Continue? <==> Transient(Poll(result, false))
    ensures s.Continue? ==> s.next == if IsSlowDown(Poll(result, false)) then interval * 2 else interval
    ensures s.Stop? ==> SettlesAs(Poll(result, false), s.outcome)
  {
    match result
    case DecodeFailed(partial, reason) => Stop(Finished(partial, Some(ResponseDecode(reason))))
    case Decoded(resp) =>
      match Classify(resp.error)
      case Granted => Stop(Finished(resp.token, None))
      case Pending => Continue(interval)
      case SlowDown => Continue(interval * 2)
      case Denied => Stop(Finished(resp.token, Some(AccessDenied)))
      case Failed(code) => Stop(Finished(resp.token, Some(AuthorizationFailed(code))))
  }

  /** The loop of auth.go:91-118, one poll at a time.  `interval` is the
      loop's copy of code.Interval.  After a pending or slow_down poll the
      select at auth.go:112-117 either sees the context fire during the wait
      or lets the loop poll again. */
  function Loop(request: FormValues, interval: int, polls: seq<Poll>): (r: Run)
    decreases |polls|
    ensures |r.requests| <= |polls|
    ensures forall i :: 0 <= i < |r.requests| ==> r.requests[i] == request
    ensures r.outcome.StillPolling? <==> forall i :: 0 <= i < |polls| ==> Continues(polls[i])
    ensures r.outcome.StillPolling? ==> |r.requests| == |polls| == |r.waits|
    ensures r.outcome.Finished? ==>
              && 1 <= |r.requests|
              && (forall i :: 0 <= i < |r.requests| - 1 ==> Continues(polls[i]))
              && !Continues(polls[|r.requests| - 1])
              && SettlesAs(polls[|r.requests| - 1], r.outcome)
              && |r.waits| == (if Transient(polls[|r.requests| - 1]) then |r.requests| else |r.requests| - 1)
  {
    if |polls| == 0 then Run(StillPolling(interval), [], [])
    else
      var p := polls[0];
      match Dispatch(interval, p.result)
      case Stop(outcome) => Run(outcome, [request], [])
      case Continue(next) =>
        if p.cancelledDuringWait then
          Run(Finished(p.result.response.token, Some(ContextDone)), [request], [next])
        else
          var rest := Loop(request, next, polls[1..]);
          Run(rest.outcome, [request] + rest.requests, [next] + rest.waits)
  }

  /** WaitForAuthorization(ctx, code): every request sent is the same
      waitValues body for the code's device code. */
  function WaitForAuthorization(a: Authorizer, code: Code, polls: seq<Poll>): (r: Run)
    ensures forall i :: 0 <= i < |r.requests| ==> r.requests[i] == WaitValues(a.config, code.deviceCode)
    ensures |polls| >= 1 ==> |r.requests| >= 1
    ensures r.outcome.Finished? ==> 1 <= |r.requests| <= |polls| && SettlesAs(polls[|r.requests| - 1], r.outcome)
  {
    Loop(WaitValues(a.config, code.deviceCode), code.interval, polls)
  }
}
