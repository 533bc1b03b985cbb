/** Properties of the polling loop that relate several polls: how the
    interval evolves under slow_down, that waits never shrink, where
    cancellation is observed, and the worked example of a short session. */
module PollingProperties {

  import opened Wrappers
  import opened OAuth2
  import opened Errors
  import opened Polling

  function Pow2(k: nat): (p: nat)
    ensures p >= 1
  {
    if k == 0 then 1 else 2 * Pow2(k - 1)
  }

  /** Number of slow_down responses among `polls`. */
  function SlowDowns(polls: seq<Poll>): (n: nat)
    ensures n <= |polls|
  {
    if |polls| == 0 then 0
    else (if IsSlowDown(polls[0]) then 1 else 0) + SlowDowns(polls[1..])
  }

  lemma {:induction false} SlowDownsPrefixMonotone(polls: seq<Poll>, i: nat, j: nat)
    requires i <= j <= |polls|
    ensures SlowDowns(polls[..i]) <= SlowDowns(polls[..j])
    decreases i
  {
    if i > 0 {
      assert polls[..i][1..] == polls[1..][..i - 1];
      assert polls[..j][1..] == polls[1..][..j - 1];
      SlowDownsPrefixMonotone(polls[1..], i - 1, j - 1);
    }
  }

  lemma {:induction false} Pow2Monotone(a: nat, b: nat)
    requires a <= b
    ensures Pow2(a) <= Pow2(b)
    decreases b
  {
    if a < b {
      Pow2Monotone(a, b - 1);
    }
  }

  lemma DoublingStep(interval: int, slow: bool, k: nat)
    ensures (if slow then interval * 2 else interval) * Pow2(k) == interval * Pow2((if slow then 1 else 0) + k)
  {
    if slow {
      assert Pow2(1 + k) == 2 * Pow2(k);
      assert (interval * 2) * Pow2(k) == interval * (2 * Pow2(k));
    }
  }

  lemma SlowDownsOfPrefix(polls: seq<Poll>, i: nat)
    requires 1 <= i + 1 <= |polls|
    ensures SlowDowns(polls[..i + 1]) == (if IsSlowDown(polls[0]) then 1 else 0) + SlowDowns(polls[1..][..i])
  {
    assert polls[..i + 1][1..] == polls[1..][..i];
  }

  /** Unfolding one transient poll: the first wait uses the interval after
      that poll, and the rest of the run is the loop on the remaining polls. */
  lemma UnfoldTransient(request: FormValues, interval: int, polls: seq<Poll>)
    requires |polls| >= 1 && Transient(polls[0])
    ensures var next := if IsSlowDown(polls[0]) then interval * 2 else interval;
            var r := Loop(request, interval, polls);
            && r.waits[0] == next
            && (!polls[0].cancelledDuringWait ==> r.waits == [next] + Loop(request, next, polls[1..]).waits)
  {
    var q := Poll(polls[0].result, false);
    assert Transient(q) && IsSlowDown(q) == IsSlowDown(polls[0]);
  }

  /** The step of the induction below, stated over plain sequences. */
  lemma ConsWaits(interval: int, polls: seq<Poll>, waits: seq<int>, restWaits: seq<int>)
    requires |polls| >= 1 && |waits| <= |polls|
    requires waits == [if IsSlowDown(polls[0]) then interval * 2 else interval] + restWaits
    requires forall i :: 0 <= i < |restWaits| ==>
               restWaits[i] == waits[0] * Pow2(SlowDowns(polls[1..][..i + 1]))
    ensures forall i :: 0 <= i < |waits| ==> waits[i] == interval * Pow2(SlowDowns(polls[..i + 1]))
  {
    var slow := IsSlowDown(polls[0]);
    forall i | 0 <= i < |waits|
      ensures waits[i] == interval * Pow2(SlowDowns(polls[..i + 1]))
    {
      SlowDownsOfPrefix(polls, i);
      if i == 0 {
        assert polls[1..][..0] == [];
        DoublingStep(interval, slow, 0);
      } else {
        var k := SlowDowns(polls[1..][..i]);
        assert waits[i] == restWaits[i - 1] == waits[0] * Pow2(k);
        DoublingStep(interval, slow, k);
      }
    }
  }

  /** Each wait lasts the initial interval doubled once per slow_down seen so
      far (the poll that precedes the wait included); authorization_pending
      leaves the interval as it was. */
  lemma {:induction false} WaitIntervals(request: FormValues, interval: int, polls: seq<Poll>)
    ensures var r := Loop(request, interval, polls);
            forall i :: 0 <= i < |r.waits| ==> r.waits[i] == interval * Pow2(SlowDowns(polls[..i + 1]))
    decreases |polls|
  {
    var r := Loop(request, interval, polls);
    if |r.waits| > 0 {
      var p := polls[0];
      var next := if IsSlowDown(p) then interval * 2 else interval;
      assert Transient(p);
      UnfoldTransient(request, interval, polls);
      if p.cancelledDuringWait {
        ConsWaits(interval, polls, r.waits, []);
      } else {
        var rest := Loop(request, next, polls[1..]);
        WaitIntervals(request, next, polls[1..]);
        ConsWaits(interval, polls, r.waits, rest.waits);
      }
    }
  }

  /** One wait of `WaitIntervals`, by index. */
  lemma WaitAt(request: FormValues, interval: int, polls: seq<Poll>, i: nat)
    requires i < |Loop(request, interval, polls).waits|
    ensures i + 1 <= |polls|
    ensures Loop(request, interval, polls).waits[i] == interval * Pow2(SlowDowns(polls[..i + 1]))
  {
    var r := Loop(request, interval, polls);
    assert |r.waits| <= |polls| by {
      if r.outcome.Finished? && Transient(polls[|r.requests| - 1]) { }
    }
    WaitIntervals(request, interval, polls);
  }

  /** A code response without `interval` decodes it as 0: every wait is
      then 0, since doubling 0 on slow_down leaves it 0. */
  lemma ZeroIntervalNeverWaits(request: FormValues, polls: seq<Poll>)
    ensures forall i :: 0 <= i < |Loop(request, 0, polls).waits| ==> Loop(request, 0, polls).waits[i] == 0
  {
    forall i | 0 <= i < |Loop(request, 0, polls).waits|
      ensures Loop(request, 0, polls).waits[i] == 0
    {
      WaitAt(request, 0, polls, i);
    }
  }

  /** With a non-negative initial interval, no wait is shorter than the
      initial interval or than any earlier wait. */
  lemma WaitsNeverDecrease(request: FormValues, interval: int, polls: seq<Poll>)
    requires interval >= 0
    ensures var r := Loop(request, interval, polls);
            && (forall i :: 0 <= i < |r.waits| ==> interval <= r.waits[i])
            && (forall i, j :: 0 <= i <= j < |r.waits| ==> r.waits[i] <= r.waits[j])
  {
    var r := Loop(request, interval, polls);
    forall i, j | 0 <= i <= j < |r.waits|
      ensures r.waits[i] <= r.waits[j]
    {
      WaitAt(request, interval, polls, i);
      WaitAt(request, interval, polls, j);
      SlowDownsPrefixMonotone(polls, i + 1, j + 1);
      Pow2Monotone(SlowDowns(polls[..i + 1]), SlowDowns(polls[..j + 1]));
      MultiplyMonotone(interval, Pow2(SlowDowns(polls[..i + 1])), Pow2(SlowDowns(polls[..j + 1])));
    }
    forall i | 0 <= i < |r.waits|
      ensures interval <= r.waits[i]
    {
      WaitAt(request, interval, polls, i);
      MultiplyMonotone(interval, 1, Pow2(SlowDowns(polls[..i + 1])));
    }
  }

  lemma MultiplyMonotone(x: int, a: int, b: int)
    requires x >= 0 && a <= b
    ensures x * a <= x * b
  {
  }

  /** Cancellation is observed only during a wait: the flag on a poll that
      ends the loop by itself changes nothing. */
  lemma {:induction false} CancellationOnlyWhileWaiting(request: FormValues, interval: int, a: seq<Poll>, b: seq<Poll>)
    requires |a| == |b|
    requires forall i :: 0 <= i < |a| ==> a[i].result == b[i].result
    requires forall i :: 0 <= i < |a| && Transient(a[i]) ==> a[i].cancelledDuringWait == b[i].cancelledDuringWait
    ensures Loop(request, interval, a) == Loop(request, interval, b)
    decreases |a|
  {
    if |a| > 0 && Continues(a[0]) {
      var next := if IsSlowDown(a[0]) then interval * 2 else interval;
      CancellationOnlyWhileWaiting(request, next, a[1..], b[1..]);
    }
  }

  /** A run that reaches a terminal response performs no wait after it and
      sends no further request. */
  lemma NoWaitAfterTerminal(request: FormValues, interval: int, polls: seq<Poll>, k: nat)
    requires k < |polls| && !Transient(polls[k])
    requires forall i :: 0 <= i < k ==> Continues(polls[i])
    ensures var r := Loop(request, interval, polls);
            && r.outcome.Finished?
            && |r.requests| == k + 1
            && |r.waits| == k
  {
    var r := Loop(request, interval, polls);
    assert !Continues(polls[k]);
  }

  function Respond(error: string, token: Token): Poll
  {
    Poll(Decoded(AuthorizationResponse(token, error, "")), false)
  }

  /** A pending response at interval 5, then slow_down, then a token: the
      loop waits 5 then 10 seconds and returns the token without error. */
  lemma PendingSlowDownThenToken()
    ensures var tok := Token("tok123", "Bearer", "", 0);
            var polls := [Respond("authorization_pending", EmptyToken), Respond("slow_down", EmptyToken), Respond("", tok)];
            var r := Loop(map[], 5, polls);
            && r.outcome == Finished(tok, None)
            && r.waits == [5, 10]
            && |r.requests| == 3
  {
    var tok := Token("tok123", "Bearer", "", 0);
    var polls := [Respond("authorization_pending", EmptyToken), Respond("slow_down", EmptyToken), Respond("", tok)];
    var last := Loop(map[], 10, [Respond("", tok)]);
    assert Dispatch(10, Respond("", tok).result) == Stop(Finished(tok, None));
    assert last == Run(Finished(tok, None), [map[]], []);
    var second := Loop(map[], 5, polls[1..]);
    assert polls[1..] == [Respond("slow_down", EmptyToken), Respond("", tok)];
    assert polls[1..][1..] == [Respond("", tok)];
    assert Dispatch(5, Respond("slow_down", EmptyToken).result) == Continue(10);
    assert second == Run(Finished(tok, None), [map[], map[]], [10]);
    assert Dispatch(5, Respond("authorization_pending", EmptyToken).result) == Continue(5);
  }
}
