/**
 lib/util/util.go: waiting for a condition with growing intervals, in a model
 where time passes only while sleeping and while checking.  Times are in
 milliseconds after the call.
 */
module Waiting {
  import opened Text

  datatype Outcome = Met | NotMet | Broken

  /** What the `k`th check of the condition takes and says. */
  datatype Check = Check(duration: nat, outcome: Outcome)

  datatype Result = Done | Failed | TimedOut | Cancelled | BadIntervals

  datatype WaitTimeout = WaitTimeout(timeout: nat, minInterval: nat, maxInterval: nat, initialWait: bool)

  function Defaulted(t: WaitTimeout): WaitTimeout {
    t.(timeout := if t.timeout == 0 then 10_000 else t.timeout,
       minInterval := if t.minInterval == 0 then 10 else t.minInterval,
       maxInterval := if t.maxInterval == 0 then 500 else t.maxInterval)
  }

  function Min(a: nat, b: nat): nat {
    if a < b then a else b
  }

  function Pow2(k: nat): nat {
    if k == 0 then 1 else 2 * Pow2(k - 1)
  }

  /** The sleep before check `k`. */
  function Interval(t: WaitTimeout, k: nat): nat {
    if k == 0 then t.minInterval else Min(Interval(t, k - 1) * 2, t.maxInterval)
  }

  lemma {:induction false} IntervalsDouble(t: WaitTimeout, k: nat)
    requires t.minInterval <= t.maxInterval
    ensures Interval(t, k) == Min(t.minInterval * Pow2(k), t.maxInterval)
  {
    if k > 0 {
      IntervalsDouble(t, k - 1);
      assert t.minInterval * Pow2(k) == 2 * (t.minInterval * Pow2(k - 1));
      assert t.minInterval * Pow2(k - 1) >= 0;
    }
  }

  lemma {:induction false} IntervalsArePositive(t: WaitTimeout, k: nat)
    requires 0 < t.minInterval <= t.maxInterval
    ensures Interval(t, k) > 0
  {
    if k > 0 {
      IntervalsArePositive(t, k - 1);
    }
  }

  /** When the check after the ones begun at `starts` is due. */
  function NextDue(t: WaitTimeout, plan: nat -> Check, starts: seq<nat>): nat {
    if starts == [] then (if t.initialWait then Interval(t, 0) else 0)
    else
      var k := |starts| - 1;
      starts[k] + plan(k).duration + Interval(t, k + 1)
  }

  /** Every check began when it was due, none after the timeout, and all before the last said no. */
  ghost predicate OnSchedule(t: WaitTimeout, plan: nat -> Check, starts: seq<nat>) {
    && (forall k :: 0 <= k < |starts| ==> starts[k] == NextDue(t, plan, starts[..k]) && starts[k] <= t.timeout)
    && (forall k :: 0 <= k < |starts| - 1 ==> plan(k).outcome == NotMet)
  }

  ghost predicate AllNotMet(plan: nat -> Check, n: nat) {
    forall k :: 0 <= k < n ==> plan(k).outcome == NotMet
  }

  /** At the head of the loop: all checks so far said no, and the next one is due now or after the sleep. */
  ghost predicate Poised(t: WaitTimeout, plan: nat -> Check, starts: seq<nat>, now: nat, waiting: bool) {
    && OnSchedule(t, plan, starts) && AllNotMet(plan, |starts|)
    && (waiting <==> starts != [] || t.initialWait)
    && NextDue(t, plan, starts) == now + (if waiting then Interval(t, |starts|) else 0)
    && (starts == [] ==> now == 0)
  }

  lemma Checked(t: WaitTimeout, plan: nat -> Check, starts: seq<nat>, due: nat)
    requires OnSchedule(t, plan, starts) && AllNotMet(plan, |starts|)
    requires due == NextDue(t, plan, starts) && due <= t.timeout
    ensures OnSchedule(t, plan, starts + [due])
    ensures plan(|starts|).outcome == NotMet ==> Poised(t, plan, starts + [due], due + plan(|starts|).duration, true)
  {
    var more := starts + [due];
    forall k | 0 <= k < |more|
      ensures more[k] == NextDue(t, plan, more[..k]) && more[k] <= t.timeout
    {
      assert more[..k] == starts[..k];
      assert starts[..|starts|] == starts;
    }
  }

  /**
   One wait: whichever of the sleep, the cancellation and the timeout comes
   first wins, and any of them when several come at once.
   */
  method Sleep(due: nat, now: nat, timeout: nat, cancel: Option<nat>) returns (result: Option<Result>)
    requires due >= now
    ensures result in {None, Some(TimedOut), Some(Cancelled)}
    ensures result == None ==> due <= timeout || due == now
    ensures result == Some(TimedOut) ==> due >= timeout
    ensures result == Some(Cancelled) ==> cancel.Some? && (cancel.value <= due || due == now)
  {
    var stop := if timeout < now then now else timeout;
    var done := if cancel.None? then due + stop + 1 else if cancel.value < now then now else cancel.value;
    if
    case due <= stop && due <= done => result := None;
    case stop <= due && stop <= done => result := Some(TimedOut);
    case done <= due && done <= stop => result := Some(Cancelled);
  }

  /** The check times `starts` are the condition calls; `plan` says how each of them went. */
  method WaitFor(asked: WaitTimeout, plan: nat -> Check, cancel: Option<nat>) returns (result: Result, starts: seq<nat>)
    ensures var t := Defaulted(asked);
      && (result.BadIntervals? <==> t.minInterval > t.maxInterval)
      && (result.BadIntervals? ==> starts == [])
      && (!result.BadIntervals? ==> OnSchedule(t, plan, starts) && (starts == [] ==> t.initialWait))
      && (result.Done? ==> starts != [] && plan(|starts| - 1).outcome == Met)
      && (result.Failed? ==> starts != [] && plan(|starts| - 1).outcome == Broken)
      && (result.TimedOut? ==> AllNotMet(plan, |starts|) && NextDue(t, plan, starts) >= t.timeout)
      && (result.Cancelled? ==> AllNotMet(plan, |starts|) && cancel.Some?)
  {
    var t := Defaulted(asked);
    starts := [];
    if t.minInterval > t.maxInterval {
      return BadIntervals, [];
    }
    var interval := t.minInterval;
    var now := 0;
    var waitForTimer := t.initialWait;
    while true
      invariant Poised(t, plan, starts, now, waitForTimer)
      invariant interval == Interval(t, |starts|) > 0
      decreases t.timeout - now, !waitForTimer
    {
      if waitForTimer {
        var woken := Sleep(now + interval, now, t.timeout, cancel);
        if woken.Some? {
          return woken.value, starts;
        }
        now := now + interval;
      }
      waitForTimer := true;
      Checked(t, plan, starts, now);
      starts := starts + [now];
      var check := plan(|starts| - 1);
      now := now + check.duration;
      if check.outcome == Broken {
        return Failed, starts;
      }
      if check.outcome == Met {
        return Done, starts;
      }
      IntervalsArePositive(t, |starts|);
      interval := Min(interval * 2, t.maxInterval);
    }
  }

  // ------------------------------------ writeStabilize, after the text is typed

  const PROCESS_TIMEOUT := 15_000
  const RETURN_EVERY := 3_000
  const PROCESSING := WaitTimeout(PROCESS_TIMEOUT, 25, 0, false)

  /** The checks that send a carriage return: the first, and then those 3 s after the last sent. */
  function Returns(starts: seq<nat>): seq<nat> {
    if starts == [] then []
    else
      var sent, now := Returns(starts[..|starts| - 1]), starts[|starts| - 1];
      if sent == [] || now - sent[|sent| - 1] >= RETURN_EVERY then sent + [now] else sent
  }

  lemma {:induction false} ReturnsAreSpaced(starts: seq<nat>)
    ensures var sent := Returns(starts);
      && (sent == [] <==> starts == [])
      && (sent != [] ==> sent[0] == starts[0])
      && (forall i :: 0 <= i < |sent| - 1 ==> sent[i + 1] - sent[i] >= RETURN_EVERY)
      && (forall i :: 0 <= i < |sent| ==> sent[i] in starts)
  {
    if starts != [] {
      var before := starts[..|starts| - 1];
      ReturnsAreSpaced(before);
      assert forall x :: x in before ==> x in starts;
    }
  }

  lemma {:induction false} SpacedReach(sent: seq<nat>, i: nat)
    requires i < |sent|
    requires forall k :: 0 <= k < |sent| - 1 ==> sent[k + 1] - sent[k] >= RETURN_EVERY
    ensures sent[i] >= RETURN_EVERY * i
  {
    if i > 0 {
      SpacedReach(sent, i - 1);
      assert sent[(i - 1) + 1] - sent[i - 1] >= RETURN_EVERY;
    }
  }

  /** At most six carriage returns per message, three seconds apart or more, the first at once. */
  lemma FewReturns(plan: nat -> Check, starts: seq<nat>)
    requires OnSchedule(Defaulted(PROCESSING), plan, starts)
    ensures var sent := Returns(starts);
      && |sent| <= 6
      && (starts != [] ==> sent != [] && sent[0] == 0)
      && (forall i :: 0 <= i < |sent| - 1 ==> sent[i + 1] - sent[i] >= RETURN_EVERY)
  {
    var sent := Returns(starts);
    ReturnsAreSpaced(starts);
    if starts != [] {
      assert starts[0] == NextDue(Defaulted(PROCESSING), plan, starts[..0]);
      var last := |sent| - 1;
      SpacedReach(sent, last);
      assert sent[last] in starts;
    }
  }

  /** The condition's own memory over its calls. */
  method CarriageReturns(starts: seq<nat>) returns (sent: seq<nat>)
    ensures sent == Returns(starts)
  {
    sent := [];
    var lastCarriageReturnTime: Option<nat> := None;  // the zero time is long ago
    assert starts[..|starts|] == starts;
    for i := 0 to |starts|
      invariant sent == Returns(starts[..i])
      invariant lastCarriageReturnTime == if sent == [] then None else Some(sent[|sent| - 1])
    {
      assert starts[..i + 1][..i] == starts[..i];
      if lastCarriageReturnTime.None? || starts[i] - lastCarriageReturnTime.value >= RETURN_EVERY {
        lastCarriageReturnTime := Some(starts[i]);
        sent := sent + [starts[i]];
      }
    }
  }

  /**
   Phase 2: wait for the agent to react; on timeout the message has failed.
   `starts` are the checks made, `sent` those of them that sent a carriage
   return.
   */
  method AwaitProcessing(plan: nat -> Check, cancel: Option<nat>) returns (ok: bool, sent: seq<nat>, starts: seq<nat>)
    ensures starts != [] && OnSchedule(Defaulted(PROCESSING), plan, starts) && sent == Returns(starts)
    ensures |sent| <= 6 && sent != [] && sent[0] == 0
    ensures forall i :: 0 <= i < |sent| - 1 ==> sent[i + 1] - sent[i] >= RETURN_EVERY
    ensures ok ==> plan(|starts| - 1).outcome == Met
    ensures !ok && cancel.None? && plan(|starts| - 1).outcome != Broken ==>
      AllNotMet(plan, |starts|) && NextDue(Defaulted(PROCESSING), plan, starts) >= PROCESS_TIMEOUT
  {
    var result;
    result, starts := WaitFor(PROCESSING, plan, cancel);
    FewReturns(plan, starts);
    sent := CarriageReturns(starts);
    ok := result.Done?;
  }
}
