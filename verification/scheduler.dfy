/** The trigger scheduler and submission loop of `PlaceOrder`
    (RestClient.py:96-201).

    An order waits for its trigger instant, judged by the rectified clock.
    A single-shot observe timer re-checks the countdown: far from the
    trigger it re-arms at two thirds of the countdown, within five minutes
    at the full countdown, and below one second it fires: one request at
    once, then one per tick of a periodic request timer until a reply
    accepts the order.

    The two Qt timers are modelled by an "active" flag each (and the observe
    timer's interval); each request sent is recorded by the timestamp it is
    signed with. */
module Scheduler {
  import opened Wrappers
  import opened Dict
  import Decimal
  import Clock
  import Exchange

  /** Below this countdown the order fires. */
  const FireThresholdMs := 1000
  /** Below this countdown the next check is armed at the full countdown. */
  const NearThresholdMs := 300_000

  /** What one `_on_check_time` does. */
  datatype Check = Fire | Recheck(intervalMs: int)

  /** The three-way rule of `_on_check_time` for a countdown. A re-check
      is always armed strictly in the future and never after the trigger. */
  function CheckDecision(countdownMs: int): (d: Check)
    ensures d.Fire? <==> countdownMs < FireThresholdMs
    ensures FireThresholdMs <= countdownMs < NearThresholdMs ==> d == Recheck(countdownMs)
    ensures NearThresholdMs <= countdownMs ==>
              d.Recheck? && 3 * d.intervalMs <= 2 * countdownMs < 3 * d.intervalMs + 3
    ensures d.Recheck? ==> 0 < d.intervalMs <= countdownMs
    ensures NearThresholdMs <= countdownMs ==> d.intervalMs < countdownMs
  {
    if countdownMs < FireThresholdMs then Fire
    else if countdownMs < NearThresholdMs then Recheck(countdownMs)
    else Recheck(countdownMs * 2 / 3)
  }

  /** The countdown at which the order fires when every re-check happens
      exactly when armed and the clock does not drift. */
  function DriftFreeFiringCountdown(countdownMs: int): int
    decreases if countdownMs < 0 then 0 else countdownMs
  {
    match CheckDecision(countdownMs)
    case Fire => countdownMs
    case Recheck(i) => DriftFreeFiringCountdown(countdownMs - i)
  }

  /** Without drift, an order whose first check is at least a second early
      fires exactly at countdown zero: at the trigger less the delay
      estimate, never before it and never late. */
  lemma {:induction false} DriftFreeFiresOnTime(countdownMs: int)
    requires countdownMs >= FireThresholdMs
    ensures DriftFreeFiringCountdown(countdownMs) == 0
    decreases countdownMs
  {
    var i := CheckDecision(countdownMs).intervalMs;
    if countdownMs < NearThresholdMs {
      assert countdownMs - i == 0;
    } else {
      assert countdownMs - i >= FireThresholdMs;
      DriftFreeFiresOnTime(countdownMs - i);
    }
  }

  /** The two timers and the requests sent so far. */
  datatype Timers = Timers(requestActive: bool, observeActive: bool, observeIntervalMs: int, submissions: seq<int>)

  /** The timers after one `_on_check_time`, given the countdown and the
      timestamp a request sent now would be signed with. */
  function AfterCheck(t: Timers, countdownMs: int, stamp: int): (r: Timers)
    ensures countdownMs < FireThresholdMs ==>
              r.requestActive && r.submissions == t.submissions + [stamp] && r.observeActive == t.observeActive
    ensures countdownMs >= FireThresholdMs ==>
              r.observeActive && 0 < r.observeIntervalMs <= countdownMs
              && r.submissions == t.submissions && r.requestActive == t.requestActive
  {
    match CheckDecision(countdownMs)
    case Fire => t.(requestActive := true, submissions := t.submissions + [stamp])
    case Recheck(i) => t.(observeActive := true, observeIntervalMs := i)
  }

  /** What `place_order` returned: it raised because the order was already
      placed, it returned False because the trigger had passed, or True. */
  datatype PlaceResult = AlreadyPlaced | PastTrigger | Placed

  class PlaceOrder {
    /** The clock this client inherits from `RestClient`. */
    const clock: Clock.ClockSync
    const symbol: string
    const price: string
    const quantity: string
    const intervalMs: int
    /** `trigger_datetime` in ms since the epoch; None while it is the
        invalid default that means "start immediately". */
    var trigger: Option<int>
    var params: Option<Dict>
    var requestTimerActive: bool
    var observeTimerActive: bool
    var observeIntervalMs: int
    var orders: seq<int>
    var succeedCount: nat
    var failedCount: nat
    var errorCodes: seq<int>
    /** The signed timestamp of every request sent, in order. */
    var submissions: seq<int>
    /** How many of those requests have been answered. */
    ghost var replied: nat

    ghost predicate Valid()
      reads this
    {
      && succeedCount == |orders|
      && |errorCodes| <= failedCount
      && succeedCount + failedCount <= replied <= |submissions|
      && (params.None? ==> submissions == [] && !requestTimerActive && !observeTimerActive)
      && (params.Some? ==> params.value == Exchange.LimitOrderParams(Exchange.Buy, symbol, price, quantity))
      && (requestTimerActive || observeTimerActive || submissions != [] ==> trigger.Some?)
      && (trigger.Some? ==> forall i :: 0 <= i < |submissions| ==> submissions[i] >= trigger.value)
    }

    function TimersNow(): Timers
      reads this
    {
      Timers(requestTimerActive, observeTimerActive, observeIntervalMs, submissions)
    }

    constructor (clock: Clock.ClockSync, symbol: string, price: string, quantity: string,
                 intervalMs: int, trigger: Option<int>)
      ensures Valid()
      ensures this.clock == clock && this.symbol == symbol && this.price == price
      ensures this.quantity == quantity && this.intervalMs == intervalMs && this.trigger == trigger
      ensures params == None && !requestTimerActive && !observeTimerActive
      ensures orders == [] && errorCodes == [] && submissions == [] && succeedCount == 0 && failedCount == 0
    {
      this.clock := clock;
      this.symbol, this.price, this.quantity := symbol, price, quantity;
      this.intervalMs := intervalMs;
      this.trigger := trigger;
      params := None;
      requestTimerActive, observeTimerActive, observeIntervalMs := false, false, 0;
      orders, succeedCount, failedCount, errorCodes := [], 0, 0, [];
      submissions := [];
      replied := 0;
    }

    /** `is_started`: an order never started has sent nothing and runs no
        timer. */
    predicate IsStarted(): (b: bool)
      reads this
      ensures Valid() && !b ==> submissions == [] && !requestTimerActive && !observeTimerActive
    {
      params.Some?
    }

    /** `is_running`: only a started order with a trigger time runs. */
    predicate IsRunning(): (b: bool)
      reads this
      ensures Valid() && b ==> params.Some? && trigger.Some?
    {
      requestTimerActive
    }

    /** `is_finished`: some reply has arrived and the request timer is off. */
    predicate IsFinished(): (b: bool)
      reads this
      ensures b ==> !IsRunning()
      ensures Valid() && b ==> replied > 0
    {
      succeedCount + failedCount > 0 && !requestTimerActive
    }

    /** `countdown_ms` at local time `now`: the countdown has run out exactly
        when the rectified time plus the expected one-way delay has reached
        the trigger, i.e. when a request sent now would arrive no earlier
        than the trigger. */
    function CountdownMs(now: int): (c: int)
      requires trigger.Some?
      reads this, clock
      ensures c <= 0 <==> clock.RectifiedTimestamp(now) + clock.delayMs >= trigger.value
    {
      trigger.value - clock.RectifiedTimestamp(now) - clock.delayMs
    }

    /** Between two syncs the countdown falls by exactly the local time
        elapsed. */
    lemma CountdownFallsWithLocalTime(now: int, later: int)
      requires trigger.Some?
      ensures CountdownMs(now) - CountdownMs(later) == later - now
    {
    }

    /** Right after a readable sync reply at `endMs` (the clock then reads
        the server time plus the delay) the countdown is the trigger minus
        the server time minus twice the delay estimate. */
    lemma CountdownAfterSync(endMs: int, serverTime: int)
      requires trigger.Some?
      requires clock.RectifiedTimestamp(endMs) == serverTime + clock.delayMs
      ensures CountdownMs(endMs) == trigger.value - serverTime - 2 * clock.delayMs
    {
    }

    /** The timestamp a request sent at local time `now` is signed with. */
    function StampAt(now: int): (t: int)
      requires trigger.Some?
      reads this, clock
      ensures t >= trigger.value && t >= clock.RectifiedTimestamp(now)
      ensures t == trigger.value || t == clock.RectifiedTimestamp(now)
    {
      Exchange.SignedTimestamp(clock.RectifiedTimestamp(now), trigger)
    }

    /** `_on_request_order`: send one request, signed no earlier than the
        trigger. */
    method OnRequestOrder(now: int)
      requires Valid() && params.Some? && trigger.Some?
      modifies this
      ensures Valid()
      ensures submissions == old(submissions) + [old(StampAt(now))]
      ensures requestTimerActive == old(requestTimerActive) && observeTimerActive == old(observeTimerActive)
      ensures observeIntervalMs == old(observeIntervalMs) && trigger == old(trigger) && params == old(params)
      ensures orders == old(orders) && errorCodes == old(errorCodes)
      ensures succeedCount == old(succeedCount) && failedCount == old(failedCount) && replied == old(replied)
    {
      submissions := submissions + [StampAt(now)];
    }

    /** `_on_check_time` at local time `now`. */
    method OnCheckTime(now: int)
      requires Valid() && params.Some? && trigger.Some?
      modifies this
      ensures Valid()
      ensures TimersNow() == AfterCheck(old(TimersNow()), old(CountdownMs(now)), old(StampAt(now)))
      ensures trigger == old(trigger) && params == old(params) && orders == old(orders) && errorCodes == old(errorCodes)
      ensures succeedCount == old(succeedCount) && failedCount == old(failedCount) && replied == old(replied)
    {
      var countdown := CountdownMs(now);
      if countdown < FireThresholdMs {
        OnRequestOrder(now);
        requestTimerActive := true;
      } else if countdown < NearThresholdMs {
        observeIntervalMs := countdown;
        observeTimerActive := true;
      } else {
        observeIntervalMs := countdown * 2 / 3;
        observeTimerActive := true;
      }
    }

    /** `place_order` at local time `now`. */
    method Place(now: int) returns (r: PlaceResult)
      requires Valid()
      modifies this
      ensures Valid()
      ensures old(params).Some? ==> r == AlreadyPlaced && TimersNow() == old(TimersNow()) && params == old(params)
      ensures old(params).None? ==> params == Some(Exchange.LimitOrderParams(Exchange.Buy, symbol, price, quantity))
      // a trigger already in the past: rejected, nothing armed, nothing sent
      ensures old(params).None? && old(trigger).Some? && old(trigger).value - clock.RectifiedTimestamp(now) < 0 ==>
                r == PastTrigger && TimersNow() == old(TimersNow())
      // a trigger in the future: one check, now
      ensures old(params).None? && old(trigger).Some? && old(trigger).value - clock.RectifiedTimestamp(now) >= 0 ==>
                r == Placed && TimersNow() == AfterCheck(old(TimersNow()), old(CountdownMs(now)), old(StampAt(now)))
      // no trigger: the trigger becomes the local time, one request at once, then the request timer
      ensures old(params).None? && old(trigger).None? ==>
                r == Placed && trigger == Some(now) && requestTimerActive && observeTimerActive == old(observeTimerActive)
                && submissions == [Exchange.SignedTimestamp(clock.RectifiedTimestamp(now), Some(now))]
      ensures old(trigger).Some? ==> trigger == old(trigger)
      ensures orders == old(orders) && errorCodes == old(errorCodes)
      ensures succeedCount == old(succeedCount) && failedCount == old(failedCount) && replied == old(replied)
    {
      if params.Some? {
        return AlreadyPlaced;
      }
      params := Some(Exchange.LimitOrderParams(Exchange.Buy, symbol, price, quantity));
      if trigger.Some? {
        r := StartTimed(now);
      } else {
        StartImmediately(now);
        r := Placed;
      }
    }

    /** The timed branch of `place_order`, once the parameters are set. */
    method StartTimed(now: int) returns (r: PlaceResult)
      requires Valid() && params.Some? && trigger.Some?
      modifies this
      ensures Valid()
      ensures old(trigger).value - clock.RectifiedTimestamp(now) < 0 ==> r == PastTrigger && TimersNow() == old(TimersNow())
      ensures old(trigger).value - clock.RectifiedTimestamp(now) >= 0 ==>
                r == Placed && TimersNow() == AfterCheck(old(TimersNow()), old(CountdownMs(now)), old(StampAt(now)))
      ensures trigger == old(trigger) && params == old(params) && orders == old(orders) && errorCodes == old(errorCodes)
      ensures succeedCount == old(succeedCount) && failedCount == old(failedCount) && replied == old(replied)
    {
      var deltaMs := trigger.value - clock.RectifiedTimestamp(now);
      if deltaMs < 0 {
        return PastTrigger;
      }
      OnCheckTime(now);
      r := Placed;
    }

    /** The immediate branch of `place_order`: the trigger becomes the
        local time and the first request goes out at once. */
    method StartImmediately(now: int)
      requires Valid() && params.Some? && trigger.None?
      modifies this
      ensures Valid()
      ensures trigger == Some(now) && requestTimerActive && observeTimerActive == old(observeTimerActive)
      ensures submissions == old(submissions) + [Exchange.SignedTimestamp(clock.RectifiedTimestamp(now), Some(now))]
      ensures params == old(params) && orders == old(orders) && errorCodes == old(errorCodes)
      ensures succeedCount == old(succeedCount) && failedCount == old(failedCount) && replied == old(replied)
    {
      trigger := Some(now);
      OnRequestOrder(now);
      requestTimerActive := true;
    }

    /** The single-shot observe timer times out at local time `now`. */
    method OnObserveTimeout(now: int)
      requires Valid() && observeTimerActive && params.Some?
      modifies this
      ensures Valid()
      ensures TimersNow() == AfterCheck(old(TimersNow()).(observeActive := false), old(CountdownMs(now)), old(StampAt(now)))
      ensures trigger == old(trigger) && params == old(params) && orders == old(orders) && errorCodes == old(errorCodes)
      ensures succeedCount == old(succeedCount) && failedCount == old(failedCount) && replied == old(replied)
    {
      observeTimerActive := false;
      OnCheckTime(now);
    }

    /** The periodic request timer ticks at local time `now`. */
    method OnRequestTimeout(now: int)
      requires Valid() && requestTimerActive
      modifies this
      ensures Valid()
      ensures submissions == old(submissions) + [old(StampAt(now))]
      ensures requestTimerActive && observeTimerActive == old(observeTimerActive)
      ensures trigger == old(trigger) && params == old(params) && orders == old(orders) && errorCodes == old(errorCodes)
      ensures succeedCount == old(succeedCount) && failedCount == old(failedCount) && replied == old(replied)
    {
      OnRequestOrder(now);
    }

    /** `stop`: both timers off; counters and records are kept. */
    method Stop()
      requires Valid()
      modifies this
      ensures Valid()
      ensures !requestTimerActive && !observeTimerActive
      ensures submissions == old(submissions) && trigger == old(trigger) && params == old(params)
      ensures orders == old(orders) && errorCodes == old(errorCodes)
      ensures succeedCount == old(succeedCount) && failedCount == old(failedCount) && replied == old(replied)
    {
      requestTimerActive := false;
      observeTimerActive := false;
    }

    /** `_on_replied`: the reply to one of the requests sent. `reply` is
        None when the body is not JSON or lacks a field the handler reads,
        which raises before anything changes. Replies are applied whether
        or not the order has been stopped. */
    method OnReplied(reply: Option<Exchange.CodeReply>)
      requires Valid() && replied < |submissions|
      modifies this
      ensures Valid()
      ensures replied == old(replied) + 1
      ensures reply.None? ==>
                orders == old(orders) && succeedCount == old(succeedCount) && failedCount == old(failedCount)
                && errorCodes == old(errorCodes) && requestTimerActive == old(requestTimerActive)
      ensures reply.Some? && reply.value.code == Exchange.SuccessCode ==>
                orders == old(orders) + [reply.value.orderId] && succeedCount == old(succeedCount) + 1
                && failedCount == old(failedCount) && errorCodes == old(errorCodes) && !requestTimerActive
      ensures reply.Some? && reply.value.code != Exchange.SuccessCode ==>
                orders == old(orders) && succeedCount == old(succeedCount) && failedCount == old(failedCount) + 1
                && errorCodes == old(errorCodes) + (match Decimal.ParseInt(reply.value.code)
                                                    case Some(n) => [n]
                                                    case None => [])
                && requestTimerActive == old(requestTimerActive)
      ensures observeTimerActive == old(observeTimerActive) && submissions == old(submissions)
      ensures trigger == old(trigger) && params == old(params)
    {
      replied := replied + 1;
      if reply.None? {
        return;
      }
      if reply.value.code == Exchange.SuccessCode {
        orders := orders + [reply.value.orderId];
        succeedCount := succeedCount + 1;
        requestTimerActive := false;
      } else {
        failedCount := failedCount + 1;
        var code := Decimal.ParseInt(reply.value.code);
        if code.Some? {
          errorCodes := errorCodes + [code.value];
        }
      }
    }
  }

  /** Placing an immediate order, two refusals and then an acceptance: one
      success, two failures, one order id, the request timer off and the
      order shown as finished. */
  method RetriedUntilAccepted(now: int) returns (succeed: nat, failed: nat, ids: seq<int>, finished: bool, running: bool)
    ensures succeed == 1 && failed == 2 && ids == [7] && finished && !running
  {
    var clock := new Clock.ClockSync();
    var order := new PlaceOrder(clock, "BTCUSDT", "100", "1", 1, None);
    var r := order.Place(now);
    order.OnRequestTimeout(now);
    order.OnRequestTimeout(now);
    order.OnReplied(Some(Exchange.CodeReply("43012", 0)));
    order.OnReplied(Some(Exchange.CodeReply("43012", 0)));
    order.OnReplied(Some(Exchange.CodeReply(Exchange.SuccessCode, 7)));
    succeed, failed, ids := order.succeedCount, order.failedCount, order.orders;
    finished, running := order.IsFinished(), order.IsRunning();
  }

  /** A trigger in the past is refused: nothing is armed and nothing sent,
      yet the order counts as started because its parameters were set. */
  method PastTriggerRefused(now: int) returns (r: PlaceResult, started: bool, sent: nat, armed: bool)
    ensures r == PastTrigger && started && sent == 0 && !armed
  {
    var clock := new Clock.ClockSync();
    var order := new PlaceOrder(clock, "BTCUSDT", "100", "1", 1, Some(now - 1));
    r := order.Place(now);
    started, sent := order.IsStarted(), |order.submissions|;
    armed := order.requestTimerActive || order.observeTimerActive;
  }
}
