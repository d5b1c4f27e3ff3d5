/** The drift-compensated clock shared by every exchange integration
    (`RestClient`, `BitgetCommon`, `GateCommon`, `MexcCommon`).

    A sync round reads the local clock before the server-time request
    (`beginMs`) and when the reply arrives (`endMs`), halves the round trip,
    smooths a one-way delay estimate (40% old, 60% new) and re-anchors the
    clock: from then on the rectified time is the server's reported time
    plus the delay, advanced by the local time elapsed since `endMs`.

    The local clock is not read here: every reading is a parameter. */
module Clock {
  import opened Wrappers

  /** Python `int(x / 10)` for an integer `x`: truncation toward zero. */
  function TruncTenth(x: int): (q: int)
    ensures x >= 0 ==> 10 * q <= x < 10 * q + 10
    ensures x < 0 ==> 10 * q - 10 < x <= 10 * q
  {
    if x >= 0 then x / 10 else -((-x) / 10)
  }

  /** `int(0.4 * oldDelay + 0.6 * halfTrip)`, computed on exact rationals.
      The estimate never leaves the interval spanned by the old estimate
      and the new half round trip, and a steady half round trip is a fixed
      point. */
  function SmoothedDelay(oldDelay: int, halfTrip: int): (d: int)
    ensures 0 <= oldDelay && 0 <= halfTrip ==>
              (oldDelay <= halfTrip ==> oldDelay <= d <= halfTrip) &&
              (halfTrip <= oldDelay ==> halfTrip <= d <= oldDelay)
    ensures oldDelay == halfTrip ==> d == oldDelay
  {
    TruncTenth(4 * oldDelay + 6 * halfTrip)
  }

  /** `(endMs - beginMs) // 2`: Python floors, and so does Dafny's `/` by a
      positive divisor. */
  function HalfRoundTrip(beginMs: int, endMs: int): (h: int)
    ensures beginMs <= endMs ==> 0 <= h && 2 * h <= endMs - beginMs
    ensures 2 * h <= endMs - beginMs < 2 * h + 2
  {
    (endMs - beginMs) / 2
  }

  /** The clock fields of one exchange connection. */
  datatype ClockState = ClockState(delayMs: int, serverBase: int, localBase: int)

  /** The class-level defaults: every field zero before the first sync. */
  const Unsynced := ClockState(0, 0, 0)

  /** `server_timestamp_base + (now - local_timestamp_base)`. */
  function RectifiedAt(c: ClockState, now: int): (t: int)
    ensures t - now == c.serverBase - c.localBase
  {
    c.serverBase + (now - c.localBase)
  }

  /** The new clock after a sync reply whose server time could be read. */
  function AfterSync(c: ClockState, beginMs: int, endMs: int, serverTime: int): (r: ClockState)
    ensures r.localBase == endMs
    ensures r.delayMs == SmoothedDelay(c.delayMs, HalfRoundTrip(beginMs, endMs))
    ensures RectifiedAt(r, endMs) == serverTime + r.delayMs
  {
    var delay := SmoothedDelay(c.delayMs, HalfRoundTrip(beginMs, endMs));
    ClockState(delay, serverTime + delay, endMs)
  }

  /** The clock after a sync reply whose body could not be read, as the
      handlers are written: the local base and the delay are assigned before
      the body is parsed, the server base is left alone. */
  function AfterUnreadableSync(c: ClockState, beginMs: int, endMs: int): (r: ClockState)
    ensures r.serverBase == c.serverBase && r.localBase == endMs
    ensures r.delayMs == SmoothedDelay(c.delayMs, HalfRoundTrip(beginMs, endMs))
  {
    ClockState(SmoothedDelay(c.delayMs, HalfRoundTrip(beginMs, endMs)), c.serverBase, endMs)
  }

  /** One sync round as written: `serverTime` is None when the reply body
      is not JSON or lacks the server time. */
  function SyncAsWritten(c: ClockState, beginMs: int, endMs: int, serverTime: Option<int>): (r: ClockState)
    ensures r.localBase == endMs
    ensures r.delayMs == SmoothedDelay(c.delayMs, HalfRoundTrip(beginMs, endMs))
    ensures serverTime.Some? ==> RectifiedAt(r, endMs) == serverTime.value + r.delayMs
    ensures serverTime.None? ==> r.serverBase == c.serverBase
  {
    match serverTime
    case Some(t) => AfterSync(c, beginMs, endMs, t)
    case None => AfterUnreadableSync(c, beginMs, endMs)
  }

  /** One sync round with an unreadable reply discarded whole. */
  function SyncDiscardingFailures(c: ClockState, beginMs: int, endMs: int, serverTime: Option<int>): (r: ClockState)
    ensures serverTime.None? ==> r == c
    ensures serverTime.Some? ==> RectifiedAt(r, endMs) == serverTime.value + r.delayMs
  {
    match serverTime
    case Some(t) => AfterSync(c, beginMs, endMs, t)
    case None => c
  }

  /** An unreadable reply, as written, moves the rectified clock back by
      the local time elapsed since the previous anchor, at every instant. */
  lemma UnreadableSyncRewindsClock(c: ClockState, beginMs: int, endMs: int, now: int)
    ensures RectifiedAt(SyncAsWritten(c, beginMs, endMs, None), now)
            == RectifiedAt(c, now) - (endMs - c.localBase)
  {
  }

  /** A concrete case: anchored at local 1000 ms to server 5000 ms, an
      unreadable reply at local 2000 ms turns the rectified time at that
      instant from 6000 ms into 5000 ms. Discarding the round keeps 6000. */
  lemma UnreadableSyncExample()
    ensures RectifiedAt(ClockState(0, 5000, 1000), 2000) == 6000
    ensures RectifiedAt(SyncAsWritten(ClockState(0, 5000, 1000), 2000, 2000, None), 2000) == 5000
    ensures RectifiedAt(SyncDiscardingFailures(ClockState(0, 5000, 1000), 2000, 2000, None), 2000) == 6000
  {
    var c := ClockState(0, 5000, 1000);
    UnreadableSyncRewindsClock(c, 2000, 2000, 2000);
  }

  /** The delay estimate after `n` sync rounds that all measured the same
      half round trip. */
  function RepeatedDelay(delay: int, halfTrip: int, n: nat): int
    decreases n
  {
    if n == 0 then delay else RepeatedDelay(SmoothedDelay(delay, halfTrip), halfTrip, n - 1)
  }

  /** However many rounds measure the same half round trip, the estimate
      stays between where it started and that half round trip: the
      smoothing never overshoots. */
  lemma {:induction false} RepeatedDelayStaysBetween(delay: int, halfTrip: int, n: nat)
    requires 0 <= delay && 0 <= halfTrip
    ensures delay <= halfTrip ==> delay <= RepeatedDelay(delay, halfTrip, n) <= halfTrip
    ensures halfTrip <= delay ==> halfTrip <= RepeatedDelay(delay, halfTrip, n) <= delay
    decreases n
  {
    if n > 0 {
      RepeatedDelayStaysBetween(SmoothedDelay(delay, halfTrip), halfTrip, n - 1);
    }
  }

  /** An estimate above the measured half round trip moves down strictly
      (by at least a tenth of the gap, rounded down) on each round. */
  lemma SmoothedDelayShrinksExcess(delay: int, halfTrip: int)
    requires 0 <= halfTrip < delay
    ensures SmoothedDelay(delay, halfTrip) < delay
    ensures 10 * (SmoothedDelay(delay, halfTrip) - halfTrip) <= 4 * (delay - halfTrip)
  {
  }

  /** The clock fields of one exchange connection, updated in place by its
      sync handler and read by every order of that exchange. */
  class ClockSync {
    var delayMs: int
    var serverBase: int
    var localBase: int

    function State(): ClockState
      reads this
    {
      ClockState(delayMs, serverBase, localBase)
    }

    /** Before any sync the rectified time is the local time. */
    constructor ()
      ensures State() == Unsynced
      ensures forall now :: RectifiedTimestamp(now) == now
    {
      delayMs, serverBase, localBase := 0, 0, 0;
    }

    /** The `rectified_timestamp` property at local time `now`. */
    function RectifiedTimestamp(now: int): (t: int)
      reads this
      ensures t == RectifiedAt(State(), now)
    {
      serverBase + (now - localBase)
    }

    /** `_on_utc_replied`: one sync round completing at local time `endMs`.
        `serverTime` is the server time the body reports, None when the body
        cannot be read. */
    method OnUtcReplied(beginMs: int, endMs: int, serverTime: Option<int>)
      modifies this
      ensures State() == SyncAsWritten(old(State()), beginMs, endMs, serverTime)
      ensures serverTime.Some? ==> RectifiedTimestamp(endMs) == serverTime.value + delayMs
    {
      var halfTrip := HalfRoundTrip(beginMs, endMs);
      localBase := endMs;
      delayMs := SmoothedDelay(delayMs, halfTrip);
      if serverTime.None? {
        return;
      }
      serverBase := serverTime.value + delayMs;
    }

    /** The same round with an unreadable reply leaving the clock untouched. */
    method OnUtcRepliedDiscardingFailures(beginMs: int, endMs: int, serverTime: Option<int>)
      modifies this
      ensures State() == SyncDiscardingFailures(old(State()), beginMs, endMs, serverTime)
    {
      if serverTime.None? {
        return;
      }
      var halfTrip := HalfRoundTrip(beginMs, endMs);
      localBase := endMs;
      delayMs := SmoothedDelay(delayMs, halfTrip);
      serverBase := serverTime.value + delayMs;
    }
  }
}
