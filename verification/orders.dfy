/** The per-exchange orders `BitgetOrder`, `GateOrder` and `MexcOrder`.

    Their base class `RestOrderBase` (trigger timer, countdown) is not part
    of this model. It appears here only as a trigger timestamp, a running
    flag, two counters and the list of order ids. Every order of one
    exchange reads the same class-level clock (`common`), which is shared
    by reference. */
module Orders {
  import opened Wrappers
  import opened Dict
  import Clock
  import Exchange
  import Signing

  datatype Venue = Bitget | Gate | Mexc

  /** Bitget and Gate record `int(orderId)`, MEXC records the JSON value as
      it is (a string in MEXC's replies). */
  datatype OrderId = Numeric(n: int) | Text(s: string)

  /** The order parameters each constructor builds. */
  function ParamsFor(venue: Venue, side: Exchange.Side, symbol: string, price: string, quantity: string): (d: Dict)
    ensures UniqueKeys(d)
    ensures Get(d, "symbol") == Some(symbol) && Get(d, "price") == Some(price)
    ensures venue != Mexc ==> Get(d, "size") == Some(quantity) && Get(d, "force") == Some("gtc")
    ensures venue == Mexc ==> Get(d, "quantity") == Some(quantity) && Get(d, "force") == None
  {
    if venue == Mexc then Exchange.MexcOrderParams(side, symbol, price, quantity)
    else Exchange.LimitOrderParams(side, symbol, price, quantity)
  }

  /** What the reply handlers change: the running flag of the trigger, the
      two counters and the order ids. */
  datatype Progress = Progress(running: bool, succeed: nat, failed: nat, records: seq<OrderId>)

  /** A Bitget or Gate reply accepts the order: it could be read and its
      code is '00000'. */
  predicate Accepted(reply: Option<Exchange.CodeReply>) {
    reply.Some? && reply.value.code == Exchange.SuccessCode
  }

  /** `_on_replied` of `BitgetOrder` and `GateOrder`. `reply` is None when
      the body is not JSON, lacks a field the handler reads or carries an
      order id `int()` refuses: the handler raises before changing
      anything. */
  function AfterCodeReply(p: Progress, reply: Option<Exchange.CodeReply>): (r: Progress)
    ensures reply.None? ==> r == p
    ensures r.succeed + r.failed == p.succeed + p.failed + (if reply.Some? then 1 else 0)
    ensures Accepted(reply) ==>
              !r.running && r.succeed == p.succeed + 1 && r.failed == p.failed
              && r.records == p.records + [Numeric(reply.value.orderId)]
    ensures !Accepted(reply) ==> r.running == p.running && r.succeed == p.succeed && r.records == p.records
  {
    match reply
    case None => p
    case Some(rep) =>
      if rep.code == Exchange.SuccessCode
      then Progress(false, p.succeed + 1, p.failed, p.records + [Numeric(rep.orderId)])
      else p.(failed := p.failed + 1)
  }

  /** A MEXC reply: the HTTP status and, when the body is JSON, its
      `orderId` field (None when the field is missing). */
  datatype MexcBody = MexcBody(orderId: Option<string>)
  datatype MexcReply = MexcReply(statusCode: int, body: Option<MexcBody>)

  /** `MexcOrder._on_replied`: a body that is not JSON changes nothing;
      status 200 or 201 records the order id (an accepted reply without one
      raises before any change); any other status is a failure, whatever
      the body says. */
  function AfterMexcReply(p: Progress, reply: MexcReply): (r: Progress)
    ensures reply.body.None? ==> r == p
    ensures reply.body.Some? && Exchange.MexcAccepted(reply.statusCode) ==>
              (reply.body.value.orderId.None? ==> r == p)
              && (reply.body.value.orderId.Some? ==>
                    !r.running && r.succeed == p.succeed + 1 && r.failed == p.failed
                    && r.records == p.records + [Text(reply.body.value.orderId.value)])
    ensures reply.body.Some? && !Exchange.MexcAccepted(reply.statusCode) ==>
              r == p.(failed := p.failed + 1)
  {
    match reply.body
    case None => p
    case Some(b) =>
      if Exchange.MexcAccepted(reply.statusCode) then
        match b.orderId
        case None => p
        case Some(id) => Progress(false, p.succeed + 1, p.failed, p.records + [Text(id)])
      else p.(failed := p.failed + 1)
  }

  /** The progress after a sequence of Bitget or Gate replies, in order. */
  function AfterCodeReplies(p: Progress, replies: seq<Option<Exchange.CodeReply>>): Progress
    decreases |replies|
  {
    if replies == [] then p
    else AfterCodeReplies(AfterCodeReply(p, replies[0]), replies[1..])
  }

  /** The order ids of the accepting replies, in order. */
  function AcceptedIds(replies: seq<Option<Exchange.CodeReply>>): seq<OrderId>
  {
    if replies == [] then []
    else (if Accepted(replies[0]) then [Numeric(replies[0].value.orderId)] else []) + AcceptedIds(replies[1..])
  }

  /** The records grow by exactly the ids of the accepting replies, one
      success is counted per id, and the counters never decrease. */
  lemma {:induction false} AfterCodeRepliesRecords(p: Progress, replies: seq<Option<Exchange.CodeReply>>)
    ensures AfterCodeReplies(p, replies).records == p.records + AcceptedIds(replies)
    ensures AfterCodeReplies(p, replies).succeed == p.succeed + |AcceptedIds(replies)|
    ensures AfterCodeReplies(p, replies).failed >= p.failed
    decreases |replies|
  {
    if replies != [] {
      var q := AfterCodeReply(p, replies[0]);
      AfterCodeRepliesRecords(q, replies[1..]);
      assert p.records + AcceptedIds(replies) == q.records + AcceptedIds(replies[1..]);
    }
  }

  /** Some reply is accepting exactly when there is an accepted id. */
  lemma {:induction false} AcceptedIdsNonEmpty(replies: seq<Option<Exchange.CodeReply>>)
    ensures AcceptedIds(replies) != [] <==> exists i :: 0 <= i < |replies| && Accepted(replies[i])
    decreases |replies|
  {
    if replies != [] {
      AcceptedIdsNonEmpty(replies[1..]);
      if exists i :: 0 <= i < |replies| && Accepted(replies[i]) {
        var i :| 0 <= i < |replies| && Accepted(replies[i]);
        if i > 0 {
          assert Accepted(replies[1..][i - 1]);
        }
      }
      if exists j :: 0 <= j < |replies[1..]| && Accepted(replies[1..][j]) {
        var j :| 0 <= j < |replies[1..]| && Accepted(replies[1..][j]);
        assert Accepted(replies[j + 1]);
      }
    }
  }

  /** A Bitget or Gate order that has not succeeded yet is finished after a
      run of replies exactly when one of them was accepted: failures alone
      never finish an order. */
  lemma FinishedIffSomeAccepted(p: Progress, replies: seq<Option<Exchange.CodeReply>>)
    requires p.succeed == 0
    ensures AfterCodeReplies(p, replies).succeed > 0 <==> exists i :: 0 <= i < |replies| && Accepted(replies[i])
  {
    AfterCodeRepliesRecords(p, replies);
    AcceptedIdsNonEmpty(replies);
  }

  /** `order_trigger_event`'s request timestamp: the rectified time of the
      shared clock, never earlier than the trigger timestamp. */
  function RequestTimestamp(rectified: int, triggerTimestamp: int): (t: int)
    ensures t >= triggerTimestamp && t >= rectified
    ensures t == rectified || t == triggerTimestamp
  {
    Exchange.SignedTimestamp(rectified, Some(triggerTimestamp))
  }

  class ExchangeOrder {
    const venue: Venue
    /** The class-level clock of the order's exchange. */
    const common: Clock.ClockSync
    const side: Exchange.Side
    const symbol: string
    const price: string
    const quantity: string
    /** -1 when the order has no trigger time. */
    const triggerTimestamp: int
    const params: Dict
    var triggerRunning: bool
    var succeedCount: nat
    var failedCount: nat
    var orderRecords: seq<OrderId>

    ghost predicate Valid()
      reads this
    {
      && succeedCount == |orderRecords|
      && (forall i :: 0 <= i < |orderRecords| ==> (orderRecords[i].Text? <==> venue == Mexc))
    }

    function ProgressNow(): Progress
      reads this
    {
      Progress(triggerRunning, succeedCount, failedCount, orderRecords)
    }

    constructor (venue: Venue, common: Clock.ClockSync, side: Exchange.Side, symbol: string,
                 price: string, quantity: string, triggerTimestamp: int := -1)
      ensures Valid()
      ensures this.venue == venue && this.common == common && this.side == side
      ensures this.symbol == symbol && this.price == price && this.quantity == quantity
      ensures this.triggerTimestamp == triggerTimestamp
      ensures params == ParamsFor(venue, side, symbol, price, quantity)
      ensures ProgressNow() == Progress(false, 0, 0, [])
    {
      this.venue, this.common, this.side := venue, common, side;
      this.symbol, this.price, this.quantity := symbol, price, quantity;
      this.triggerTimestamp := triggerTimestamp;
      params := ParamsFor(venue, side, symbol, price, quantity);
      triggerRunning, succeedCount, failedCount, orderRecords := false, 0, 0, [];
    }

    /** `stop_order_trigger` of the base class, as a running flag. */
    method StopOrderTrigger()
      modifies this
      ensures ProgressNow() == old(ProgressNow()).(running := false)
    {
      triggerRunning := false;
    }

    /** `is_finished`: some submission succeeded, that is, an order id has
        been recorded. */
    predicate IsFinished(): (b: bool)
      reads this
      ensures Valid() ==> (b <==> orderRecords != [])
    {
      succeedCount > 0
    }

    /** `is_running`, for the countdown the base class reports: a stopped
        trigger, or a countdown that has not yet run out, is not running. */
    predicate IsRunning(countdownMs: int): (b: bool)
      reads this
      ensures !triggerRunning ==> !b
      ensures countdownMs > 0 ==> !b
    {
      countdownMs <= 0 && triggerRunning
    }

    /** The timestamp a submission at local time `now` is signed with. */
    function SubmissionTimestamp(now: int): (t: int)
      reads this, common
      ensures t >= triggerTimestamp && t >= common.RectifiedTimestamp(now)
      ensures t == triggerTimestamp || t == common.RectifiedTimestamp(now)
    {
      RequestTimestamp(common.RectifiedTimestamp(now), triggerTimestamp)
    }

    /** `BitgetOrder.order_trigger_event` at local time `now`: the request
        it posts. */
    function BitgetSubmission(p: Signing.Primitives, apiKey: string, secretKey: string, passphrase: string,
                              now: int): (r: Exchange.SignedRequest)
      requires venue == Bitget
      reads this, common
      ensures r.timestamp == SubmissionTimestamp(now)
      ensures r.body == p.jsonDumps(params)
      ensures r.url == Exchange.BitgetApiUrl + "/api/v2/spot/trade/place-order"
    {
      Exchange.BitgetRequest(p, apiKey, secretKey, passphrase, "/api/v2/spot/trade/place-order",
                             params, common.RectifiedTimestamp(now), Some(triggerTimestamp))
    }

    /** `MexcOrder.order_trigger_event` at local time `now`: the stored
        parameters are not changed; the request signs a copy carrying the
        timestamp. */
    function MexcSubmission(p: Signing.Primitives, apiKey: string, secretKey: string, now: int): (r: Exchange.SignedRequest)
      requires venue == Mexc
      reads this, common
      ensures r.timestamp == SubmissionTimestamp(now)
      ensures r.body == Signing.GenSignedBody(p, secretKey, r.timestamp, params)
      ensures r.url == Exchange.MexcApiUrl + "/api/v3/order"
    {
      Exchange.MexcRequestBodyIsSignedParams(p, apiKey, secretKey, "/api/v3/order", params,
                                             common.RectifiedTimestamp(now), Some(triggerTimestamp));
      Exchange.MexcRequest(p, apiKey, secretKey, "/api/v3/order", params,
                           common.RectifiedTimestamp(now), Some(triggerTimestamp))
    }

    /** `_on_replied` of `BitgetOrder` and `GateOrder`. No guard for an
        order that was stopped: a late reply is counted like any other. */
    method OnCodeReplied(reply: Option<Exchange.CodeReply>)
      requires Valid() && venue != Mexc
      modifies this
      ensures Valid()
      ensures ProgressNow() == AfterCodeReply(old(ProgressNow()), reply)
    {
      if reply.None? {
        return;
      }
      if reply.value.code == Exchange.SuccessCode {
        orderRecords := orderRecords + [Numeric(reply.value.orderId)];
        succeedCount := succeedCount + 1;
        StopOrderTrigger();
      } else {
        failedCount := failedCount + 1;
      }
    }

    /** `MexcOrder._on_replied`. */
    method OnMexcReplied(reply: MexcReply)
      requires Valid() && venue == Mexc
      modifies this
      ensures Valid()
      ensures ProgressNow() == AfterMexcReply(old(ProgressNow()), reply)
    {
      if reply.body.None? {
        return;
      }
      if Exchange.MexcAccepted(reply.statusCode) {
        if reply.body.value.orderId.None? {
          return;
        }
        orderRecords := orderRecords + [Text(reply.body.value.orderId.value)];
        succeedCount := succeedCount + 1;
        StopOrderTrigger();
      } else {
        failedCount := failedCount + 1;
      }
    }
  }

  /** Orders of one exchange share its clock: a sync round moves the
      submission timestamp of an order created before it, and an order
      created after it signs the same timestamp at the same instant. */
  method SharedClock(now: int) returns (before: int, after: int, other: int)
    ensures before == RequestTimestamp(now, 0)
    ensures after == other == RequestTimestamp(10_000 + (now - 2_000), 0)
  {
    var c := new Clock.ClockSync();
    var a := new ExchangeOrder(Bitget, c, Exchange.Buy, "BTCUSDT", "100", "1", 0);
    before := a.SubmissionTimestamp(now);
    SyncTo(c);
    after := a.SubmissionTimestamp(now);
    var b := new ExchangeOrder(Bitget, c, Exchange.Sell, "BTCUSDT", "100", "1", 0);
    other := b.SubmissionTimestamp(now);
  }

  /** One sync round from an unsynced clock: a reply of 10 000 ms read at
      local 2 000 ms with no round trip. */
  method SyncTo(c: Clock.ClockSync)
    requires c.State() == Clock.Unsynced
    modifies c
    ensures forall now :: c.RectifiedTimestamp(now) == 10_000 + (now - 2_000)
  {
    c.OnUtcRepliedDiscardingFailures(2_000, 2_000, Some(10_000));
    assert Clock.SmoothedDelay(0, Clock.HalfRoundTrip(2_000, 2_000)) == 0;
  }
}
