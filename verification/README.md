# CoinRebot order timing core, in Dafny

CoinRebot places a limit order on a crypto spot exchange (Bitget, Gate.io or
MEXC) at a chosen instant. It judges that instant by the exchange's clock, not
the local one. It then resubmits the order on a fixed cadence until the
exchange accepts it. This project models the non-GUI core of that program and
proves properties of the model:

- `wrappers.dfy`: `Option` and `Outcome` (success, or an error with a message).
- `decimal.dfy`: Python `str(n)` and `int(s)` for the integers that travel as
  text (timestamps in headers and queries, reply codes).
- `dict.dfy`: Python dicts as insertion-ordered key/value lists. The order
  matters because the serialised text is what gets signed.
- `clock.dfy`: the drift-compensated clock (`RestClient`, `BitgetCommon`,
  `GateCommon`, `MexcCommon`). The class `ClockSync` is one exchange's
  shared clock fields. The sync handler updates them in place.
- `signing.dfy`: request canonicalisation (`utils_bitget`, `utils_mexc`,
  `utils_gate`). HMAC, SHA-512, RSA, base64, UTF-8 decoding, `urlencode` and
  `json.dumps` are uninterpreted function fields of a `Primitives` value. So
  `sign` and the other digests are deterministic in their inputs by
  construction, and nothing else is assumed about them.
- `exchange.dfy`: order parameters, the signed request timestamp, the
  request each exchange posts, and the classification of symbol replies and
  HTTP status codes.
- `scheduler.dfy`: `PlaceOrder` (RestClient.py), the trigger scheduler and
  submission loop. The two Qt timers are "active" flags plus the observe
  timer's interval. Each request sent is recorded by the timestamp it is
  signed with.
- `orders.dfy`: `BitgetOrder`, `GateOrder` and `MexcOrder`. Their undefined
  base class is reduced to a trigger timestamp, a running flag, the counters
  and the order ids.
- `orders_db.dfy`: the `OrdersDB.Database` registry. Its signals are kept as
  an event log. Also the `singleton` decorator.
- `order_table.dfy`: the text of the countdown, status and result columns,
  and how `OrderTableView` keeps its order lists and table rows in step.

The local clock (`get_timestamp`, `QDateTime.currentDateTime`) is always a
parameter `now`. Network replies are input values. `None` stands for a body
that the handler fails to parse before it changes anything.

What the handlers do, in four points the model keeps:

- A sync reply whose body cannot be read still moves the local base and the
  delay estimate, because both are assigned before the body is parsed (see
  Findings).
- No reply handler checks whether the order was stopped, so a reply that
  arrives after `stop` is counted like any other.
- No handler separates one kind of rejection from another. Every
  non-success reply counts as a failure, and the request timer keeps
  running.
- A malformed reply is not counted as a failure:
  - `PlaceOrder`, `BitgetOrder` and `GateOrder` raise before changing any
    counter.
  - `MexcOrder` returns without changing anything.

## Model

| member | source | states |
|---|---|---|
| Clock.TruncTenth | RestClient.py:85 | `int()` of a tenth truncates toward zero, for either sign |
| Clock.SmoothedDelay | RestClient.py:84-86 | the new delay lies between the old delay and the half round trip (non-negative inputs); equal inputs are a fixed point |
| Clock.HalfRoundTrip | RestClient.py:81 | floor division by two: non-negative for an ordered pair of readings, at most half the round trip |
| Clock.RectifiedAt | RestClient.py:47-50 | rectified time minus local time is the constant offset `serverBase - localBase` |
| Clock.AfterSync | RestClient.py:79-91 | after a readable sync reply the local base is `end`, the delay is the smoothed estimate, and the rectified time at `end` is server time plus delay |
| Clock.SyncAsWritten | RestClient.py:79-91 | one round as written: the local base becomes `end` and the delay is smoothed whether or not the body reads; a readable reply anchors server time plus delay at `end`, an unreadable one keeps the server base |
| Clock.AfterUnreadableSync | MEXCAPI/MexcRest.py:50-63 | an unreadable reply still moves the local base to `end` and updates the delay, leaving the server base |
| Clock.SyncDiscardingFailures | MEXCAPI/MexcRest.py:50-65 | corrected round: an unreadable reply leaves the clock exactly as it was; a readable one anchors server time plus delay at `end` |
| Clock.UnreadableSyncRewindsClock | MEXCAPI/MexcRest.py:50-65 | as written, an unreadable reply moves the rectified clock back by `end - old localBase` at every instant |
| Clock.UnreadableSyncExample | MEXCAPI/MexcRest.py:50-65 | concrete case: the rectified time at 2000 ms falls from 6000 to 5000 as written and stays 6000 when the round is discarded |
| Clock.RepeatedDelayStaysBetween | RestClient.py:84-86 | any number of rounds measuring the same half trip keep the estimate between its start and that half trip |
| Clock.SmoothedDelayShrinksExcess | RestClient.py:84-86 | an estimate above the half trip strictly decreases, and its excess shrinks to at most four tenths |
| Clock.ClockSync.constructor | RestClient.py:35-38 | before any sync both bases are 0 and the rectified time equals the local time at every instant |
| Clock.ClockSync.RectifiedTimestamp | BitgetAPI/BitgetRest.py:22-25 | `server_timestamp_base + (now - local_timestamp_base)` over the current fields |
| Clock.ClockSync.OnUtcReplied | BitgetAPI/BitgetRest.py:43-58 | the fields become the as-written sync round, including the partial update when the body cannot be read; on a readable reply the rectified time at `end` is server time plus delay |
| Clock.ClockSync.OnUtcRepliedDiscardingFailures | MEXCAPI/MexcRest.py:50-68 | the fields become the corrected sync round |
| Decimal.IntToString | BitgetAPI/utils_bitget.py:33 | `str(n)`: digits, with a leading '-' exactly for negatives |
| Decimal.ParseInt | RestClient.py:200 | `int(s)` fails exactly unless `s` is digits, or a '-' or '+' followed by digits; digits read as their value, with the sign applied |
| Decimal.IntToStringRoundTrip | BitgetAPI/utils_bitget.py:33 | `int(str(n)) == n` for every integer |
| Dict.Get | GateAPI/GateRest.py:23 | a lookup fails exactly when the key is absent |
| Dict.Put | MEXCAPI/utils_mexc.py:9 | `d[k] = v` holds the new pair, keeps the length for an existing key and grows by one for a new key |
| Dict.PutSpec | MEXCAPI/utils_mexc.py:9 | after `d[k] = v`, `k` maps to `v`, every other key keeps its value, keys stay unique |
| Dict.PutKeys | MEXCAPI/utils_mexc.py:9 | an existing key keeps its place and a new key is appended, so serialisation order is preserved |
| Dict.PutIdempotent | MEXCAPI/utils_mexc.py:8-10 | assigning the same value twice equals assigning it once |
| Signing.Upper | BitgetAPI/utils_bitget.py:25 | `str.upper` on ASCII: lower-case letters shift by 32, other characters stay |
| Signing.PreHash | BitgetAPI/utils_bitget.py:24-25 | the message is the timestamp text, then the upper-cased method and the path, then the body, each at its own offset |
| Signing.GetHeader | BitgetAPI/utils_bitget.py:28-37 | exactly six headers in order; content type JSON, key, sign, timestamp text, passphrase, locale 'zh-CN' |
| Signing.TermsIsJoinQueryPlusSeparator | BitgetAPI/utils_bitget.py:39-43 | the accumulated `k=v&` terms are the '&'-joined query plus one trailing '&' |
| Signing.ToQueryWithNoEncode | BitgetAPI/utils_bitget.py:39-43 | the loop yields the '&'-joined `k=v` query, with no trailing '&', and '' for no pairs |
| Signing.NormalisedBody | BitgetAPI/utils_bitget.py:45-47 | a body of '{}' or 'None' is signed as '', any other body as is |
| Signing.SignatureSignsPreHash | BitgetAPI/utils_bitget.py:45-51 | `signature` MACs exactly `pre_hash` of the normalised body, so a blank body signs like an empty one |
| Signing.CheckNone | BitgetAPI/utils_bitget.py:53-55 | fails, with the message plus " Invalid params!", exactly when the value is None or empty |
| Signing.TimestampedParams | MEXCAPI/utils_mexc.py:8-9 | the copy maps 'timestamp' to the given value and agrees with the caller's dict on every other key |
| Signing.GenSignedBody | MEXCAPI/utils_mexc.py:7-12 | the body is the encoded query followed by '&signature=' and the HMAC of exactly that query |
| Signing.GenSignedBodyIgnoresSameTimestamp | MEXCAPI/utils_mexc.py:8-10 | params already carrying the same timestamp give the same body |
| Signing.OrEmpty | GateAPI/utils_gate.py:8-10 | `x or ""` is '' for None and the value otherwise |
| Signing.GenSign | GateAPI/utils_gate.py:6-12 | exactly the keys KEY, Timestamp, SIGN; KEY is the api key, Timestamp the text of the timestamp, SIGN the HMAC-SHA512 of the five-line string |
| Signing.GenSignMissingIsEmpty | GateAPI/utils_gate.py:8-10 | a missing query and payload sign like empty ones |
| Signing.GateSignString | GateAPI/utils_gate.py:10 | the signed string has the length of its five fields plus four line breaks |
| Signing.GateSignStringLines | GateAPI/utils_gate.py:10 | when no field holds a line break, the signed string splits on line breaks into exactly method, url, query, payload hash and timestamp text |
| Exchange.LimitOrderParams | BitgetAPI/BitgetRest.py:82-89 | keys symbol, side, orderType, force, price, size in that order; side 'buy'/'sell', 'limit', 'gtc', price and size verbatim |
| Exchange.MexcOrderParams | MEXCAPI/MexcRest.py:103-109 | keys symbol, side, type, price, quantity; 'BUY'/'SELL', 'LIMIT'; no time-in-force key |
| Exchange.SignedTimestamp | RestClient.py:55-57 | the signed timestamp is `max(rectified, minimum)`: never before either, equal to one of them |
| Exchange.BitgetRequest | BitgetAPI/BitgetRest.py:127-145 | url, clamped timestamp, JSON body, and headers carrying the key, the timestamp text and the sign of `pre_hash` over that timestamp and body |
| Exchange.BitgetHeaderTimestampNotBeforeMinimum | BitgetAPI/BitgetRest.py:130-139 | the ACCESS-TIMESTAMP header reads back as the signed timestamp, which is never before the minimum |
| Exchange.MexcRequest | MEXCAPI/MexcRest.py:151-167 | url, clamped timestamp, headers Content-Type then X-MEXC-APIKEY carrying the key |
| Exchange.MexcRequestBodyIsSignedParams | MEXCAPI/MexcRest.py:159-160 | merging the timestamp first changes nothing: the body is `gen_signed_body` of the stored params at the signed timestamp |
| Exchange.BitgetSymbolOutcome | BitgetAPI/BitgetRest.py:60-69 | not-existed iff code '40034'; information iff code '00000' with a non-empty data list, carrying its first entry; otherwise nothing is signalled |
| Exchange.GateErrorMsg | GateAPI/GateRest.py:14-23 | the unknown-error text exactly for codes outside 202, 204, 400, 401, 404, 429 |
| Exchange.MexcErrorMsg | MEXCAPI/MexcRest.py:12-18 | the unknown-error text exactly for codes outside 401, 403, 429 |
| Exchange.GateTradeStatus | GateAPI/GateRest.py:82-89 | a label exactly for the four known trade statuses |
| Exchange.MexcListingStatus | MEXCAPI/MexcRest.py:80-86 | a label exactly for statuses '1', '2', '3' |
| Exchange.GateSymbolOutcome | GateAPI/GateRest.py:74-91 | never not-existed; information iff status 200 and a known trade status, built from id, label and both precisions |
| Exchange.MexcSymbolOutcome | MEXCAPI/MexcRest.py:70-88 | not-existed iff status is not 200; information iff 200, a first symbol and a known status, carrying that symbol, its status label and both precisions |
| Scheduler.CheckDecision | RestClient.py:164-177 | fire iff the countdown is below 1000; re-check at the full countdown below 300000; otherwise at two thirds, strictly less than the countdown; a re-check is never armed in the past |
| Scheduler.DriftFreeFiresOnTime | RestClient.py:164-177 | with no drift, an order first checked at least a second early fires exactly at countdown 0 |
| Scheduler.AfterCheck | RestClient.py:164-177 | firing sends one request and starts the request timer; otherwise the observe timer is armed within the countdown and nothing is sent |
| Scheduler.PlaceOrder.constructor | RestClient.py:100-120 | not started, no timers, no requests, counters zero |
| Scheduler.PlaceOrder.CountdownMs | RestClient.py:160-162 | the countdown has run out exactly when the rectified time plus the delay estimate has reached the trigger |
| Scheduler.PlaceOrder.CountdownFallsWithLocalTime | RestClient.py:160-162 | between syncs the countdown falls by exactly the local time elapsed |
| Scheduler.PlaceOrder.CountdownAfterSync | RestClient.py:160-162 | right after a readable sync at `end` the countdown is the trigger minus the server time minus twice the delay |
| Scheduler.PlaceOrder.StampAt | RestClient.py:180-182 | a submission is signed with `max(trigger, rectified time)`: no earlier than either, equal to one of them |
| Scheduler.PlaceOrder.IsStarted | RestClient.py:151-152 | an order that was never started has sent nothing and runs no timer |
| Scheduler.PlaceOrder.IsRunning | RestClient.py:154-155 | a running order has been started and has a trigger time |
| Scheduler.PlaceOrder.IsFinished | RestClient.py:157-158 | a finished order is not running and has had at least one reply |
| Scheduler.PlaceOrder.OnRequestOrder | RestClient.py:180-183 | exactly one request is sent, signed no earlier than the trigger; nothing else changes |
| Scheduler.PlaceOrder.OnCheckTime | RestClient.py:164-177 | the timers become `AfterCheck` of the countdown; counters and records unchanged |
| Scheduler.PlaceOrder.Place | RestClient.py:122-144 | a second call raises and changes nothing; params are set before the past check; a past trigger starts nothing; a future trigger runs one check; no trigger sends one request stamped at `max(rectified time, local time)` and starts the request timer |
| Scheduler.PlaceOrder.StartTimed | RestClient.py:134-139 | the timed branch: past trigger returns False with no timer, otherwise one check |
| Scheduler.PlaceOrder.StartImmediately | RestClient.py:140-143 | the immediate branch: the trigger becomes `now`, one request, then the request timer |
| Scheduler.PlaceOrder.OnObserveTimeout | RestClient.py:118-119 | the single-shot timer goes inactive and runs one check |
| Scheduler.PlaceOrder.OnRequestTimeout | RestClient.py:115-117 | each tick sends one request; the timer stays active |
| Scheduler.PlaceOrder.Stop | RestClient.py:147-149 | both timers inactive; counters, records and requests kept |
| Scheduler.PlaceOrder.OnReplied | RestClient.py:185-201 | '00000' appends the id, bumps succeed and stops the request timer; other codes bump failed, append the code when `int` reads it, and leave the timer; an unreadable reply changes no counter; no stopped-order guard |
| Scheduler.RetriedUntilAccepted | RestClient.py:157-158 | two refusals then an acceptance: 1 success, 2 failures, one id, timer off, finished |
| Scheduler.PastTriggerRefused | RestClient.py:132-138 | a past trigger is refused with nothing armed or sent, yet the order counts as started |
| Orders.ParamsFor | GateAPI/GateRest.py:104-111 | each exchange's parameters: unique keys, symbol and price verbatim, size and 'gtc' for Bitget/Gate, quantity and no force for MEXC |
| Orders.AfterCodeReply | BitgetAPI/BitgetRest.py:147-162 | '00000' appends `int(orderId)`, bumps succeed and stops the trigger; any other code bumps only failed; an unreadable reply changes nothing |
| Orders.AfterMexcReply | MEXCAPI/MexcRest.py:180-201 | malformed JSON changes nothing; 200/201 records the id, bumps succeed and stops the trigger; other statuses bump failed |
| Orders.AfterCodeRepliesRecords | GateAPI/GateRest.py:168-180 | over any run of replies the records grow by exactly the accepted ids in order, succeed counts them, failed never decreases |
| Orders.FinishedIffSomeAccepted | BitgetAPI/BitgetRest.py:121-122 | an order is finished after a run of replies iff one of them was accepted; failures alone never finish it |
| Orders.RequestTimestamp | BitgetAPI/BitgetRest.py:127-132 | `max(rectified, trigger)`: never before the trigger |
| Orders.ExchangeOrder.constructor | BitgetAPI/BitgetRest.py:75-93 | the order's parameters, shared clock and trigger (default -1); counters zero, trigger not running |
| Orders.ExchangeOrder.StopOrderTrigger | BitgetAPI/BitgetRest.py:156 | the base-class trigger stops; nothing else changes |
| Orders.ExchangeOrder.SubmissionTimestamp | GateAPI/GateRest.py:149-154 | `max(trigger, rectified time)` of the shared clock: no earlier than either, equal to one of them |
| Orders.ExchangeOrder.IsFinished | BitgetAPI/BitgetRest.py:121-122 | finished exactly when an order id has been recorded |
| Orders.ExchangeOrder.IsRunning | BitgetAPI/BitgetRest.py:124-125 | a stopped trigger or a countdown still above zero is not running |
| Orders.ExchangeOrder.BitgetSubmission | BitgetAPI/BitgetRest.py:113-116 | the posted request carries the clamped timestamp and the JSON of the stored params |
| Orders.ExchangeOrder.MexcSubmission | MEXCAPI/MexcRest.py:137-140 | the posted body is `gen_signed_body` of the unchanged stored params at the clamped timestamp |
| Orders.ExchangeOrder.OnCodeReplied | GateAPI/GateRest.py:168-180 | the order's progress becomes `AfterCodeReply` of the reply |
| Orders.ExchangeOrder.OnMexcReplied | MEXCAPI/MexcRest.py:180-201 | the order's progress becomes `AfterMexcReply` of the reply |
| Orders.SharedClock | BitgetAPI/BitgetRest.py:72-73 | orders of one exchange read one clock: a sync moves an existing order's timestamp, and a new order signs the same timestamp |
| OrdersDB.PythonIndex | OrdersDB.py:36-44 | an index is valid iff it lies in `-n .. n-1`; a negative one counts from the end |
| OrdersDB.RemoveAt | OrdersDB.py:36-44 | deleting at `i` keeps the other elements in order, shortens by one and loses only that element |
| OrdersDB.Database.constructor | OrdersDB.py:23-26 | both lists and the event log start empty |
| OrdersDB.Database.PushBuyOrder | OrdersDB.py:28-30 | appends to the buy list, sell list unchanged, one BuyAdded event |
| OrdersDB.Database.PushSellOrder | OrdersDB.py:32-34 | appends to the sell list, buy list unchanged, one SellAdded event |
| OrdersDB.Database.RemoveBuyOrder | OrdersDB.py:36-39 | returns and deletes the element at the index (negative from the end) with one BuyRemoved event; an index out of range changes nothing |
| OrdersDB.Database.RemoveSellOrder | OrdersDB.py:41-44 | the same for the sell list |
| OrdersDB.Database.PopBuyOrder | OrdersDB.py:46-49 | returns and deletes the last buy order with one event; an empty list changes nothing |
| OrdersDB.Database.PopSellOrder | OrdersDB.py:51-54 | the same for the sell list |
| OrdersDB.Database.TopOrder | OrdersDB.py:56-58 | removes the last sell order (no peek), emits SellRemoved, returns nothing |
| OrdersDB.PushThenPop | OrdersDB.py:28-49 | push then pop returns the same order, restores both lists and logs two events |
| OrdersDB.Singleton.Get | OrdersDB.py:6-14 | the first call creates the database, later calls return the same instance |
| OrdersDB.SameInstance | OrdersDB.py:16-17 | two calls give one and the same database |
| OrderTable.DisplayedCountdown | OrderTable.py:114 | the shown countdown is `max(countdown, 0)`, never negative |
| OrderTable.CountdownText | OrderTable.py:115 | 'hh:mm:ss' below a day, the empty text of an invalid time from a day on |
| OrderTable.CountdownTextRoundTrip | OrderTable.py:113-116 | below a day the text reads back as the whole seconds left |
| OrderTable.StatusText | OrderTable.py:118-126 | '完成' iff finished; else '执行中' iff running; else '等待' iff started; else 'unknown' |
| OrderTable.ResultText | OrderTable.py:128-135 | '-' iff there has been no reply |
| OrderTable.ResultTextRoundTrip | OrderTable.py:128-135 | the result text reads back as (succeeded, succeeded + failed) |
| OrderTable.RowFor | OrderTable.py:110-135 | the recomputed cells: status '完成' iff finished, result '-' iff no replies, '00:00:00' for a countdown at or past zero |
| OrderTable.IndexOf | OrderTable.py:77 | `list.index`: the first position holding the order |
| OrderTable.IndexOfDistinct | OrderTable.py:75-81 | in a list without repeats, `index` finds each order at its own position |
| OrderTable.OrderTableView.constructor | OrderTable.py:29-32 | both lists and tables start empty |
| OrderTable.OrderTableView.UpdateOrderItemByIdx | OrderTable.py:110-135 | only row `idx` of that table changes, to `RowFor` of the order's state |
| OrderTable.OrderTableView.UpdateAllOrderItems | OrderTable.py:104-108 | every row of both tables shows `RowFor` of its order's state; lists unchanged |
| OrderTable.OrderTableView.OnOrderAdded | OrderTable.py:83-102 | the order is appended, one row is added, and the row `index` finds is filled; for a new order that is the new last row |
| OrderTable.OrderTableView.OnOrderRemovedByIdx | OrderTable.py:151-154 | `pop(idx)` removes from the list and `removeRow(idx)` from the table; a non-negative index keeps them in step |
| OrderTable.OrderTableView.OnOrderRemoved | OrderTable.py:75-81 | the first position holding the order is removed from list and table alike; an unlisted order changes nothing |
| OrderTable.RemovalKeepsViewInStep | OrderTable.py:56-60 | after the database removes a buy order, the view that mirrored it still mirrors it |
| OrderTable.AdditionKeepsViewInStep | OrderTable.py:56-58 | after the database adds a buy order, the view lists it too; a new order gets a filled last row |

## Left out

- All GUI: the main window, the order form, time status, buttons, settings
  and credential storage. Widget layout, column sizing (floating point) and
  the context menu of the order table are also out.
- Network I/O and Qt plumbing: HTTP get, post and head, `setup_header`, and
  signal emission. Replies are inputs. Only the registry's signals are kept,
  as an event log.
- The MEXC HEAD request `_head` and `order_trigger_5s_countdown_event` send
  a request and read nothing back. `cancel_order` is `pass`.
- `order_trigger_start_event` is left out. It only logs and defers to the
  undefined base class.
- The symbol-information requests are left out (URL building and network).
  Their replies are modelled.
- `Signing.Sign` and `Signing.SignByRsa` (`sign`, `signByRSA`) are compositions of
  these primitives and carry no contract of their own. Their use is stated by
  `Signing.SignatureSignsPreHash` and `Exchange.BitgetRequest`.
- JSON parsing, HMAC-SHA256, HMAC-SHA512, SHA-512, RSA PKCS#1 v1.5, base64
  and `urlencode` are uninterpreted functions.
- `RestOrderBase` and `RestBase` are imported from RestClient.py but not
  defined there. The model keeps only:
  - a running flag (`stop_order_trigger`, `is_trigger_running`). No file
    of the program calls `start_order_trigger`, and orders are started
    through the base class's `place_order`, so setting the flag is not
    modelled;
  - a countdown, passed as a parameter to `is_running`.
- The Bitget and MEXC symbol replies are modelled. Their URL building
  (`request_symbol`) is not.
- `Orders.ExchangeOrder.BitgetSubmission` assumes HMAC signing. As written,
  BitgetAPI/BitgetRest.py:137 reads `const.SIGN_TYPE` and `const.RSA`, and
  consts_bitget.py defines neither. RestClient.py:29-32 sets the sign type to
  SHA256, so the RSA branch is never taken there.
- RestClient.py imports the top-level `utils`, which defines only `get_timestamp`
  and `setup_header`. Its calls to `utils.sign`, `utils.pre_hash` and
  `utils.get_header` (lines 61-64) would raise, so no request would be sent and
  the request timer would never start. The model takes these functions from
  BitgetAPI/utils_bitget.py, so `PlaceOrder` signs and sends each request.
- BitgetAPI/BitgetRest.py imports `BitgetAPI.utils`. That module is not part
  of this model; its functions are taken from BitgetAPI/utils_bitget.py.
- Gate submissions are modelled only up to the timestamp clamp
  (`Orders.ExchangeOrder.SubmissionTimestamp`). As written, GateRest.py uses
  names it never imports:
  - `utils` at line 158;
  - `Configurations` at line 101;
  - `Slot` at line 167.
  The reply handler is modelled as if it were reachable.
- `OrderTable.OrderTableView` slots are typed with `OrdersDB.PlaceOrder`,
  which OrdersDB.py does not define. The handlers are modelled as if the
  types resolved.
- The trigger-time column text (`yyyy.MM.dd hh:mm:ss`) is out (date
  formatting).
- MEXC's `orderId` is modelled as text, as MEXC sends it. JSON values of
  other types are out.
- Clock.SmoothedDelay: computes `int((4*old + 6*half) / 10)` exactly. Python
  evaluates `0.4*old + 0.6*half` in binary floating point, which can differ
  by one when the exact value is a whole number.
- Scheduler.CheckDecision: the far-range interval is
  `countdown * 2 / 3` with floor division. The source computes
  `delta_ms / 3 * 2` in floating point and hands it to `setInterval`, which
  takes whole milliseconds. The model also arms intervals of any size.
  `QTimer.setInterval` takes a C `int`, at most 2147483647 ms, so a
  far-range countdown above about 3221225470 ms (some 37 days) cannot be
  armed as the model arms it.
- Scheduler.DriftFreeFiresOnTime: holds of the model for every countdown.
  For countdowns above about 37 days the timer interval would overflow
  the C `int` that `setInterval` takes, so there it says nothing about the
  program.
- Decimal.ParseInt: accepts an optional sign followed by ASCII digits. It
  does not accept the surrounding whitespace, underscores or non-ASCII digits
  that Python's `int` also accepts.
- OrderTable.CountdownText: does not model the 32-bit overflow of
  `fromMSecsSinceStartOfDay` for countdowns beyond about 24.8 days. Any
  countdown of a day or more gives the empty text.
- Scheduler.PlaceOrder.OnReplied: requires that fewer replies have arrived
  than requests were sent. Each reply answers one request.

## Findings

| source | as written | input that shows it | evidently intended | confidence | as-written member | corrected member |
|---|---|---|---|---|---|---|
| MEXCAPI/MexcRest.py:50-65 | the sync handler moves the local base to `end` and updates the delay before parsing the body; on a parse failure it returns with the server base unchanged (Bitget, Gate and RestClient raise after the same partial update) | clock anchored at local 1000 ms to server 5000 ms, delay 0; an unreadable reply at local 2000 ms (sent at 2000): rectified time at 2000 ms drops from 6000 to 5000 | a failed sync round leaves the clock as it was | medium, not executed | Clock.UnreadableSyncExample | Clock.SyncDiscardingFailures |
