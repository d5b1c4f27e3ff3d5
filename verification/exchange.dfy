/** What each exchange integration computes without touching any state:
    the order parameters, the timestamp a submission is signed with, the
    signed request itself, the reading of symbol-information replies and the
    HTTP error tables (BitgetAPI/BitgetRest.py, GateAPI/GateRest.py,
    MEXCAPI/MexcRest.py and the shared `RestClient.request`). */
module Exchange {
  import opened Wrappers
  import opened Dict
  import Decimal
  import Signing

  datatype Side = Buy | Sell

  // ------------------------------------------------------------ parameters

  /** The order parameters Bitget (and Gate, and the older `PlaceOrder`)
      submit: a good-till-cancelled limit order, price and size verbatim. */
  function LimitOrderParams(side: Side, symbol: string, price: string, quantity: string): (d: Dict)
    ensures Keys(d) == ["symbol", "side", "orderType", "force", "price", "size"]
    ensures UniqueKeys(d)
    ensures Get(d, "symbol") == Some(symbol)
    ensures Get(d, "side") == Some(if side == Buy then "buy" else "sell")
    ensures Get(d, "orderType") == Some("limit")
    ensures Get(d, "force") == Some("gtc")
    ensures Get(d, "price") == Some(price)
    ensures Get(d, "size") == Some(quantity)
  {
    var d := [("symbol", symbol), ("side", if side == Buy then "buy" else "sell"), ("orderType", "limit"),
              ("force", "gtc"), ("price", price), ("size", quantity)];
    KeysIndex(d);
    GetEntry(d, 0); GetEntry(d, 1); GetEntry(d, 2); GetEntry(d, 3); GetEntry(d, 4); GetEntry(d, 5);
    d
  }

  /** The order parameters MEXC submits: upper-case side and type, no
      time-in-force key at all. */
  function MexcOrderParams(side: Side, symbol: string, price: string, quantity: string): (d: Dict)
    ensures Keys(d) == ["symbol", "side", "type", "price", "quantity"]
    ensures UniqueKeys(d)
    ensures Get(d, "symbol") == Some(symbol)
    ensures Get(d, "side") == Some(if side == Buy then "BUY" else "SELL")
    ensures Get(d, "type") == Some("LIMIT")
    ensures Get(d, "price") == Some(price)
    ensures Get(d, "quantity") == Some(quantity)
    ensures Get(d, "force") == None && Get(d, "timeInForce") == None
  {
    var d := [("symbol", symbol), ("side", if side == Buy then "BUY" else "SELL"), ("type", "LIMIT"),
              ("price", price), ("quantity", quantity)];
    KeysIndex(d);
    GetEntry(d, 0); GetEntry(d, 1); GetEntry(d, 2); GetEntry(d, 3); GetEntry(d, 4);
    d
  }

  // ------------------------------------------------------------ timestamps

  /** The timestamp a request is signed with: the rectified time, raised to
      `minimum` when one is given. Submissions pass the trigger time, so a
      submission is never stamped before its trigger. */
  function SignedTimestamp(rectified: int, minimum: Option<int>): (t: int)
    ensures t >= rectified
    ensures minimum.Some? ==> t >= minimum.value && (t == rectified || t == minimum.value)
    ensures minimum.None? ==> t == rectified
  {
    match minimum
    case None => rectified
    case Some(m) => if rectified >= m then rectified else m
  }

  // ------------------------------------------------------------ signed requests

  const BitgetApiUrl := "https://api.bitget.com"
  const MexcApiUrl := "https://api.mexc.com"

  /** A request as it leaves the program. */
  datatype SignedRequest = SignedRequest(url: string, timestamp: int, headers: Dict, body: string)

  /** `RestClient.request` and `BitgetOrder._request`: JSON body, HMAC
      signature over the pre-hash string of that body, Bitget headers. */
  function BitgetRequest(p: Signing.Primitives, apiKey: string, secretKey: string, passphrase: string,
                         apiPath: string, params: Dict, rectified: int, minimum: Option<int>): (r: SignedRequest)
    ensures r.url == BitgetApiUrl + apiPath
    ensures r.timestamp == SignedTimestamp(rectified, minimum)
    ensures r.body == p.jsonDumps(params)
    ensures Get(r.headers, Signing.AccessTimestamp) == Some(Decimal.IntToString(r.timestamp))
    ensures Get(r.headers, Signing.AccessSign)
            == Some(Signing.Sign(p, Signing.PreHash(r.timestamp, "POST", apiPath, r.body), secretKey))
    ensures Get(r.headers, Signing.AccessKey) == Some(apiKey)
  {
    var timestamp := SignedTimestamp(rectified, minimum);
    var body := p.jsonDumps(params);
    var sign := Signing.Sign(p, Signing.PreHash(timestamp, "POST", apiPath, body), secretKey);
    SignedRequest(BitgetApiUrl + apiPath, timestamp, Signing.GetHeader(apiKey, sign, timestamp, passphrase), body)
  }

  /** The exchange reads back from the ACCESS-TIMESTAMP header exactly the
      timestamp that was signed, and it is never earlier than the minimum. */
  lemma BitgetHeaderTimestampNotBeforeMinimum(p: Signing.Primitives, apiKey: string, secretKey: string,
                                              passphrase: string, apiPath: string, params: Dict,
                                              rectified: int, minimum: int)
    ensures var r := BitgetRequest(p, apiKey, secretKey, passphrase, apiPath, params, rectified, Some(minimum));
            var text := Get(r.headers, Signing.AccessTimestamp);
            text.Some? && Decimal.ParseInt(text.value) == Some(r.timestamp) && r.timestamp >= minimum
  {
    var r := BitgetRequest(p, apiKey, secretKey, passphrase, apiPath, params, rectified, Some(minimum));
    Decimal.IntToStringRoundTrip(r.timestamp);
  }

  /** `MexcOrder._request`: the stored parameters merged with the timestamp
      into a new dict, signed by `gen_signed_body`; headers are the JSON
      content type plus the API key. */
  function MexcRequest(p: Signing.Primitives, apiKey: string, secretKey: string,
                       apiPath: string, params: Dict, rectified: int, minimum: Option<int>): (r: SignedRequest)
    ensures r.url == MexcApiUrl + apiPath
    ensures r.timestamp == SignedTimestamp(rectified, minimum)
    ensures Keys(r.headers) == ["Content-Type", "X-MEXC-APIKEY"]
    ensures Get(r.headers, "X-MEXC-APIKEY") == Some(apiKey)
  {
    var timestamp := SignedTimestamp(rectified, minimum);
    var merged := Signing.TimestampedParams(params, timestamp);
    var headers := Put([("Content-Type", "application/json")], "X-MEXC-APIKEY", apiKey);
    PutGetSame([("Content-Type", "application/json")], "X-MEXC-APIKEY", apiKey);
    SignedRequest(MexcApiUrl + apiPath, timestamp, headers,
                  Signing.GenSignedBody(p, secretKey, timestamp, merged))
  }

  /** Merging the timestamp before calling `gen_signed_body` changes
      nothing: the body is the one `gen_signed_body` makes from the stored
      parameters, whose query carries the signed timestamp. */
  lemma MexcRequestBodyIsSignedParams(p: Signing.Primitives, apiKey: string, secretKey: string,
                                      apiPath: string, params: Dict, rectified: int, minimum: Option<int>)
    ensures var r := MexcRequest(p, apiKey, secretKey, apiPath, params, rectified, minimum);
            r.body == Signing.GenSignedBody(p, secretKey, r.timestamp, params)
  {
    var t := SignedTimestamp(rectified, minimum);
    Signing.GenSignedBodyIgnoresSameTimestamp(p, secretKey, t, params);
  }

  // ------------------------------------------------------------ replies to orders

  /** The code Bitget (and Gate, as written) reports for an accepted order. */
  const SuccessCode := "00000"

  /** A reply to an order submission whose JSON carries a code and, on
      success, an order id that `int()` accepts. */
  datatype CodeReply = CodeReply(code: string, orderId: int)

  /** MEXC accepts an order with HTTP status 200 or 201. */
  predicate MexcAccepted(statusCode: int) {
    statusCode == 200 || statusCode == 201
  }

  // ------------------------------------------------------------ symbol information

  datatype SymbolInfo = SymbolInfo(symbol: string, status: string, pricePrecision: int, quantityPrecision: int)

  /** Which signal a symbol-information reply leads to: the information, a
      "symbol does not exist" notice, or nothing at all. */
  datatype SymbolOutcome<I> = Updated(info: I) | NotExisted | Silent

  /** Bitget's symbol reply: `code` and the `data` list. */
  datatype BitgetSymbolReply = BitgetSymbolReply(code: string, data: seq<Dict>)

  /** The code Bitget reports for an unknown trading pair. */
  const SymbolNotExistedCode := "40034"

  /** `BitgetCommon._on_symbol_info_replied`. */
  function BitgetSymbolOutcome(reply: BitgetSymbolReply): (r: SymbolOutcome<Dict>)
    ensures r.NotExisted? <==> reply.code == SymbolNotExistedCode
    ensures r.Updated? <==> reply.code == SuccessCode && reply.data != []
    ensures r.Updated? ==> r.info == reply.data[0]
  {
    if reply.code != SuccessCode then
      if reply.code == SymbolNotExistedCode then NotExisted else Silent
    else if reply.data == [] then Silent   // data[0] raises IndexError
    else Updated(reply.data[0])
  }

  /** `GateRest.error_msg`: the message for an HTTP status. */
  function GateErrorMsg(statusCode: int): (msg: string)
    ensures msg == "未知错误" <==> statusCode !in {202, 204, 400, 401, 404, 429}
  {
    match statusCode
    case 202 => "请求已被服务端接受，但是仍在处理中"
    case 204 => "请求成功，服务端没有提供返回体"
    case 400 => "无效请求"
    case 401 => "认证失败"
    case 404 => "未找到"
    case 429 => "请求过于频繁"
    case _ => "未知错误"
  }

  /** `MexcRest.error_msg`: the message for an HTTP status. */
  function MexcErrorMsg(statusCode: int): (msg: string)
    ensures msg == "未知错误" <==> statusCode !in {401, 403, 429}
  {
    match statusCode
    case 401 => "身份认证、权限错误"
    case 403 => "违反WAF限制(Web应用程序防火墙)"
    case 429 => "警告访问频次超限，即将被封IP"
    case _ => "未知错误"
  }

  /** Gate's `trade_status` labels; None where the dict lookup raises. */
  function GateTradeStatus(status: string): (text: Option<string>)
    ensures text.Some? <==> status in {"untradable", "buyable", "sellable", "tradable"}
  {
    match status
    case "untradable" => Some("无法交易")
    case "buyable" => Some("仅可买入")
    case "sellable" => Some("仅可卖出")
    case "tradable" => Some("可以交易")
    case _ => None
  }

  /** MEXC's listing `status` labels; None where the dict lookup raises. */
  function MexcListingStatus(status: string): (text: Option<string>)
    ensures text.Some? <==> status in {"1", "2", "3"}
  {
    match status
    case "1" => Some("上架")
    case "2" => Some("暂停")
    case "3" => Some("下架")
    case _ => None
  }

  /** The fields of a Gate currency pair the handler reads. */
  datatype GatePair = GatePair(id: string, tradeStatus: string, precision: int, amountPrecision: int)

  /** `GateCommon._on_symbol_info_replied`: a non-200 status only logs, so
      Gate never reports a pair as not existing. */
  function GateSymbolOutcome(statusCode: int, pair: GatePair): (r: SymbolOutcome<SymbolInfo>)
    ensures !r.NotExisted?
    ensures r.Updated? <==> statusCode == 200 && GateTradeStatus(pair.tradeStatus).Some?
    ensures r.Updated? ==> r.info == SymbolInfo(pair.id, GateTradeStatus(pair.tradeStatus).value,
                                                pair.precision, pair.amountPrecision)
  {
    if statusCode != 200 then Silent
    else match GateTradeStatus(pair.tradeStatus)
      case Some(text) => Updated(SymbolInfo(pair.id, text, pair.precision, pair.amountPrecision))
      case None => Silent
  }

  /** The fields of a MEXC symbol the handler reads. */
  datatype MexcSymbol = MexcSymbol(symbol: string, status: string, quotePrecision: int, quoteAssetPrecision: int)

  /** `MexcCommon._on_symbol_info_replied`: any non-200 status reports the
      symbol as not existing; otherwise the first listed symbol is read. */
  function MexcSymbolOutcome(statusCode: int, symbols: seq<MexcSymbol>): (r: SymbolOutcome<SymbolInfo>)
    ensures r.NotExisted? <==> statusCode != 200
    ensures r.Updated? <==> statusCode == 200 && symbols != [] && MexcListingStatus(symbols[0].status).Some?
    ensures r.Updated? ==> r.info.symbol == symbols[0].symbol
                           && r.info.pricePrecision == symbols[0].quotePrecision
                           && r.info.quantityPrecision == symbols[0].quoteAssetPrecision
                           && r.info.status == MexcListingStatus(symbols[0].status).value
  {
    if statusCode != 200 then NotExisted
    else if symbols == [] then Silent
    else match MexcListingStatus(symbols[0].status)
      case Some(text) => Updated(SymbolInfo(symbols[0].symbol, text, symbols[0].quotePrecision,
                                             symbols[0].quoteAssetPrecision))
      case None => Silent
  }
}
