/** Request canonicalisation and signing for the three exchanges
    (BitgetAPI/utils_bitget.py, MEXCAPI/utils_mexc.py, GateAPI/utils_gate.py).

    The cryptographic and encoding primitives are not modelled: they are
    the function-valued fields of a `Primitives` value, about which nothing
    is assumed. What is modelled is the exact text each exchange signs, the
    shape of the headers and bodies, and which inputs lead to the same
    signature. */
module Signing {
  import opened Wrappers
  import opened Dict
  import Decimal

  type Bytes = seq<bv8>

  /** The primitives the signing code calls, left uninterpreted. */
  datatype Primitives = Primitives(
    hmacSha256: (string, string) -> Bytes,    // (key, message) -> HMAC-SHA256 digest
    hmacSha256Hex: (string, string) -> string, // (key, message) -> hex of the same digest
    rsaSha256: (string, string) -> Bytes,     // (PEM private key, message) -> PKCS#1 v1.5 signature
    base64: Bytes -> Bytes,                   // base64.b64encode
    utf8: Bytes -> string,                    // str(bytes, 'utf8')
    sha512Hex: string -> string,              // hashlib.sha512(...).hexdigest()
    hmacSha512Hex: (string, string) -> string, // (key, message) -> HMAC-SHA512 hex digest
    urlencode: Dict -> string,                // urllib.parse.urlencode
    jsonDumps: Dict -> string)                // json.dumps

  // ---------------------------------------------------------------- Bitget

  /** Python `str.upper` on ASCII letters. */
  function Upper(s: string): (u: string)
    ensures |u| == |s|
    ensures forall i :: 0 <= i < |s| ==> ('a' <= s[i] <= 'z' ==> u[i] as int == s[i] as int - 32)
    ensures forall i :: 0 <= i < |s| ==> (!('a' <= s[i] <= 'z') ==> u[i] == s[i])
  {
    if s == [] then []
    else [if 'a' <= s[0] <= 'z' then (s[0] as int - 32) as char else s[0]] + Upper(s[1..])
  }

  /** `pre_hash`: the message Bitget signs, timestamp text, upper-cased
      method, path and body, with the body defaulting to empty. */
  function PreHash(timestamp: int, httpMethod: string, requestPath: string, body: string := ""): (m: string)
    ensures |m| == |Decimal.IntToString(timestamp)| + |httpMethod| + |requestPath| + |body|
    ensures m[..|Decimal.IntToString(timestamp)|] == Decimal.IntToString(timestamp)
    ensures m[|m| - |body|..] == body
    ensures var k := |Decimal.IntToString(timestamp)|;
            m[k..k + |httpMethod| + |requestPath|] == Upper(httpMethod) + requestPath
  {
    Decimal.IntToString(timestamp) + Upper(httpMethod) + requestPath + body
  }

  /** `sign`: base64 of the HMAC-SHA256 digest of the message, as text. */
  function Sign(p: Primitives, message: string, secretKey: string): string
  {
    p.utf8(p.base64(p.hmacSha256(secretKey, message)))
  }

  /** `signByRSA`: base64 of the RSA signature of the message, as text. */
  function SignByRsa(p: Primitives, message: string, secretKey: string): string
  {
    p.utf8(p.base64(p.rsaSha256(secretKey, message)))
  }

  const ContentType := "Content-Type"
  const AccessKey := "ACCESS-KEY"
  const AccessSign := "ACCESS-SIGN"
  const AccessTimestamp := "ACCESS-TIMESTAMP"
  const AccessPassphrase := "ACCESS-PASSPHRASE"
  const ApplicationJson := "application/json"
  const Locale := "locale"

  /** `get_header`: exactly six headers, in this order. */
  function GetHeader(apiKey: string, sign: string, timestamp: int, passphrase: string): (h: Dict)
    ensures Keys(h) == [ContentType, AccessKey, AccessSign, AccessTimestamp, AccessPassphrase, Locale]
    ensures UniqueKeys(h)
    ensures Get(h, ContentType) == Some(ApplicationJson)
    ensures Get(h, AccessKey) == Some(apiKey)
    ensures Get(h, AccessSign) == Some(sign)
    ensures Get(h, AccessTimestamp) == Some(Decimal.IntToString(timestamp))
    ensures Get(h, AccessPassphrase) == Some(passphrase)
    ensures Get(h, Locale) == Some("zh-CN")
  {
    var h := [(ContentType, ApplicationJson), (AccessKey, apiKey), (AccessSign, sign),
              (AccessTimestamp, Decimal.IntToString(timestamp)), (AccessPassphrase, passphrase),
              (Locale, "zh-CN")];
    KeysIndex(h);
    GetEntry(h, 0); GetEntry(h, 1); GetEntry(h, 2); GetEntry(h, 3); GetEntry(h, 4); GetEntry(h, 5);
    h
  }

  /** One `key=value&` term of a query string. */
  function Term(pair: (string, string)): string {
    pair.0 + "=" + pair.1 + "&"
  }

  /** The terms of all pairs, each with its trailing '&'. */
  function Terms(pairs: seq<(string, string)>): string
  {
    if pairs == [] then "" else Terms(pairs[..|pairs| - 1]) + Term(pairs[|pairs| - 1])
  }

  /** The reference definition of a query string: `key=value` terms joined
      by '&', with no separator before the first or after the last. */
  function JoinQuery(pairs: seq<(string, string)>): string
  {
    if pairs == [] then ""
    else if |pairs| == 1 then pairs[0].0 + "=" + pairs[0].1
    else JoinQuery(pairs[..|pairs| - 1]) + "&" + pairs[|pairs| - 1].0 + "=" + pairs[|pairs| - 1].1
  }

  /** The accumulated terms are the joined query plus one trailing '&'. */
  lemma {:induction false} TermsIsJoinQueryPlusSeparator(pairs: seq<(string, string)>)
    requires pairs != []
    ensures Terms(pairs) == JoinQuery(pairs) + "&"
  {
    var n := |pairs|;
    if n == 1 {
      assert pairs[..0] == [];
    } else {
      TermsIsJoinQueryPlusSeparator(pairs[..n - 1]);
      assert pairs[..n - 1][..n - 2] == pairs[..n - 2];
    }
  }

  /** `toQueryWithNoEncode`: concatenate `key=value&` for every pair, then
      drop the last character. */
  method ToQueryWithNoEncode(params: seq<(string, string)>) returns (url: string)
    ensures url == JoinQuery(params)
  {
    var acc := "";
    var i := 0;
    while i < |params|
      invariant 0 <= i <= |params|
      invariant acc == Terms(params[..i])
    {
      assert params[..i + 1][..i] == params[..i];
      acc := acc + Term(params[i]);
      i := i + 1;
    }
    assert params[..|params|] == params;
    if acc == "" {
      url := acc;
    } else {
      TermsIsJoinQueryPlusSeparator(params);
      url := acc[..|acc| - 1];
    }
  }

  /** `str(body)` is '{}' or 'None': the body is signed as empty. */
  predicate BlankBody(body: string) {
    body == "{}" || body == "None"
  }

  /** The body `signature` actually signs. */
  function NormalisedBody(body: string): (b: string)
    ensures BlankBody(body) ==> b == ""
    ensures !BlankBody(body) ==> b == body
  {
    if BlankBody(body) then "" else body
  }

  /** `signature`: the base64 bytes of the HMAC-SHA256 digest over the
      pre-hash string of the normalised body. `body` is `str(body)` of the
      caller's value, so a `None` body arrives as "None". */
  function Signature(p: Primitives, timestamp: int, httpMethod: string, requestPath: string,
                     body: string, secretKey: string): Bytes
  {
    p.base64(p.hmacSha256(secretKey, Decimal.IntToString(timestamp) + Upper(httpMethod) + requestPath + NormalisedBody(body)))
  }

  /** `signature` signs what `pre_hash` builds from the normalised body, so
      as text it equals `sign(pre_hash(...))`; '{}' and 'None' bodies sign
      exactly what an empty body signs. */
  lemma SignatureSignsPreHash(p: Primitives, timestamp: int, httpMethod: string, requestPath: string,
                              body: string, secretKey: string)
    ensures p.utf8(Signature(p, timestamp, httpMethod, requestPath, body, secretKey))
            == Sign(p, PreHash(timestamp, httpMethod, requestPath, NormalisedBody(body)), secretKey)
    ensures BlankBody(body) ==>
              Signature(p, timestamp, httpMethod, requestPath, body, secretKey)
              == Signature(p, timestamp, httpMethod, requestPath, "", secretKey)
  {
  }

  /** `check_none`: raises with the message when the value is falsy (None
      or empty), and does nothing otherwise. */
  function CheckNone(value: Option<string>, msg: string := ""): (r: Outcome<string>)
    ensures r.Fail? <==> value == None || value == Some("")
    ensures r.Fail? ==> r.error == msg + " Invalid params!"
  {
    if value == None || value == Some("") then Fail(msg + " Invalid params!") else Pass
  }

  // ---------------------------------------------------------------- MEXC

  const TimestampKey := "timestamp"

  /** The copy `gen_signed_body` encodes: the caller's parameters with
      `timestamp` set to the given value (replacing any earlier one). */
  function TimestampedParams(params: Dict, timestamp: int): (q: Dict)
    ensures Get(q, TimestampKey) == Some(Decimal.IntToString(timestamp))
    ensures forall k :: k != TimestampKey ==> Get(q, k) == Get(params, k)
    ensures UniqueKeys(params) ==> UniqueKeys(q)
  {
    PutSpec(params, TimestampKey, Decimal.IntToString(timestamp));
    Put(params, TimestampKey, Decimal.IntToString(timestamp))
  }

  /** `gen_signed_body`. The contract is the layout: the body starts with
      the encoded query of the timestamped copy, and the rest is
      '&signature=' and the HMAC-SHA256 of exactly that query. What the copy
      holds is stated by `TimestampedParams`. */
  function GenSignedBody(p: Primitives, apiSecret: string, timestamp: int, params: Dict): (body: string)
    ensures var query := p.urlencode(TimestampedParams(params, timestamp));
            |query| <= |body| && body[..|query|] == query
            && body[|query|..] == "&signature=" + p.hmacSha256Hex(apiSecret, query)
  {
    var query := p.urlencode(TimestampedParams(params, timestamp));
    query + "&signature=" + p.hmacSha256Hex(apiSecret, query)
  }

  /** Parameters that already carry the same timestamp sign to the same
      body as parameters without it. */
  lemma {:induction false} GenSignedBodyIgnoresSameTimestamp(p: Primitives, apiSecret: string, timestamp: int, params: Dict)
    ensures GenSignedBody(p, apiSecret, timestamp, TimestampedParams(params, timestamp))
            == GenSignedBody(p, apiSecret, timestamp, params)
  {
    PutIdempotent(params, TimestampKey, Decimal.IntToString(timestamp));
  }

  // ---------------------------------------------------------------- Gate

  /** Python `x or ""` for an optional text. */
  function OrEmpty(x: Option<string>): (s: string)
    ensures x.None? ==> s == ""
    ensures x.Some? ==> s == x.value
  {
    x.GetOr("")
  }

  /** Python `s.split('\n')`: the lines of `s`, one more than the line
      breaks it holds. */
  function SplitLines(s: string): (lines: seq<string>)
    ensures |lines| >= 1
    decreases |s|
  {
    if s == [] then [""]
    else if s[0] == '\n' then [""] + SplitLines(s[1..])
    else
      var rest := SplitLines(s[1..]);
      [[s[0]] + rest[0]] + rest[1..]
  }

  /** Text without a line break is one line. */
  lemma {:induction false} SplitLinesSingle(a: string)
    requires '\n' !in a
    ensures SplitLines(a) == [a]
    decreases |a|
  {
    if a != [] {
      SplitLinesSingle(a[1..]);
      assert [a[0]] + a[1..] == a;
    }
  }

  /** A line followed by a break and the rest splits into that line and the
      lines of the rest. */
  lemma {:induction false} SplitLinesCons(a: string, b: string)
    requires '\n' !in a
    ensures SplitLines(a + "\n" + b) == [a] + SplitLines(b)
    decreases |a|
  {
    var s := a + "\n" + b;
    if a == [] {
      assert s[1..] == b;
    } else {
      assert s[1..] == a[1..] + "\n" + b;
      SplitLinesCons(a[1..], b);
      assert [a[0]] + a[1..] == a;
    }
  }

  /** The string Gate signs: method, url, query, SHA-512 of the payload and
      timestamp, joined by line breaks. */
  function GateSignString(p: Primitives, timestampS: int, httpMethod: string, url: string,
                          queryString: Option<string>, payloadString: Option<string>): (s: string)
    ensures |s| == |httpMethod| + |url| + |OrEmpty(queryString)| + |p.sha512Hex(OrEmpty(payloadString))|
                   + |Decimal.IntToString(timestampS)| + 4
  {
    httpMethod + "\n" + (url + "\n" + (OrEmpty(queryString) + "\n"
      + (p.sha512Hex(OrEmpty(payloadString)) + "\n" + Decimal.IntToString(timestampS))))
  }

  /** `gen_sign`: exactly the headers KEY, Timestamp and SIGN. */
  function GenSign(p: Primitives, apiKey: string, apiSecret: string, timestampS: int, httpMethod: string, url: string,
                   queryString: Option<string> := None, payloadString: Option<string> := None): (h: Dict)
    ensures Keys(h) == ["KEY", "Timestamp", "SIGN"]
    ensures UniqueKeys(h)
    ensures Get(h, "KEY") == Some(apiKey)
    ensures Get(h, "Timestamp") == Some(Decimal.IntToString(timestampS))
    ensures Get(h, "SIGN") == Some(p.hmacSha512Hex(apiSecret, GateSignString(p, timestampS, httpMethod, url, queryString, payloadString)))
  {
    var s := GateSignString(p, timestampS, httpMethod, url, queryString, payloadString);
    var h := [("KEY", apiKey), ("Timestamp", Decimal.IntToString(timestampS)), ("SIGN", p.hmacSha512Hex(apiSecret, s))];
    KeysIndex(h);
    GetEntry(h, 0); GetEntry(h, 1); GetEntry(h, 2);
    h
  }

  /** A missing query or payload signs exactly like an empty one. */
  lemma GenSignMissingIsEmpty(p: Primitives, apiKey: string, apiSecret: string, timestampS: int,
                              httpMethod: string, url: string)
    ensures GenSign(p, apiKey, apiSecret, timestampS, httpMethod, url, None, None)
            == GenSign(p, apiKey, apiSecret, timestampS, httpMethod, url, Some(""), Some(""))
  {
  }

  /** When none of its fields holds a line break, the signed string splits
      back into exactly its five fields: method, url, query, payload hash
      and timestamp text. (A hex digest never holds one; the timestamp text
      is digits and a sign.) */
  lemma GateSignStringLines(p: Primitives, timestampS: int, httpMethod: string, url: string,
                            queryString: Option<string>, payloadString: Option<string>)
    requires '\n' !in httpMethod && '\n' !in url && '\n' !in OrEmpty(queryString)
    requires '\n' !in p.sha512Hex(OrEmpty(payloadString))
    ensures SplitLines(GateSignString(p, timestampS, httpMethod, url, queryString, payloadString))
            == [httpMethod, url, OrEmpty(queryString), p.sha512Hex(OrEmpty(payloadString)),
                Decimal.IntToString(timestampS)]
  {
    var q, h, t := OrEmpty(queryString), p.sha512Hex(OrEmpty(payloadString)), Decimal.IntToString(timestampS);
    assert '\n' !in t by {
      forall i | 0 <= i < |t| ensures t[i] != '\n' { }
    }
    SplitLinesSingle(t);
    var l4 := h + "\n" + t;
    SplitLinesCons(h, t);
    var l3 := q + "\n" + l4;
    SplitLinesCons(q, l4);
    var l2 := url + "\n" + l3;
    SplitLinesCons(url, l3);
    SplitLinesCons(httpMethod, l2);
    assert GateSignString(p, timestampS, httpMethod, url, queryString, payloadString) == httpMethod + "\n" + l2;
  }
}
