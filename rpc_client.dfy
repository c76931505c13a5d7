/** The RPC client's record log and the helpers that fill the privacy-relevant
    fields of a request record: the address scanner and the call-data
    summariser. The HTTP transport, the clocks and the configuration lookups are
    inputs here: the transport is an outcome value, the timestamp and latency
    are numbers passed in, the headers are given to the constructor. */
module RpcClient {
  import opened Seqs
  import opened Numerals

  /** A JSON value as Python holds it after decoding (floats are not modelled). */
  datatype Json =
    | JNull
    | JBool(b: bool)
    | JNum(n: int)
    | JStr(s: string)
    | JList(items: seq<Json>)
    | JObject(fields: map<string, Json>)

  /** Python truthiness of a decoded JSON value. */
  predicate Truthy(v: Json)
  {
    match v
    case JNull => false
    case JBool(b) => b
    case JNum(n) => n != 0
    case JStr(s) => s != []
    case JList(items) => items != []
    case JObject(fields) => fields != map[]
  }

  /** `dict.get(key)`: the value, or None. */
  function Get(fields: map<string, Json>, key: string): Json
  {
    if key in fields then fields[key] else JNull
  }

  /** One outbound call as recorded for the analysis. */
  datatype RequestRecord = RequestRecord(
    methodName: string,
    params: seq<Json>,
    walletId: string,
    providerId: string,
    headersSent: map<string, string>,
    timestamp: real,
    exposedAddresses: seq<string>,
    exposedParamsSummary: string)

  /** Its outcome: the result and the error object (JNull for None). */
  datatype ResponseRecord = ResponseRecord(
    request: RequestRecord,
    result: Json,
    error: Json,
    elapsedMs: real)

  // ---------------------------------------------------------------------------
  // Address extraction

  predicate StartsWith0x(s: string)
  {
    |s| >= 2 && s[..2] == "0x"
  }

  /** The address a dict parameter exposes under `key`, if any: a truthy string
      value starting with "0x" (no length check). */
  function KeyAddress(fields: map<string, Json>, key: string): seq<string>
  {
    if key in fields && Truthy(fields[key]) && fields[key].JStr? && StartsWith0x(fields[key].s)
    then [fields[key].s]
    else []
  }

  /** What one parameter contributes, in scan order: the `from`, `to` and
      `address` values of a dict, or a bare string of exactly 42 characters
      starting with "0x". */
  function ParamAddresses(p: Json): seq<string>
  {
    match p
    case JObject(fields) => KeyAddress(fields, "from") + KeyAddress(fields, "to") + KeyAddress(fields, "address")
    case JStr(s) => if StartsWith0x(s) && |s| == 42 then [s] else []
    case _ => []
  }

  /** The list the scanner builds before deduplication. */
  function AddressCandidates(params: seq<Json>): seq<string>
  {
    if params == [] then []
    else AddressCandidates(params[..|params| - 1]) + ParamAddresses(params[|params| - 1])
  }

  /** `_extract_addresses_from_params`. The source returns `list(set(...))`,
      whose order Python leaves unspecified; the model keeps first occurrences. */
  function ExtractAddresses(params: seq<Json>): seq<string>
  {
    Dedup(AddressCandidates(params))
  }

  predicate HasKeyValue(p: Json, key: string, a: string)
  {
    p.JObject? && key in p.fields && p.fields[key] == JStr(a)
  }

  /** Independent statement of which strings a parameter exposes. */
  predicate Exposes(p: Json, a: string)
  {
    StartsWith0x(a)
    && ((p == JStr(a) && |a| == 42)
        || HasKeyValue(p, "from", a) || HasKeyValue(p, "to", a) || HasKeyValue(p, "address", a))
  }

  lemma ParamAddressesSpec(p: Json, a: string)
    ensures a in ParamAddresses(p) <==> Exposes(p, a)
  {
  }

  lemma {:induction false} AddressCandidatesSpec(params: seq<Json>, a: string)
    ensures a in AddressCandidates(params) <==> exists i :: 0 <= i < |params| && Exposes(params[i], a)
  {
    if params != [] {
      var n := |params| - 1;
      var p := params[..n];
      assert AddressCandidates(params) == AddressCandidates(p) + ParamAddresses(params[n]);
      assert a in AddressCandidates(p) <==> exists i :: 0 <= i < |p| && Exposes(p[i], a) by {
        AddressCandidatesSpec(p, a);
      }
      assert a in ParamAddresses(params[n]) <==> Exposes(params[n], a) by {
        ParamAddressesSpec(params[n], a);
      }
      if a in AddressCandidates(p) {
        var i :| 0 <= i < |p| && Exposes(p[i], a);
        assert params[i] == p[i];
      } else if !Exposes(params[n], a) {
        forall i | 0 <= i < |params|
          ensures !Exposes(params[i], a)
        {
          if i < n {
            assert params[i] == p[i];
          }
        }
      }
    }
  }

  /** The extracted list has no duplicates, every element starts with "0x",
      and a string is in it exactly when some parameter exposes it: as a bare
      42-character string, or as the `from`, `to` or `address` value of a dict.
      Other keys and non-string values never contribute. */
  lemma ExtractAddressesSpec(params: seq<Json>)
    ensures NoDup(ExtractAddresses(params))
    ensures forall a :: a in ExtractAddresses(params) ==> |a| >= 2 && a[..2] == "0x"
    ensures forall a :: a in ExtractAddresses(params) <==>
              exists i :: 0 <= i < |params| && Exposes(params[i], a)
  {
    DedupSpec(AddressCandidates(params));
    forall a
      ensures a in ExtractAddresses(params) <==> exists i :: 0 <= i < |params| && Exposes(params[i], a)
    {
      AddressCandidatesSpec(params, a);
    }
  }

  // ---------------------------------------------------------------------------
  // Call-data summary

  /** `_summarize_call_data`: "" for a falsy or non-string value, short strings
      as they are, otherwise the first ten characters and the decimal length. */
  function SummarizeCallData(data: Json): string
  {
    if !Truthy(data) || !data.JStr? then ""
    else if |data.s| < 10 then data.s
    else "selector=" + data.s[..10] + "..., len=" + Digits(|data.s|, 10)
  }

  /** The summary is empty exactly when the data is not a non-empty string; a
      long summary gives back the first ten characters and the canonical
      decimal numeral (no leading zero) of the exact length of the data. */
  lemma SummarizeCallDataSpec(data: Json)
    ensures SummarizeCallData(data) == "" <==> !data.JStr? || data.s == []
    ensures data.JStr? && |data.s| < 10 ==> SummarizeCallData(data) == data.s
    ensures data.JStr? && |data.s| >= 10 ==>
              var r := SummarizeCallData(data);
              |r| > 28 && r[..9] == "selector=" && r[9..19] == data.s[..10] && r[19..28] == "..., len="
              && (forall i :: 28 <= i < |r| ==> '0' <= r[i] <= '9') && r[28] != '0'
              && Value(r[28..], 10) == |data.s|
  {
    if data.JStr? && |data.s| >= 10 {
      var d := Digits(|data.s|, 10);
      var r := SummarizeCallData(data);
      DigitsShape(|data.s|, 10);
      DigitsRoundTrip(|data.s|, 10);
      assert r[28..] == d;
      assert r[28] == d[0];
      forall i | 28 <= i < |r|
        ensures '0' <= r[i] <= '9'
      {
        assert r[i] == d[i - 28];
      }
    }
  }

  predicate HasDataField(p: Json)
  {
    p.JObject? && "data" in p.fields
  }

  /** `params[i]` is the first dict parameter with a `data` key. */
  predicate FirstWithData(params: seq<Json>, i: int)
  {
    0 <= i < |params| && HasDataField(params[i]) && forall j :: 0 <= j < i ==> !HasDataField(params[j])
  }

  /** The summary recorded for a call: that of the first dict parameter with a
      `data` key, even when it is empty; "" when there is none. */
  function FirstDataSummary(params: seq<Json>): string
  {
    if params == [] then ""
    else if HasDataField(params[0]) then SummarizeCallData(params[0].fields["data"])
    else FirstDataSummary(params[1..])
  }

  lemma {:induction false} FirstDataSummarySpec(params: seq<Json>)
    ensures (forall i :: 0 <= i < |params| ==> !HasDataField(params[i])) ==>
              FirstDataSummary(params) == ""
    ensures forall i :: FirstWithData(params, i) ==>
              FirstDataSummary(params) == SummarizeCallData(params[i].fields["data"])
  {
    if params != [] {
      FirstDataSummarySpec(params[1..]);
      if !HasDataField(params[0]) {
        forall i | FirstWithData(params, i)
          ensures FirstDataSummary(params) == SummarizeCallData(params[i].fields["data"])
        {
          assert params[1..][i - 1] == params[i];
          forall j | 0 <= j < i - 1
            ensures !HasDataField(params[1..][j])
          {
            assert params[1..][j] == params[j + 1];
          }
        }
        if forall i :: 0 <= i < |params| ==> !HasDataField(params[i]) {
          forall i | 0 <= i < |params| - 1
            ensures !HasDataField(params[1..][i])
          {
            assert params[1..][i] == params[i + 1];
          }
        }
      }
    }
  }

  /** The scan in `call`: stop at the first dict parameter with a `data` key. */
  method ChooseSummary(params: seq<Json>) returns (summary: string)
    ensures summary == FirstDataSummary(params)
  {
    summary := "";
    var i := 0;
    while i < |params|
      invariant 0 <= i <= |params|
      invariant FirstDataSummary(params) == FirstDataSummary(params[i..])
    {
      var p := params[i];
      assert params[i..][1..] == params[i + 1..];
      if p.JObject? && "data" in p.fields {
        summary := SummarizeCallData(Get(p.fields, "data"));
        return;
      }
      i := i + 1;
    }
  }

  /** The request record `call` builds: the derived fields are functions of
      the parameters, and the headers are the client's. */
  function BuildRequest(methodName: string, params: seq<Json>, walletId: string, providerId: string,
                        headers: map<string, string>, timestamp: real): RequestRecord
  {
    RequestRecord(methodName, params, walletId, providerId, headers, timestamp,
                  ExtractAddresses(params), FirstDataSummary(params))
  }

  // ---------------------------------------------------------------------------
  // The client

  /** What the transport did: an HTTP response whose body decoded to a JSON
      value, or a `requests` exception (connection, timeout, HTTP status,
      undecodable body) with its message. */
  datatype Transport = HttpBody(body: Json) | RequestFailure(message: string)

  /** What `call` does for its caller: return the result, raise RuntimeError
      for an RPC-level error, re-raise the transport exception, or fail with
      AttributeError when the body is not a JSON object (`data.get`). */
  datatype CallResult =
    | Returned(value: Json)
    | RpcErrorRaised(error: Json)
    | TransportRaised(message: string)
    | BodyNotObjectRaised

  function CallOutcome(transport: Transport): CallResult
  {
    match transport
    case RequestFailure(m) => TransportRaised(m)
    case HttpBody(body) =>
      if !body.JObject? then BodyNotObjectRaised
      else if Truthy(Get(body.fields, "error")) then RpcErrorRaised(Get(body.fields, "error"))
      else Returned(Get(body.fields, "result"))
  }

  /** The response record `call` logs for a transport outcome; none when the
      body is not an object, since `data.get` fails before the append. */
  function ResponseFor(req: RequestRecord, transport: Transport, elapsedMs: real): seq<ResponseRecord>
  {
    match transport
    case RequestFailure(m) => [ResponseRecord(req, JNull, JObject(map["message" := JStr(m)]), elapsedMs)]
    case HttpBody(body) =>
      if body.JObject? then [ResponseRecord(req, Get(body.fields, "result"), Get(body.fields, "error"), elapsedMs)]
      else []
  }

  /** At most one response is logged per call, and it refers to the request.
      It is missing only when the body is not a JSON object; on a transport
      exception it has no result and an error holding the exception's
      message; otherwise it holds the body's `result` and `error` members
      (JNull when absent). */
  lemma ResponseForSpec(req: RequestRecord, transport: Transport, elapsedMs: real)
    ensures var r := ResponseFor(req, transport, elapsedMs);
            && (|r| == 0 <==> transport.HttpBody? && !transport.body.JObject?)
            && |r| <= 1
            && (|r| == 1 ==> r[0].request == req && r[0].elapsedMs == elapsedMs)
            && (transport.RequestFailure? ==>
                  r[0].result == JNull && r[0].error == JObject(map["message" := JStr(transport.message)]))
            && (transport.HttpBody? && transport.body.JObject? ==>
                  && r[0].result == (if "result" in transport.body.fields then transport.body.fields["result"] else JNull)
                  && r[0].error == (if "error" in transport.body.fields then transport.body.fields["error"] else JNull))
  {
  }

  class Client {
    const providerId: string
    const walletId: string
    const headers: map<string, string>
    var records: seq<(RequestRecord, ResponseRecord)>

    /** A logged pair was built by this client: the request's derived fields
        agree with its parameters, it carries this client's identity and a
        copy of its headers, and the response refers to that request. */
    predicate Logged(entry: (RequestRecord, ResponseRecord))
    {
      var (req, resp) := entry;
      && req.exposedAddresses == ExtractAddresses(req.params)
      && req.exposedParamsSummary == FirstDataSummary(req.params)
      && req.walletId == walletId
      && req.providerId == providerId
      && req.headersSent == headers
      && resp.request == req
    }

    ghost predicate Valid()
      reads this
    {
      forall i :: 0 <= i < |records| ==> Logged(records[i])
    }

    constructor (providerId: string, walletId: string, headers: map<string, string>)
      ensures this.providerId == providerId && this.walletId == walletId && this.headers == headers
      ensures records == [] && Valid()
    {
      this.providerId := providerId;
      this.walletId := walletId;
      this.headers := headers;
      records := [];
    }

    /** One JSON-RPC call. With `record` set, exactly one (request, response)
        pair is appended whether the call succeeds, gets an RPC error or hits a
        transport exception; only a body that is not an object escapes before
        the append. Without `record`, the log is untouched. */
    method Call(methodName: string, params: seq<Json>, record: bool, transport: Transport,
                timestamp: real, elapsedMs: real) returns (res: CallResult)
      requires Valid()
      modifies this
      ensures Valid()
      ensures res == CallOutcome(transport)
      ensures var req := BuildRequest(methodName, params, walletId, providerId, headers, timestamp);
              records == old(records)
                + (if record then seq(|ResponseFor(req, transport, elapsedMs)|,
                                      i requires 0 <= i < |ResponseFor(req, transport, elapsedMs)| =>
                                        (req, ResponseFor(req, transport, elapsedMs)[i]))
                   else [])
    {
      var reqRecord: RequestRecord;
      if record {
        var exposed := ExtractAddresses(params);
        var callSummary := ChooseSummary(params);
        reqRecord := RequestRecord(methodName, params, walletId, providerId, headers, timestamp,
                                   exposed, callSummary);
      }
      match transport {
        case RequestFailure(m) =>
          if record {
            var respRecord := ResponseRecord(reqRecord, JNull, JObject(map["message" := JStr(m)]), elapsedMs);
            records := records + [(reqRecord, respRecord)];
          }
          res := TransportRaised(m);
        case HttpBody(body) =>
          if !body.JObject? {
            res := BodyNotObjectRaised;
          } else {
            var result := Get(body.fields, "result");
            var error := Get(body.fields, "error");
            if record {
              var respRecord := ResponseRecord(reqRecord, result, error, elapsedMs);
              records := records + [(reqRecord, respRecord)];
            }
            if Truthy(error) {
              res := RpcErrorRaised(error);
            } else {
              res := Returned(result);
            }
          }
      }
    }

    method GetRecords() returns (log: seq<(RequestRecord, ResponseRecord)>)
      requires Valid()
      ensures log == records
      ensures forall i :: 0 <= i < |log| ==> Logged(log[i])
    {
      log := records;
    }

    method ClearRecords()
      modifies this
      ensures records == [] && Valid()
    {
      records := [];
    }
  }
}
