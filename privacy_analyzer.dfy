/** The privacy analysis: one recorded request becomes a fixed-order list of
    dimension findings, and many such lists are folded into one finding per
    dimension, the first one of the highest risk seen. */
module PrivacyAnalyzer {
  import opened Seqs
  import opened RpcClient

  /** One dimension's verdict on one request. */
  datatype Finding = Finding(
    dimensionId: string,
    dimensionName: string,
    riskLevel: string,
    description: string,
    evidence: seq<string>,
    recommendation: string)

  const IpExposure: string := "ip_exposure"
  const AddressAssociation: string := "address_association"
  const CallParamsLeak: string := "call_params_leak"
  const TransactionTracing: string := "transaction_tracing"
  const RequestHeaderFingerprint: string := "request_header_fingerprint"

  /** The order in which the analyzer emits dimensions. */
  const Catalogue: seq<string> :=
    [IpExposure, AddressAssociation, CallParamsLeak, TransactionTracing, RequestHeaderFingerprint]

  /** The static table of the dimensions each RPC method can expose. */
  const MethodPrivacyMap: map<string, seq<string>> := map[
    "eth_getBalance" := [AddressAssociation],
    "eth_getTransactionCount" := [AddressAssociation],
    "eth_estimateGas" := [AddressAssociation, CallParamsLeak],
    "eth_call" := [AddressAssociation, CallParamsLeak],
    "eth_sendRawTransaction" := [AddressAssociation, TransactionTracing, CallParamsLeak],
    "eth_getTransactionByHash" := [TransactionTracing],
    "eth_getBlockByNumber" := [],
    "eth_blockNumber" := []
  ]

  const FingerprintHeaders: seq<string> := ["User-Agent", "Origin", "X-Client", "X-Requested-With"]

  /** Header values are cut to this many characters in the evidence. */
  const PreviewLength: nat := 50

  // ---------------------------------------------------------------------------
  // Evidence text. Python's `repr` of a list of strings or of (name, value)
  // tuples is rendered with single quotes and no escaping.

  function Quote(s: string): string
  {
    "'" + s + "'"
  }

  function JoinReprs(xs: seq<string>): string
  {
    if xs == [] then "" else if |xs| == 1 then Quote(xs[0]) else Quote(xs[0]) + ", " + JoinReprs(xs[1..])
  }

  function ReprList(xs: seq<string>): string
  {
    "[" + JoinReprs(xs) + "]"
  }

  function JoinPairs(ps: seq<(string, string)>): string
  {
    if ps == [] then ""
    else
      var item := "(" + Quote(ps[0].0) + ", " + Quote(ps[0].1) + ")";
      if |ps| == 1 then item else item + ", " + JoinPairs(ps[1..])
  }

  function ReprPairs(ps: seq<(string, string)>): string
  {
    "[" + JoinPairs(ps) + "]"
  }

  // ---------------------------------------------------------------------------
  // Header fingerprint

  /** A header is present with a non-empty (truthy) value. */
  predicate Fingerprints(headers: map<string, string>, h: string)
  {
    h in headers && headers[h] != ""
  }

  /** `[h for h in names if h in headers and headers.get(h)]`. */
  function FoundHeaders(names: seq<string>, headers: map<string, string>): seq<string>
  {
    if names == [] then []
    else (if Fingerprints(headers, names[0]) then [names[0]] else []) + FoundHeaders(names[1..], headers)
  }

  /** The comprehension keeps exactly the names that fingerprint, and keeps
      each only as often as it is listed: a list without repeats gives a
      result without repeats. */
  lemma {:induction false} FoundHeadersSpec(names: seq<string>, headers: map<string, string>)
    ensures forall h :: h in FoundHeaders(names, headers) <==> h in names && Fingerprints(headers, h)
    ensures |FoundHeaders(names, headers)| <= |names|
    ensures NoDup(names) ==> NoDup(FoundHeaders(names, headers))
  {
    if names != [] {
      var rest := FoundHeaders(names[1..], headers);
      FoundHeadersSpec(names[1..], headers);
      assert names == [names[0]] + names[1..];
      if NoDup(names) {
        NoDupTail(names);
        var r := FoundHeaders(names, headers);
        if Fingerprints(headers, names[0]) {
          assert r == [names[0]] + rest;
          forall i, j | 0 <= i < j < |r|
            ensures r[i] != r[j]
          {
            assert r[j] == rest[j - 1];
            if i > 0 {
              assert r[i] == rest[i - 1];
            }
          }
        } else {
          assert r == rest;
        }
      }
    }
  }

  /** `preview` is `value` cut to its first 50 characters: the prefix of
      length min(50, |value|). */
  predicate IsPreview(preview: string, value: string)
  {
    |preview| == (if |value| <= PreviewLength then |value| else PreviewLength) && preview <= value
  }

  /** `value[:50]`. */
  function Preview(value: string): (p: string)
    ensures IsPreview(p, value)
  {
    if |value| <= PreviewLength then value else value[..PreviewLength]
  }

  /** `[(h, headers.get(h, '')[:50]) for h in found]`. */
  function HeaderPreviews(found: seq<string>, headers: map<string, string>): seq<(string, string)>
  {
    if found == [] then []
    else [(found[0], Preview(if found[0] in headers then headers[found[0]] else ""))]
         + HeaderPreviews(found[1..], headers)
  }

  /** One preview per found header, in order: the first 50 characters of the
      header's value, or "" when the header is absent. */
  lemma {:induction false} HeaderPreviewsSpec(found: seq<string>, headers: map<string, string>)
    ensures |HeaderPreviews(found, headers)| == |found|
    ensures forall i :: 0 <= i < |found| ==> HeaderPreviews(found, headers)[i].0 == found[i]
    ensures forall i :: 0 <= i < |found| && found[i] in headers ==>
              IsPreview(HeaderPreviews(found, headers)[i].1, headers[found[i]])
    ensures forall i :: 0 <= i < |found| && found[i] !in headers ==> HeaderPreviews(found, headers)[i].1 == ""
  {
    if found != [] {
      HeaderPreviewsSpec(found[1..], headers);
      var ps := HeaderPreviews(found, headers);
      forall i | 0 < i < |found|
        ensures ps[i] == HeaderPreviews(found[1..], headers)[i - 1] && found[i] == found[1..][i - 1]
      {
      }
    }
  }

  // ---------------------------------------------------------------------------
  // The analyzer

  function IpFinding(req: RequestRecord): Finding
  {
    Finding(IpExposure, "IP 地址暴露", "high",
            "RPC 节点可记录请求来源 IP，用于地理位置与身份关联",
            ["请求直接发送至 RPC 节点，节点可记录来源 IP", "Provider: " + req.providerId],
            "使用代理/VPN 或 Tor，或使用去中心化 RPC 聚合服务")
  }

  function AddressFinding(req: RequestRecord): Finding
  {
    Finding(AddressAssociation, "钱包地址关联", "high",
            "RPC 参数中的 from/to 暴露钱包地址，可与 IP 关联",
            ["Method: " + req.methodName, "Exposed addresses: " + ReprList(req.exposedAddresses)],
            "无法完全避免，可考虑使用多个 RPC 分散请求")
  }

  function CallParamsFinding(req: RequestRecord): Finding
  {
    Finding(CallParamsLeak, "调用参数敏感信息泄露", "high",
            "data 字段包含完整 ABI 编码，可解析出函数名、参数值",
            ["Method: " + req.methodName, "Params summary: " + req.exposedParamsSummary],
            "敏感参数可考虑链下加密或零知识证明")
  }

  function TracingFinding(req: RequestRecord): Finding
  {
    Finding(TransactionTracing, "交易行为溯源", "medium",
            "交易提交与查询可被 RPC 节点记录，用于行为分析",
            ["Method: " + req.methodName],
            "使用不同 RPC 提交交易与查询，降低关联度")
  }

  function HeaderFinding(req: RequestRecord, found: seq<string>): Finding
  {
    Finding(RequestHeaderFingerprint, "请求头唯一标识泄露", "medium",
            "User-Agent、Origin 等可能构成设备/应用指纹",
            ["Wallet: " + req.walletId,
             "Relevant headers: " + ReprPairs(HeaderPreviews(found, req.headersSent))],
            "统一请求头或使用通用客户端减少指纹区分度")
  }

  predicate CallParamsTriggered(req: RequestRecord)
  {
    req.exposedParamsSummary != "" && (req.methodName == "eth_call" || req.methodName == "eth_estimateGas")
  }

  predicate TracingTriggered(req: RequestRecord)
  {
    req.methodName == "eth_sendRawTransaction" || req.methodName == "eth_getTransactionByHash"
  }

  predicate HeaderTriggered(req: RequestRecord)
  {
    Fingerprints(req.headersSent, "User-Agent") || Fingerprints(req.headersSent, "Origin")
    || Fingerprints(req.headersSent, "X-Client") || Fingerprints(req.headersSent, "X-Requested-With")
  }

  /** The dimension ids of a list of findings, in order. */
  function Ids(fs: seq<Finding>): (ids: seq<string>)
    ensures |ids| == |fs|
    ensures forall i :: 0 <= i < |fs| ==> ids[i] == fs[i].dimensionId
  {
    if fs == [] then [] else Ids(fs[..|fs| - 1]) + [fs[|fs| - 1].dimensionId]
  }

  lemma {:induction false} IdsConcat(a: seq<Finding>, b: seq<Finding>)
    ensures Ids(a + b) == Ids(a) + Ids(b)
  {
  }

  lemma IdsSingleton(f: Finding)
    ensures Ids([f]) == [f.dimensionId]
  {
    assert [f][..0] == [];
  }

  /** The fixed risk of each dimension the analyzer emits. */
  function FixedRisk(id: string): string
  {
    if id == TransactionTracing || id == RequestHeaderFingerprint then "medium" else "high"
  }

  /** Position of a dimension in the emission order (5 for unknown ids). */
  function CatalogueIndex(id: string): (n: nat)
    ensures n <= 5
    ensures n < 5 ==> Catalogue[n] == id
  {
    if id == IpExposure then 0
    else if id == AddressAssociation then 1
    else if id == CallParamsLeak then 2
    else if id == TransactionTracing then 3
    else if id == RequestHeaderFingerprint then 4
    else 5
  }

  /** The comprehension finds a header exactly when one of the four
      fingerprinting headers is present with a non-empty value. */
  lemma FoundFingerprintHeaders(headers: map<string, string>)
    ensures FoundHeaders(FingerprintHeaders, headers) != [] <==>
              Fingerprints(headers, "User-Agent") || Fingerprints(headers, "Origin")
              || Fingerprints(headers, "X-Client") || Fingerprints(headers, "X-Requested-With")
  {
    var found := FoundHeaders(FingerprintHeaders, headers);
    FoundHeadersSpec(FingerprintHeaders, headers);
    if found != [] {
      assert found[0] in FingerprintHeaders && Fingerprints(headers, found[0]);
    }
    assert FingerprintHeaders[0] == "User-Agent" && FingerprintHeaders[1] == "Origin";
    assert FingerprintHeaders[2] == "X-Client" && FingerprintHeaders[3] == "X-Requested-With";
  }

  /** A finding that is emitted only when its rule fires. */
  function Optional(fires: bool, f: Finding): seq<Finding>
  {
    if fires then [f] else []
  }

  lemma IdsOptional(fires: bool, f: Finding)
    ensures Ids(Optional(fires, f)) == if fires then [f.dimensionId] else []
  {
    IdsSingleton(f);
  }

  /** `analyze_request`: the rules, in catalogue order. The response takes no
      part in the analysis. */
  function AnalyzeRequest(req: RequestRecord, resp: ResponseRecord): seq<Finding>
  {
    var found := FoundHeaders(FingerprintHeaders, req.headersSent);
    [IpFinding(req)]
    + Optional(req.exposedAddresses != [], AddressFinding(req))
    + Optional(CallParamsTriggered(req), CallParamsFinding(req))
    + Optional(TracingTriggered(req), TracingFinding(req))
    + Optional(found != [], HeaderFinding(req, found))
  }

  /** The ids of the rules that fire for a request, in catalogue order. */
  function TriggeredIds(req: RequestRecord): seq<string>
  {
    [IpExposure]
    + (if req.exposedAddresses != [] then [AddressAssociation] else [])
    + (if CallParamsTriggered(req) then [CallParamsLeak] else [])
    + (if TracingTriggered(req) then [TransactionTracing] else [])
    + (if HeaderTriggered(req) then [RequestHeaderFingerprint] else [])
  }

  lemma InOptional(x: string, a: seq<string>, fires: bool, y: string)
    ensures x in a + (if fires then [y] else []) <==> x in a || (fires && x == y)
  {
  }

  /** Which ids the triggered list holds, rule by rule. */
  lemma TriggeredIdsMembers(req: RequestRecord)
    ensures AddressAssociation in TriggeredIds(req) <==> req.exposedAddresses != []
    ensures CallParamsLeak in TriggeredIds(req) <==> CallParamsTriggered(req)
    ensures TransactionTracing in TriggeredIds(req) <==> TracingTriggered(req)
    ensures RequestHeaderFingerprint in TriggeredIds(req) <==> HeaderTriggered(req)
  {
    var s0 := [IpExposure];
    var s1 := s0 + (if req.exposedAddresses != [] then [AddressAssociation] else []);
    var s2 := s1 + (if CallParamsTriggered(req) then [CallParamsLeak] else []);
    var s3 := s2 + (if TracingTriggered(req) then [TransactionTracing] else []);
    var s4 := s3 + (if HeaderTriggered(req) then [RequestHeaderFingerprint] else []);
    assert TriggeredIds(req) == s4;
    forall x
      ensures x in s4 <==>
                x == IpExposure || (req.exposedAddresses != [] && x == AddressAssociation)
                || (CallParamsTriggered(req) && x == CallParamsLeak)
                || (TracingTriggered(req) && x == TransactionTracing)
                || (HeaderTriggered(req) && x == RequestHeaderFingerprint)
    {
      InOptional(x, s0, req.exposedAddresses != [], AddressAssociation);
      InOptional(x, s1, CallParamsTriggered(req), CallParamsLeak);
      InOptional(x, s2, TracingTriggered(req), TransactionTracing);
      InOptional(x, s3, HeaderTriggered(req), RequestHeaderFingerprint);
    }
    assert CatalogueIndex(IpExposure) == 0 && CatalogueIndex(AddressAssociation) == 1;
    assert CatalogueIndex(CallParamsLeak) == 2 && CatalogueIndex(TransactionTracing) == 3;
    assert CatalogueIndex(RequestHeaderFingerprint) == 4;
  }

  /** The dimension ids the analyzer emits: `ip_exposure` always, each other
      one exactly when its rule fires, in catalogue order. */
  lemma AnalyzeRequestIds(req: RequestRecord, resp: ResponseRecord)
    ensures Ids(AnalyzeRequest(req, resp)) == TriggeredIds(req)
  {
    var found := FoundHeaders(FingerprintHeaders, req.headersSent);
    assert found != [] <==> HeaderTriggered(req) by {
      FoundFingerprintHeaders(req.headersSent);
    }
    RuleIds(IpFinding(req),
            req.exposedAddresses != [], AddressFinding(req),
            CallParamsTriggered(req), CallParamsFinding(req),
            TracingTriggered(req), TracingFinding(req),
            found != [], HeaderFinding(req, found));
  }

  /** The ids of one mandatory finding followed by four optional ones. */
  lemma RuleIds(f0: Finding, c1: bool, f1: Finding, c2: bool, f2: Finding,
                c3: bool, f3: Finding, c4: bool, f4: Finding)
    ensures Ids([f0] + Optional(c1, f1) + Optional(c2, f2) + Optional(c3, f3) + Optional(c4, f4))
            == [f0.dimensionId] + (if c1 then [f1.dimensionId] else [])
               + (if c2 then [f2.dimensionId] else []) + (if c3 then [f3.dimensionId] else [])
               + (if c4 then [f4.dimensionId] else [])
  {
    var p0, p1, p2, p3, p4 := [f0], Optional(c1, f1), Optional(c2, f2), Optional(c3, f3), Optional(c4, f4);
    IdsConcat(p0, p1);
    IdsConcat(p0 + p1, p2);
    IdsConcat(p0 + p1 + p2, p3);
    IdsConcat(p0 + p1 + p2 + p3, p4);
    IdsSingleton(f0);
    IdsOptional(c1, f1);
    IdsOptional(c2, f2);
    IdsOptional(c3, f3);
    IdsOptional(c4, f4);
  }

  /** Every analysis, whatever the method, parameters, headers or response,
      starts with `ip_exposure` at risk high. */
  lemma AlwaysIpExposure(req: RequestRecord, resp: ResponseRecord)
    ensures |AnalyzeRequest(req, resp)| >= 1
    ensures AnalyzeRequest(req, resp)[0].dimensionId == IpExposure
    ensures AnalyzeRequest(req, resp)[0].riskLevel == "high"
  {
    AnalyzeRequestIds(req, resp);
  }

  /** `address_association` is reported exactly when addresses were exposed. */
  lemma AddressAssociationRule(req: RequestRecord, resp: ResponseRecord)
    ensures AddressAssociation in Ids(AnalyzeRequest(req, resp)) <==> req.exposedAddresses != []
  {
    AnalyzeRequestIds(req, resp);
    TriggeredIdsMembers(req);
  }

  /** `call_params_leak` is reported exactly when there is a call-data summary
      and the method is `eth_call` or `eth_estimateGas`. */
  lemma CallParamsLeakRule(req: RequestRecord, resp: ResponseRecord)
    ensures CallParamsLeak in Ids(AnalyzeRequest(req, resp)) <==>
              req.exposedParamsSummary != "" && (req.methodName == "eth_call" || req.methodName == "eth_estimateGas")
  {
    AnalyzeRequestIds(req, resp);
    TriggeredIdsMembers(req);
  }

  /** `transaction_tracing` is reported exactly for `eth_sendRawTransaction`
      and `eth_getTransactionByHash`. */
  lemma TransactionTracingRule(req: RequestRecord, resp: ResponseRecord)
    ensures TransactionTracing in Ids(AnalyzeRequest(req, resp)) <==>
              req.methodName == "eth_sendRawTransaction" || req.methodName == "eth_getTransactionByHash"
  {
    AnalyzeRequestIds(req, resp);
    TriggeredIdsMembers(req);
  }

  /** `request_header_fingerprint` is reported exactly when one of the four
      fingerprinting headers was sent with a non-empty value. */
  lemma HeaderFingerprintRule(req: RequestRecord, resp: ResponseRecord)
    ensures RequestHeaderFingerprint in Ids(AnalyzeRequest(req, resp)) <==>
              Fingerprints(req.headersSent, "User-Agent") || Fingerprints(req.headersSent, "Origin")
              || Fingerprints(req.headersSent, "X-Client") || Fingerprints(req.headersSent, "X-Requested-With")
  {
    AnalyzeRequestIds(req, resp);
    TriggeredIdsMembers(req);
  }

  /** Ids strictly ascending in catalogue order, all before position `bound`. */
  predicate AscendingBelow(ids: seq<string>, bound: nat)
  {
    && (forall i, j :: 0 <= i < j < |ids| ==> CatalogueIndex(ids[i]) < CatalogueIndex(ids[j]))
    && (forall i :: 0 <= i < |ids| ==> CatalogueIndex(ids[i]) < bound)
  }

  lemma AscendingExtend(ids: seq<string>, fires: bool, id: string)
    requires AscendingBelow(ids, CatalogueIndex(id))
    ensures AscendingBelow(ids + (if fires then [id] else []), CatalogueIndex(id) + 1)
  {
  }

  lemma TriggeredIdsAscending(req: RequestRecord)
    ensures 1 <= |TriggeredIds(req)| <= 5
    ensures AscendingBelow(TriggeredIds(req), 5)
  {
    AscendingRules(req.exposedAddresses != [], CallParamsTriggered(req), TracingTriggered(req), HeaderTriggered(req));
  }

  /** `ip_exposure` followed by any selection of the other four ids, in
      catalogue order. */
  lemma AscendingRules(c1: bool, c2: bool, c3: bool, c4: bool)
    ensures var ids := [IpExposure] + (if c1 then [AddressAssociation] else [])
                       + (if c2 then [CallParamsLeak] else []) + (if c3 then [TransactionTracing] else [])
                       + (if c4 then [RequestHeaderFingerprint] else []);
            1 <= |ids| <= 5 && AscendingBelow(ids, 5)
  {
    assert CatalogueIndex(IpExposure) == 0 && CatalogueIndex(AddressAssociation) == 1;
    assert CatalogueIndex(CallParamsLeak) == 2 && CatalogueIndex(TransactionTracing) == 3;
    assert CatalogueIndex(RequestHeaderFingerprint) == 4;
    var s0 := [IpExposure];
    var s1 := s0 + (if c1 then [AddressAssociation] else []);
    var s2 := s1 + (if c2 then [CallParamsLeak] else []);
    var s3 := s2 + (if c3 then [TransactionTracing] else []);
    assert AscendingBelow(s0, 1);
    AscendingExtend(s0, c1, AddressAssociation);
    AscendingExtend(s1, c2, CallParamsLeak);
    AscendingExtend(s2, c3, TransactionTracing);
    AscendingExtend(s3, c4, RequestHeaderFingerprint);
  }

  lemma AscendingFindings(r: seq<Finding>, ids: seq<string>)
    requires Ids(r) == ids && AscendingBelow(ids, 5)
    ensures forall i, j :: 0 <= i < j < |r| ==> CatalogueIndex(r[i].dimensionId) < CatalogueIndex(r[j].dimensionId)
  {
    forall i, j | 0 <= i < j < |r|
      ensures CatalogueIndex(r[i].dimensionId) < CatalogueIndex(r[j].dimensionId)
    {
      assert r[i].dimensionId == ids[i] && r[j].dimensionId == ids[j];
    }
  }

  /** Between one and five findings whose ids are distinct and in catalogue
      order. */
  lemma AnalyzeRequestOrder(req: RequestRecord, resp: ResponseRecord)
    ensures 1 <= |AnalyzeRequest(req, resp)| <= 5
    ensures forall i, j :: 0 <= i < j < |AnalyzeRequest(req, resp)| ==>
              CatalogueIndex(AnalyzeRequest(req, resp)[i].dimensionId)
              < CatalogueIndex(AnalyzeRequest(req, resp)[j].dimensionId)
  {
    AnalyzeRequestIds(req, resp);
    TriggeredIdsAscending(req);
    AscendingFindings(AnalyzeRequest(req, resp), TriggeredIds(req));
  }

  /** The analysis does not look at the response: a failed call leaks as much
      as a successful one. */
  lemma AnalyzeIgnoresResponse(req: RequestRecord, resp1: ResponseRecord, resp2: ResponseRecord)
    ensures AnalyzeRequest(req, resp1) == AnalyzeRequest(req, resp2)
  {
  }

  predicate AtFixedRisk(fs: seq<Finding>)
  {
    forall i :: 0 <= i < |fs| ==> fs[i].dimensionId in Catalogue && fs[i].riskLevel == FixedRisk(fs[i].dimensionId)
  }

  lemma AtFixedRiskConcat(a: seq<Finding>, b: seq<Finding>)
    requires AtFixedRisk(a) && AtFixedRisk(b)
    ensures AtFixedRisk(a + b)
  {
    forall i | |a| <= i < |a + b|
      ensures (a + b)[i] == b[i - |a|]
    {
    }
  }

  /** Each finding carries its dimension's fixed risk: high for IP exposure,
      address association and call parameters, medium for transaction tracing
      and header fingerprinting. */
  lemma AnalyzeRequestRisks(req: RequestRecord, resp: ResponseRecord)
    ensures forall i :: 0 <= i < |AnalyzeRequest(req, resp)| ==>
              AnalyzeRequest(req, resp)[i].dimensionId in Catalogue
              && AnalyzeRequest(req, resp)[i].riskLevel == FixedRisk(AnalyzeRequest(req, resp)[i].dimensionId)
  {
    var found := FoundHeaders(FingerprintHeaders, req.headersSent);
    IpFindingRisk(req);
    AddressFindingRisk(req);
    CallParamsFindingRisk(req);
    TracingFindingRisk(req);
    HeaderFindingRisk(req, found);
    RulesAtFixedRisk(IpFinding(req),
                     req.exposedAddresses != [], AddressFinding(req),
                     CallParamsTriggered(req), CallParamsFinding(req),
                     TracingTriggered(req), TracingFinding(req),
                     found != [], HeaderFinding(req, found));
  }

  lemma IpFindingRisk(req: RequestRecord)
    ensures AtFixedRisk([IpFinding(req)])
  {
  }

  lemma AddressFindingRisk(req: RequestRecord)
    ensures AtFixedRisk([AddressFinding(req)])
  {
  }

  lemma CallParamsFindingRisk(req: RequestRecord)
    ensures AtFixedRisk([CallParamsFinding(req)])
  {
  }

  lemma TracingFindingRisk(req: RequestRecord)
    ensures AtFixedRisk([TracingFinding(req)])
  {
  }

  lemma HeaderFindingRisk(req: RequestRecord, found: seq<string>)
    ensures AtFixedRisk([HeaderFinding(req, found)])
  {
  }

  /** One mandatory finding followed by four optional ones, each at its
      dimension's fixed risk. */
  lemma RulesAtFixedRisk(f0: Finding, c1: bool, f1: Finding, c2: bool, f2: Finding,
                         c3: bool, f3: Finding, c4: bool, f4: Finding)
    requires AtFixedRisk([f0]) && AtFixedRisk([f1]) && AtFixedRisk([f2])
    requires AtFixedRisk([f3]) && AtFixedRisk([f4])
    ensures AtFixedRisk([f0] + Optional(c1, f1) + Optional(c2, f2) + Optional(c3, f3) + Optional(c4, f4))
  {
    var p0, p1, p2, p3, p4 := [f0], Optional(c1, f1), Optional(c2, f2), Optional(c3, f3), Optional(c4, f4);
    assert AtFixedRisk([]);
    AtFixedRiskConcat(p0, p1);
    AtFixedRiskConcat(p0 + p1, p2);
    AtFixedRiskConcat(p0 + p1 + p2, p3);
    AtFixedRiskConcat(p0 + p1 + p2 + p3, p4);
  }

  /** The (name, preview) pairs shown in the header-fingerprint evidence. */
  function RelevantHeaders(req: RequestRecord): seq<(string, string)>
  {
    HeaderPreviews(FoundHeaders(FingerprintHeaders, req.headersSent), req.headersSent)
  }

  /** The relevant headers are exactly the fingerprinting headers sent with a
      non-empty value, each shown by the first 50 characters of its value. */
  lemma RelevantHeadersSpec(req: RequestRecord)
    ensures forall k :: 0 <= k < |RelevantHeaders(req)| ==>
              var (name, preview) := RelevantHeaders(req)[k];
              name in FingerprintHeaders && Fingerprints(req.headersSent, name)
              && IsPreview(preview, req.headersSent[name])
    ensures forall h :: h in FingerprintHeaders && Fingerprints(req.headersSent, h) ==>
              exists k :: 0 <= k < |RelevantHeaders(req)| && RelevantHeaders(req)[k].0 == h
  {
    var found := FoundHeaders(FingerprintHeaders, req.headersSent);
    FoundHeadersSpec(FingerprintHeaders, req.headersSent);
    HeaderPreviewsSpec(found, req.headersSent);
    forall k | 0 <= k < |RelevantHeaders(req)|
      ensures RelevantHeaders(req)[k].0 in found
    {
      assert RelevantHeaders(req)[k].0 == found[k];
    }
    forall h | h in FingerprintHeaders && Fingerprints(req.headersSent, h)
      ensures exists k :: 0 <= k < |RelevantHeaders(req)| && RelevantHeaders(req)[k].0 == h
    {
      var k :| 0 <= k < |found| && found[k] == h;
      assert RelevantHeaders(req)[k].0 == h;
    }
  }

  /** When header fingerprinting is reported it is the last finding; its
      evidence names the wallet and lists exactly the fingerprinting
      headers sent with a non-empty value, each with the first 50 characters of
      its value. */
  lemma HeaderFingerprintEvidence(req: RequestRecord, resp: ResponseRecord)
    ensures RequestHeaderFingerprint in Ids(AnalyzeRequest(req, resp)) ==>
              var r := AnalyzeRequest(req, resp);
              && r[|r| - 1].dimensionId == RequestHeaderFingerprint
              && r[|r| - 1].evidence
                 == ["Wallet: " + req.walletId, "Relevant headers: " + ReprPairs(RelevantHeaders(req))]
    ensures forall k :: 0 <= k < |RelevantHeaders(req)| ==>
              var (name, preview) := RelevantHeaders(req)[k];
              name in FingerprintHeaders && Fingerprints(req.headersSent, name)
              && IsPreview(preview, req.headersSent[name])
    ensures forall h :: h in FingerprintHeaders && Fingerprints(req.headersSent, h) ==>
              exists k :: 0 <= k < |RelevantHeaders(req)| && RelevantHeaders(req)[k].0 == h
  {
    RelevantHeadersSpec(req);
    var found := FoundHeaders(FingerprintHeaders, req.headersSent);
    if RequestHeaderFingerprint in Ids(AnalyzeRequest(req, resp)) {
      assert found != [] by {
        HeaderFingerprintRule(req, resp);
        FoundFingerprintHeaders(req.headersSent);
      }
      var q := [IpFinding(req)]
        + Optional(req.exposedAddresses != [], AddressFinding(req))
        + Optional(CallParamsTriggered(req), CallParamsFinding(req))
        + Optional(TracingTriggered(req), TracingFinding(req));
      assert AnalyzeRequest(req, resp) == q + [HeaderFinding(req, found)];
    }
  }

  /** Where the rule and the static table overlap they agree: whenever
      `call_params_leak` or `transaction_tracing` is reported for a method,
      the table lists that dimension for it. */
  lemma CapabilityContainment(req: RequestRecord, resp: ResponseRecord)
    ensures CallParamsLeak in Ids(AnalyzeRequest(req, resp)) ==>
              req.methodName in MethodPrivacyMap && CallParamsLeak in MethodPrivacyMap[req.methodName]
    ensures TransactionTracing in Ids(AnalyzeRequest(req, resp)) ==>
              req.methodName in MethodPrivacyMap && TransactionTracing in MethodPrivacyMap[req.methodName]
  {
    if CallParamsLeak in Ids(AnalyzeRequest(req, resp)) {
      CallParamsLeakRule(req, resp);
      TableEntry(req.methodName, CallParamsLeak);
    }
    if TransactionTracing in Ids(AnalyzeRequest(req, resp)) {
      TransactionTracingRule(req, resp);
      TableEntry(req.methodName, TransactionTracing);
    }
  }

  /** The table lists `call_params_leak` for `eth_call` and `eth_estimateGas`,
      and `transaction_tracing` for the two transaction-hash methods. */
  lemma TableEntry(m: string, id: string)
    requires id == CallParamsLeak ==> m == "eth_call" || m == "eth_estimateGas"
    requires id == TransactionTracing ==> m == "eth_sendRawTransaction" || m == "eth_getTransactionByHash"
    requires id == CallParamsLeak || id == TransactionTracing
    ensures m in MethodPrivacyMap && id in MethodPrivacyMap[m]
  {
  }

  /** The table does not bound `address_association`: a call to
      `eth_blockNumber`, whose table entry is empty, reports it as soon as a
      parameter exposes an address. */
  lemma AddressAssociationBeyondTable(req: RequestRecord, resp: ResponseRecord)
    requires req.methodName == "eth_blockNumber" && req.exposedAddresses != []
    ensures req.methodName in MethodPrivacyMap && MethodPrivacyMap[req.methodName] == []
    ensures AddressAssociation in Ids(AnalyzeRequest(req, resp))
  {
    AddressAssociationRule(req, resp);
  }

  // ---------------------------------------------------------------------
  // Aggregation

  /** The risk order `low < medium < high < critical`; any other level ranks
      as `low`. */
  function Rank(risk: string): (n: nat)
    ensures n <= 3
  {
    if risk == "medium" then 1
    else if risk == "high" then 2
    else if risk == "critical" then 3
    else 0
  }

  lemma UnknownRiskIsLow(risk: string)
    requires risk != "low" && risk != "medium" && risk != "high" && risk != "critical"
    ensures Rank(risk) == Rank("low")
  {
  }

  /** The aggregated dictionary: its keys in insertion order and the finding
      stored under each. */
  datatype Report = Report(order: seq<string>, byDimension: map<string, Finding>)

  /** All finding lists, one after another, in processing order. */
  function Flatten(all: seq<seq<Finding>>): seq<Finding>
  {
    if all == [] then [] else Flatten(all[..|all| - 1]) + all[|all| - 1]
  }

  /** One step of the fold: a new dimension is inserted at the end of the
      key order; a known one is replaced only by a finding of strictly higher
      rank, keeping its place in the order; otherwise nothing changes. */
  function Absorb(rep: Report, f: Finding): Report
  {
    if f.dimensionId !in rep.byDimension then
      Report(rep.order + [f.dimensionId], rep.byDimension[f.dimensionId := f])
    else if Rank(f.riskLevel) > Rank(rep.byDimension[f.dimensionId].riskLevel) then
      Report(rep.order, rep.byDimension[f.dimensionId := f])
    else rep
  }

  /** The fold over a flat list of findings, left to right. */
  function Fold(fs: seq<Finding>): Report
  {
    if fs == [] then Report([], map[]) else Absorb(Fold(fs[..|fs| - 1]), fs[|fs| - 1])
  }

  lemma FoldSnoc(p: seq<Finding>, x: Finding)
    ensures Fold(p + [x]) == Absorb(Fold(p), x)
  {
    assert (p + [x])[..|p|] == p;
  }

  /** The inner loop's invariant on entry and on exit. */
  lemma FoldPrefixStart(prefix: seq<Finding>, results: seq<Finding>)
    ensures prefix + results[..0] == prefix
    ensures prefix + results[..|results|] == prefix + results
  {
  }

  /** The inner loop's invariant across one finding. */
  lemma FoldPrefixStep(prefix: seq<Finding>, results: seq<Finding>, j: int)
    requires 0 <= j < |results|
    ensures Fold(prefix + results[..j + 1]) == Absorb(Fold(prefix + results[..j]), results[j])
  {
    assert prefix + results[..j + 1] == (prefix + results[..j]) + [results[j]];
    FoldSnoc(prefix + results[..j], results[j]);
  }

  /** The outer loop's invariant across one list. */
  lemma FlattenStep(all: seq<seq<Finding>>, i: int)
    requires 0 <= i < |all|
    ensures Flatten(all[..i + 1]) == Flatten(all[..i]) + all[i]
  {
    assert all[..i + 1][..i] == all[..i];
  }

  /** `aggregate_by_dimension`, with its nested loops over the lists and over
      each list's findings. The inner evidence loop walks the stored finding,
      which is `r` itself, against `r`'s own evidence, so it never appends. */
  method AggregateByDimension(allResults: seq<seq<Finding>>) returns (report: Report)
    ensures report == Fold(Flatten(allResults))
  {
    var order: seq<string> := [];
    var byDim: map<string, Finding> := map[];
    for i := 0 to |allResults|
      invariant Report(order, byDim) == Fold(Flatten(allResults[..i]))
    {
      var results := allResults[i];
      ghost var prefix := Flatten(allResults[..i]);
      FoldPrefixStart(prefix, results);
      for j := 0 to |results|
        invariant Report(order, byDim) == Fold(prefix + results[..j])
      {
        var r := results[j];
        ghost var rep0 := Report(order, byDim);
        if r.dimensionId !in byDim || Rank(r.riskLevel) > Rank(byDim[r.dimensionId].riskLevel) {
          if r.dimensionId !in byDim {
            order := order + [r.dimensionId];
          }
          byDim := byDim[r.dimensionId := r];
          var existing := byDim[r.dimensionId];
          ghost var stored := byDim;
          for k := 0 to |r.evidence|
            invariant existing == r && byDim == stored
          {
            var ev := r.evidence[k];
            assert ev in r.evidence;
            if ev !in existing.evidence {
              existing := existing.(evidence := existing.evidence + [ev]);
              byDim := byDim[r.dimensionId := existing];
            }
          }
        }
        assert Report(order, byDim) == Absorb(rep0, r);
        FoldPrefixStep(prefix, results, j);
      }
      FlattenStep(allResults, i);
    }
    assert allResults[..|allResults|] == allResults;
    report := Report(order, byDim);
  }

  /** The keys of the aggregate are the dimension ids of the input, each once,
      in order of first appearance, and each is stored with a finding of that
      dimension. */
  lemma {:induction false} FoldKeys(fs: seq<Finding>)
    ensures Fold(fs).order == Dedup(Ids(fs))
  {
    if fs != [] {
      var p, x := fs[..|fs| - 1], fs[|fs| - 1];
      assert fs == p + [x];
      assert Ids(fs) == Ids(p) + [x.dimensionId] by {
        IdsConcat(p, [x]);
        IdsSingleton(x);
      }
      assert Fold(fs).order
             == if x.dimensionId in Ids(p) then Fold(p).order else Fold(p).order + [x.dimensionId] by {
        FoldSnoc(p, x);
        FoldDomain(p);
      }
      FoldKeys(p);
      DedupSnoc(Ids(p), x.dimensionId);
    }
  }

  /** The stored dimensions are those of the input, each under its own id. */
  lemma {:induction false} FoldDomain(fs: seq<Finding>)
    ensures forall k :: k in Fold(fs).byDimension <==> k in Ids(fs)
    ensures forall k :: k in Fold(fs).byDimension ==> Fold(fs).byDimension[k].dimensionId == k
  {
    if fs != [] {
      var p, x := fs[..|fs| - 1], fs[|fs| - 1];
      assert fs == p + [x];
      assert Fold(fs) == Absorb(Fold(p), x) by {
        FoldSnoc(p, x);
      }
      assert Ids(fs) == Ids(p) + [x.dimensionId] by {
        IdsConcat(p, [x]);
        IdsSingleton(x);
      }
      FoldDomain(p);
    }
  }

  /** Finding `i` wins for its dimension: no finding of that dimension ranks
      higher, and every earlier one ranks strictly lower. */
  ghost predicate Winner(fs: seq<Finding>, i: int)
  {
    && 0 <= i < |fs|
    && (forall j :: 0 <= j < |fs| && fs[j].dimensionId == fs[i].dimensionId ==>
          Rank(fs[j].riskLevel) <= Rank(fs[i].riskLevel))
    && (forall j :: 0 <= j < i && fs[j].dimensionId == fs[i].dimensionId ==>
          Rank(fs[j].riskLevel) < Rank(fs[i].riskLevel))
  }

  /** Appending a finding keeps a winner of another dimension, or of the
      same dimension when the new finding does not rank higher. */
  lemma WinnerKept(p: seq<Finding>, x: Finding, i: int)
    requires Winner(p, i)
    requires x.dimensionId != p[i].dimensionId || Rank(x.riskLevel) <= Rank(p[i].riskLevel)
    ensures Winner(p + [x], i)
  {
    var fs := p + [x];
    forall j | 0 <= j < |fs| && fs[j].dimensionId == fs[i].dimensionId
      ensures Rank(fs[j].riskLevel) <= Rank(fs[i].riskLevel)
    {
      if j < |p| {
        assert fs[j] == p[j];
      }
    }
    forall j | 0 <= j < i && fs[j].dimensionId == fs[i].dimensionId
      ensures Rank(fs[j].riskLevel) < Rank(fs[i].riskLevel)
    {
      assert fs[j] == p[j];
    }
  }

  /** A finding ranking strictly above the current winner of its dimension
      becomes the new winner. */
  lemma WinnerReplaced(p: seq<Finding>, x: Finding, i: int)
    requires Winner(p, i)
    requires x.dimensionId == p[i].dimensionId && Rank(x.riskLevel) > Rank(p[i].riskLevel)
    ensures Winner(p + [x], |p|)
  {
    var fs := p + [x];
    forall j | 0 <= j < |p| && fs[j].dimensionId == x.dimensionId
      ensures Rank(fs[j].riskLevel) < Rank(x.riskLevel)
    {
      assert fs[j] == p[j];
    }
  }

  /** The first finding of a dimension is its winner so far. */
  lemma WinnerFirst(p: seq<Finding>, x: Finding)
    requires x.dimensionId !in Ids(p)
    ensures Winner(p + [x], |p|)
  {
    var fs := p + [x];
    assert fs[|p|] == x;
    forall j | 0 <= j < |p|
      ensures fs[j].dimensionId != x.dimensionId
    {
      assert fs[j] == p[j];
      assert Ids(p)[j] == p[j].dimensionId;
    }
    assert forall j :: 0 <= j < |fs| && fs[j].dimensionId == x.dimensionId ==> j == |p|;
  }

  /** The finding stored for a dimension is an input finding of that dimension
      of maximal rank, the earliest such on ties. It is stored as it is, so its
      evidence is its own and nothing of a discarded finding is merged in. */
  lemma {:induction false} FoldWinner(fs: seq<Finding>, k: string)
    requires k in Ids(fs)
    ensures k in Fold(fs).byDimension
    ensures exists i :: Winner(fs, i) && fs[i].dimensionId == k && Fold(fs).byDimension[k] == fs[i]
  {
    var p, x := fs[..|fs| - 1], fs[|fs| - 1];
    assert fs == p + [x];
    assert Fold(fs) == Absorb(Fold(p), x) by {
      FoldSnoc(p, x);
    }
    assert k in Ids(p) || x.dimensionId == k by {
      IdsConcat(p, [x]);
      IdsSingleton(x);
    }
    FoldDomain(p);
    if k in Ids(p) {
      FoldWinner(p, k);
      var i :| Winner(p, i) && p[i].dimensionId == k && Fold(p).byDimension[k] == p[i];
      if x.dimensionId == k && Rank(x.riskLevel) > Rank(p[i].riskLevel) {
        WinnerReplaced(p, x, i);
        assert Fold(fs).byDimension[k] == fs[|p|];
      } else {
        WinnerKept(p, x, i);
        assert Fold(fs).byDimension[k] == fs[i];
      }
    } else {
      WinnerFirst(p, x);
      assert Fold(fs).byDimension[k] == fs[|p|];
    }
  }

  /** The stored finding, read through membership only: it is one of the
      input findings, of its dimension, and none of that dimension ranks
      higher. */
  lemma FoldStoredMaximal(fs: seq<Finding>, k: string)
    requires k in Ids(fs)
    ensures k in Fold(fs).byDimension
    ensures Fold(fs).byDimension[k] in fs && Fold(fs).byDimension[k].dimensionId == k
    ensures forall f :: f in fs && f.dimensionId == k ==>
              Rank(f.riskLevel) <= Rank(Fold(fs).byDimension[k].riskLevel)
  {
    FoldWinner(fs, k);
    var i :| Winner(fs, i) && fs[i].dimensionId == k && Fold(fs).byDimension[k] == fs[i];
    forall f | f in fs && f.dimensionId == k
      ensures Rank(f.riskLevel) <= Rank(fs[i].riskLevel)
    {
      var j :| 0 <= j < |fs| && fs[j] == f;
    }
  }

  /** A dimension reported by a single finding of the batch is reported with
      exactly that finding, whatever the other findings are. */
  lemma SoleFindingKept(fs: seq<Finding>, i: int)
    requires 0 <= i < |fs|
    requires forall j :: 0 <= j < |fs| && j != i ==> fs[j].dimensionId != fs[i].dimensionId
    ensures fs[i].dimensionId in Fold(fs).byDimension
    ensures Fold(fs).byDimension[fs[i].dimensionId] == fs[i]
  {
    var k := fs[i].dimensionId;
    assert Ids(fs)[i] == k;
    FoldWinner(fs, k);
  }

  /** The risk level reported for each dimension, and the set of dimensions,
      do not depend on the order in which the findings are processed. */
  lemma FoldRankOrderIndependent(a: seq<Finding>, b: seq<Finding>, k: string)
    requires multiset(a) == multiset(b)
    ensures k in Fold(a).byDimension <==> k in Fold(b).byDimension
    ensures k in Fold(a).byDimension ==>
              Rank(Fold(a).byDimension[k].riskLevel) == Rank(Fold(b).byDimension[k].riskLevel)
  {
    FoldDomain(a);
    FoldDomain(b);
    IdsMember(a, k);
    IdsMember(b, k);
    assert forall f :: f in a <==> f in b by {
      forall f ensures f in a <==> f in b {
        assert f in a <==> f in multiset(a);
        assert f in b <==> f in multiset(b);
      }
    }
    if k in Ids(a) {
      FoldStoredMaximal(a, k);
      FoldStoredMaximal(b, k);
    }
  }

  /** A dimension id occurs in `Ids(fs)` exactly when some finding has it. */
  lemma IdsMember(fs: seq<Finding>, k: string)
    ensures k in Ids(fs) <==> exists f :: f in fs && f.dimensionId == k
  {
    if k in Ids(fs) {
      var i :| 0 <= i < |fs| && Ids(fs)[i] == k;
      assert fs[i] in fs;
    }
  }

  /** A later finding of the same dimension replaces an earlier one only when
      it ranks strictly higher; either way the stored evidence is that of one
      finding alone. */
  lemma {:induction false} LaterFindingOfSameDimension(a: Finding, b: Finding)
    requires a.dimensionId == b.dimensionId
    ensures Fold([a, b]).byDimension[a.dimensionId]
            == if Rank(b.riskLevel) > Rank(a.riskLevel) then b else a
  {
    assert [a, b] == [a] + [b];
    assert [a] == [] + [a];
    FoldSnoc([a], b);
    FoldSnoc([], a);
  }
}
