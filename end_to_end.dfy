/** The token-transfer scenario's `eth_estimateGas` request seen by the
    client and the analyzer: the call data it builds is summarised by its
    selector and its length, and the call is reported as leaking call
    parameters. */
module EndToEnd {
  import opened Numerals
  import opened RpcClient
  import opened TokenTransfer
  import opened PrivacyAnalyzer

  /** The summary of a well-formed transfer payload. */
  lemma TransferDataSummary(to: string, amount: int)
    requires |to| == 42 && 0 <= amount < WordBound
    ensures SummarizeCallData(JStr(BuildTransferData(to, amount))) == "selector=" + TransferSelector + "..., len=" + "138"
  {
    var d := BuildTransferData(to, amount);
    assert |d| == 138 && d[..10] == TransferSelector by {
      BuildTransferDataLayout(to, amount);
    }
    SummaryOf138(d);
  }

  /** A 138-character payload is summarised by its first ten characters and "138". */
  lemma SummaryOf138(d: string)
    requires |d| == 138
    ensures SummarizeCallData(JStr(d)) == "selector=" + d[..10] + "..., len=" + "138"
  {
    DecimalOf138();
  }

  lemma DecimalOf138()
    ensures Digits(138, 10) == "138"
  {
    assert Digits(1, 10) == "1";
    assert Digits(13, 10) == Digits(1, 10) + [DigitChar(3)];
  }

  /** `eth_estimateGas` with one parameter dict carrying a transfer payload
      under `data`: the record's summary is the payload's, and
      `call_params_leak` is reported. */
  lemma TransferEstimateLeaksParams(fields: map<string, Json>, to: string, amount: int,
                                    walletId: string, providerId: string,
                                    headers: map<string, string>, timestamp: real,
                                    resp: ResponseRecord)
    requires |to| == 42 && 0 <= amount < WordBound
    requires "data" in fields && fields["data"] == JStr(BuildTransferData(to, amount))
    ensures var req := BuildRequest("eth_estimateGas", [JObject(fields)], walletId, providerId, headers, timestamp);
            && req.exposedParamsSummary == "selector=" + TransferSelector + "..., len=" + "138"
            && CallParamsLeak in Ids(AnalyzeRequest(req, resp))
  {
    var req := BuildRequest("eth_estimateGas", [JObject(fields)], walletId, providerId, headers, timestamp);
    FirstDataSummarySpec([JObject(fields)]);
    assert FirstWithData([JObject(fields)], 0);
    TransferDataSummary(to, amount);
    CallParamsLeakRule(req, resp);
  }
}
