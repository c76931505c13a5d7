# Wallet RPC privacy analysis, modelled in Dafny

This project models the part of the wallet-RPC privacy study that holds real logic:

- **The recording RPC client** (`src/rpc_client.py`). For each JSON-RPC call, it notes:
  - the addresses the parameters expose;
  - a summary of the first call payload (`data`);
  - the wallet and provider identity;
  - the headers sent.
  
  It then logs the (request, response) pair.
- **The per-request analyzer** (`analyze_request`). It turns one recorded request into the findings for up to five privacy dimensions:
  - IP exposure;
  - address association;
  - call-parameter leak;
  - transaction tracing;
  - request-header fingerprint.
  
  Each finding has a fixed risk and evidence taken from the request.
- **The aggregator** (`aggregate_by_dimension`). It folds many finding lists into one finding per dimension: the first one of the highest risk seen.
- **The two ABI call-data builders** of the token-transfer and Uniswap scenarios. These are the payloads whose summaries the analyzer reports.

Modules: one per source file, two shared helper modules, and `EndToEnd`, which follows one scenario request through the client and the analyzer:

| file | module | models |
|---|---|---|
| `seqs.dfy` | `Seqs` | first-occurrence deduplication (stands in for `list(set(...))`) |
| `numerals.dfy` | `Numerals` | `hex`, `str(int)`, `str.zfill`, ASCII `str.lower`, `s[n:]` and reading a numeral back |
| `token_transfer.dfy` | `TokenTransfer` | `_encode_uint256`, `_encode_address`, `build_transfer_data` |
| `uniswap_swap.dfy` | `UniswapSwap` | its own copies of the encoders, `build_get_amounts_out_data` |
| `rpc_client.dfy` | `RpcClient` | the records, address extraction, call-data summary, `RPCClient` with its log |
| `privacy_analyzer.dfy` | `PrivacyAnalyzer` | `DimensionResult`, `METHOD_PRIVACY_MAP`, `analyze_request`, `aggregate_by_dimension` |
| `end_to_end.dfy` | `EndToEnd` | the token-transfer `eth_estimateGas` request passing through the client and the analyzer |

How each part is written:

- **Functions.** The summariser and the encoders are plain expressions, so they are Dafny functions. `_extract_addresses_from_params` and `analyze_request` append to a local list inside loops and `if`s; nothing outside them sees the list, so each is written as a function: the extractor's nested loop as the recursive `AddressCandidates` over the parameters, and each conditional append of `analyze_request` as a concatenated `Optional` finding. Lemmas state their properties.
- **The client.** It is a `class` whose `records` field `Call` and `ClearRecords` update.
- **The `data` scan in `call`.** It is a loop with an early exit, so it is the method `ChooseSummary`, proved equal to the function `FirstDataSummary`.
- **`aggregate_by_dimension`.** It is the method `AggregateByDimension`, with its nested loops, proved equal to the fold `Fold(Flatten(...))`. Lemmas characterise the fold: its keys, the winner for each dimension, and that the key set and each dimension's rank do not depend on the processing order (the stored finding and the key order do).

## Model

| member | source | states |
|---|---|---|
| TokenTransfer.EncodeUint256Word | src/scenarios/token_transfer.py:10-11 | for 0 <= v < 2^256 the word is exactly 64 lower-case hex digits whose big-endian value is v |
| TokenTransfer.EncodeUint256Unpadded | src/scenarios/token_transfer.py:10-11 | from 2^256 on nothing is truncated: the result is the bare hex numeral, longer than 64, and still reads back as v |
| TokenTransfer.EncodeUint256Negative | src/scenarios/token_transfer.py:10-11 | a negative value keeps the 'x' of "-0x" and is zero-filled, so it is not a hex word |
| TokenTransfer.EncodeAddressWord | src/scenarios/token_transfer.py:14-15 | a 42-character address gives 24 zeros and its lower-cased 40-character body (a leading sign stays in front of the zeros); every result has length max(len-2, 64) |
| TokenTransfer.BuildTransferDataLayout | src/scenarios/token_transfer.py:18-20 | the data starts with 0xa9059cbb; for a 42-character recipient and an amount below 2^256 it has length 138, the recipient word at 10..74, and 74..138 reads back as the amount |
| UniswapSwap.SameEncoders | src/scenarios/uniswap_swap.py:11-16 | the scenario's encoder copies compute the same functions as the token-transfer ones |
| UniswapSwap.PathIgnored | src/scenarios/uniswap_swap.py:19-24 | the swap path has no effect on the call data |
| UniswapSwap.BuildGetAmountsOutDataLayout | src/scenarios/uniswap_swap.py:19-24 | the data starts with 0x5c11d795; for an amount below 2^256 it has length 74 and 10..74 reads back as the amount |
| RpcClient.ParamAddressesSpec | src/rpc_client.py:41-47 | a parameter contributes a string exactly when it is a bare 42-character "0x" string or the string value of `from`/`to`/`address` of a dict starting with "0x" |
| RpcClient.AddressCandidatesSpec | src/rpc_client.py:40-47 | the scanned list holds exactly the strings some parameter exposes |
| RpcClient.ExtractAddressesSpec | src/rpc_client.py:38-48 | no duplicates, every element starts with "0x", and a string is returned iff some parameter exposes it; other keys and non-string values never contribute |
| RpcClient.SummarizeCallDataSpec | src/rpc_client.py:51-58 | empty iff the data is not a non-empty string; a value shorter than 10 is returned unchanged; otherwise "selector=", the first 10 characters, "..., len=" and decimal digits without a leading zero that read back as the length |
| RpcClient.FirstDataSummarySpec | src/rpc_client.py:79-83 | the recorded summary is that of the first dict parameter with a `data` key, even when empty, and "" when there is none |
| RpcClient.ChooseSummary | src/rpc_client.py:79-83 | the scan with its early `break` computes the first-data-dict summary |
| RpcClient.ResponseForSpec | src/rpc_client.py:105-132 | at most one response is logged; none only when the body is not a JSON object; on a transport exception it holds no result and `{"message": ...}`; otherwise the body's `result` and `error` (None when absent) |
| RpcClient.Client.constructor | src/rpc_client.py:64-70 | a new client keeps its provider, wallet and headers and starts with an empty log |
| RpcClient.Client.Call | src/rpc_client.py:72-133 | returns, raises the RPC error or re-raises the transport failure as the body dictates; with `record` it appends exactly the logged pair(s) for the request it built from the parameters, with a copy of the client headers, and without `record` the log is unchanged; every logged pair stays consistent |
| RpcClient.Client.GetRecords | src/rpc_client.py:135-136 | returns the log, every entry of which was built by this client |
| RpcClient.Client.ClearRecords | src/rpc_client.py:138-139 | empties the log |
| PrivacyAnalyzer.FoundHeadersSpec | src/analyzers/privacy_analyzer.py:92-93 | the comprehension keeps exactly the fingerprinting headers sent with a non-empty value, and repeats none when the list has none |
| PrivacyAnalyzer.HeaderPreviewsSpec | src/analyzers/privacy_analyzer.py:102 | one preview per found header, in order: exactly the first min(50, len) characters of its value, and "" for an absent header |
| PrivacyAnalyzer.FoundFingerprintHeaders | src/analyzers/privacy_analyzer.py:92-94 | a header is found iff one of User-Agent, Origin, X-Client, X-Requested-With is sent non-empty |
| PrivacyAnalyzer.TriggeredIdsMembers | src/analyzers/privacy_analyzer.py:52-105 | each of the four optional dimension ids is among the triggered ids iff its rule fires |
| PrivacyAnalyzer.AnalyzeRequestIds | src/analyzers/privacy_analyzer.py:35-107 | the dimension ids emitted are `ip_exposure` and then, in order, each dimension whose rule fires |
| PrivacyAnalyzer.AlwaysIpExposure | src/analyzers/privacy_analyzer.py:37-50 | every analysis is non-empty and starts with `ip_exposure` at risk high |
| PrivacyAnalyzer.AddressAssociationRule | src/analyzers/privacy_analyzer.py:52-64 | `address_association` is reported iff exposed addresses are non-empty |
| PrivacyAnalyzer.CallParamsLeakRule | src/analyzers/privacy_analyzer.py:66-78 | `call_params_leak` is reported iff the summary is non-empty and the method is `eth_call` or `eth_estimateGas` |
| PrivacyAnalyzer.TransactionTracingRule | src/analyzers/privacy_analyzer.py:80-89 | `transaction_tracing` is reported iff the method is `eth_sendRawTransaction` or `eth_getTransactionByHash` |
| PrivacyAnalyzer.HeaderFingerprintRule | src/analyzers/privacy_analyzer.py:91-105 | `request_header_fingerprint` is reported iff one of the four fingerprinting headers is sent non-empty |
| PrivacyAnalyzer.RelevantHeadersSpec | src/analyzers/privacy_analyzer.py:92-102 | the (name, preview) pairs in the header evidence name exactly the fingerprinting headers sent non-empty, each with the first min(50, len) characters of its value |
| PrivacyAnalyzer.HeaderFingerprintEvidence | src/analyzers/privacy_analyzer.py:91-105 | when reported, the header finding is last; its evidence names the wallet and lists exactly the fingerprinting headers sent non-empty, each with the first min(50, len) characters of its value |
| PrivacyAnalyzer.AnalyzeRequestOrder | src/analyzers/privacy_analyzer.py:35-107 | between 1 and 5 findings whose ids are pairwise distinct and strictly ascending in the fixed dimension order |
| PrivacyAnalyzer.AnalyzeIgnoresResponse | src/analyzers/privacy_analyzer.py:35-107 | the result does not depend on the response |
| PrivacyAnalyzer.AnalyzeRequestRisks | src/analyzers/privacy_analyzer.py:40-105 | each finding has a known dimension and that dimension's fixed risk (high, or medium for tracing and headers) |
| PrivacyAnalyzer.CapabilityContainment | src/analyzers/privacy_analyzer.py:23-32 | whenever `call_params_leak` or `transaction_tracing` is reported, the method's table entry lists it |
| PrivacyAnalyzer.AddressAssociationBeyondTable | src/analyzers/privacy_analyzer.py:23-32 | the table does not bound `address_association`: `eth_blockNumber` has an empty entry yet reports it when addresses are exposed |
| PrivacyAnalyzer.UnknownRiskIsLow | src/analyzers/privacy_analyzer.py:115-120 | a risk level outside low/medium/high/critical ranks as low |
| PrivacyAnalyzer.AggregateByDimension | src/analyzers/privacy_analyzer.py:110-131 | the nested loops compute the left-to-right fold over all findings; the evidence loop leaves the stored finding unchanged |
| PrivacyAnalyzer.FoldKeys | src/analyzers/privacy_analyzer.py:114-122 | the dictionary's insertion order is the input's dimension ids, each once, in first-appearance order |
| PrivacyAnalyzer.FoldDomain | src/analyzers/privacy_analyzer.py:114-122 | a dimension is a key iff some input finding has it, and the finding stored under a key is of that dimension |
| PrivacyAnalyzer.FoldStoredMaximal | src/analyzers/privacy_analyzer.py:117-122 | the finding stored for a dimension is one of the input findings, and no input finding of that dimension ranks higher |
| PrivacyAnalyzer.FoldWinner | src/analyzers/privacy_analyzer.py:117-122 | each stored value is an input finding of maximal rank for its id, the earliest on ties, stored unchanged, so its evidence is its own only |
| PrivacyAnalyzer.SoleFindingKept | src/analyzers/privacy_analyzer.py:117-122 | a dimension reported by one finding only is stored with exactly that finding, whatever the others are |
| PrivacyAnalyzer.FoldRankOrderIndependent | src/analyzers/privacy_analyzer.py:117-122 | for any reordering of the findings, the key set and each dimension's rank are the same |
| PrivacyAnalyzer.LaterFindingOfSameDimension | src/analyzers/privacy_analyzer.py:119-129 | of two findings of one dimension the later replaces the earlier only if strictly higher ranked; no evidence is merged |
| EndToEnd.TransferDataSummary | src/scenarios/token_transfer.py:52-61 | the summary of a well-formed transfer payload is "selector=0xa9059cbb..., len=138" |
| EndToEnd.TransferEstimateLeaksParams | src/scenarios/token_transfer.py:52-61 | `eth_estimateGas` with a dict carrying the transfer payload under `data` records that summary and is reported as `call_params_leak` |

## Behaviour of the code worth knowing

- **No evidence is merged.** The comment at src/analyzers/privacy_analyzer.py:123 announces a merge of evidence ("合并证据"). But line 122 stores the winning finding `r` itself, and the loop at lines 126-129 then compares `r`'s evidence with `r`'s own evidence, so nothing is ever added. A finding of equal or lower rank is dropped together with its evidence. The model keeps this behaviour: `FoldWinner`, `LaterFindingOfSameDimension`, and the no-op loop inside `AggregateByDimension`.
- **The summary's length field.** The long call-data summary is `selector=<first 10 characters>..., len=<decimal length>` (src/rpc_client.py:58).
- **Non-object bodies.** A body that decodes to something other than a JSON object makes `data.get` fail before the append. No record is logged and the failure escapes as an exception. The model's `CallResult.BodyNotObjectRaised` and `ResponseFor` reflect this.

## Left out

- HTTP transport, `raise_for_status`, `resp.json()`, `time.time` and `time.perf_counter`. These are I/O and clocks. `Client.Call` takes the transport outcome, the timestamp and the elapsed time as parameters.
- Configuration loading (`get_rpc_url`, `get_wallet_headers`, YAML and environment files). The client's provider, wallet and headers are constructor parameters. The timeout and the URL only feed the transport and are not modelled.
- The collection runner, the report generator, the command-line entry points, the scenario `run` methods and the scenario base class. They are orchestration, rendering and I/O. Only the request the token-transfer scenario sends (`EndToEnd`) is modelled, from its call data on.
- `Client.GetRecords` returns the log as a value; the Python method returns the list object itself, so a caller could mutate the client's log through it; that aliasing is not modelled.
- `ExtractAddresses`: Python's `list(set(...))` has no specified order. The model returns the first-occurrence order. Its contract (`ExtractAddressesSpec`) states only that the list has no duplicates and what its elements are, not their order.
- Evidence text uses a simplified rendering of Python's `repr` for lists and tuples: single quotes, no escaping. Exact `repr` output is not modelled.
- `Lower`: ASCII case mapping only; Python's full Unicode lower-casing is not modelled.
- JSON numbers are integers. Floating-point values in parameters or bodies are not modelled; they never contribute addresses or summaries.
- Request and response timestamps are opaque `real` values.
