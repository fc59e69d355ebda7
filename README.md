# Hyperliquid exporter: the poll loop and its JSON-RPC client

The exporter polls a Hyperliquid EVM node over JSON-RPC. It republishes what it
learns as five Prometheus metrics:

- `hyperliquid_block_number`, a gauge;
- `hyperliquid_gas_price`, a gauge in wei;
- `hyperliquid_syncing`, a 0/1 gauge;
- `hyperliquid_rpc_up`, a 0/1 gauge;
- `hyperliquid_rpc_errors_total`, a counter.

This project models the two parts of `main.py` that decide those values:

- `json_rpc_call` builds the JSON-RPC 2.0 request object. It turns whatever the
  POST produced into either a returned value or a counted failure (`None`
  after `RPC_ERRORS.inc()`).
- One iteration of the `while True` loop in `fetch_metrics` calls
  `eth_blockNumber`, `eth_gasPrice` and `eth_syncing` in that order. It decides
  each branch by Python truthiness and decodes quantities with `int(x, 16)`.
  A decode that raises ends the iteration in the `except` handler, which sets
  `rpc_up` to 0.

Files and modules:

- `wrappers.dfy` (`Wrappers`): `Option`.
- `json.dfy` (`Json`): decoded JSON values. Also Python truthiness (`Truthy`),
  the identity test `x is False` (`IsFalse`), and `dict.get` with
  last-duplicate-wins (`Lookup`).
- `hex.dfy` (`Hex`): `int(s, 16)` as the partial function `ParseHex`. Also
  the node's encoding of a quantity (`ToHex`), round trips, case insensitivity
  and canonical forms.
- `json_rpc.dfy` (`JsonRpc`): the request object (`Envelope`, section 4 of the
  JSON-RPC 2.0 specification). Also the classification of a reply
  (`Classify`), checked against success and error response objects built as
  section 5 of that specification describes.
- `exporter.dfy` (`Exporter`): the pure specification of a tick.
  `BlockStep`, `GasStep` and `SyncStep` are composed by `TickSpec` and folded
  over many ticks by `RunSpec`. The file holds the lemmas for each property of
  a tick and of a run. It also holds the class `Metrics`: its five fields are
  the metric values, and its methods `JsonRpcCall`, `Tick` and `Run` update
  them in place. Each method is proved equal to the specification.

What comes back from the network is the parameter `Reply`.
`TransportError` stands for a connection error, a timeout, a non-2xx status
or a body that is not JSON. `Body(data)` is a decoded JSON document. A run of
the loop is a finite sequence of reply triples, one per tick.

The model follows the code, including these easily misread rules:

- A value that cannot be decoded does not increment
  `hyperliquid_rpc_errors_total`. Only `json_rpc_call` counts errors. The
  decode error takes the loop's `except` path and sets `rpc_up` to 0.
- Branches test truthiness, not "the call succeeded". A failed call, `null`,
  `""`, `0`, `false`, `{}` and `[]` all skip the update. `"0x"` and non-string
  truthy values (`true`, a non-empty object) raise in `int(x, 16)`.
- The sync gauge is cleared only by exactly `false`. Other falsy values leave
  it unchanged.
- A decoded body that is not an object is always a failure counted once. On a
  list or string, `"error" in data` is a membership or substring test. When
  it is false, `data.get` raises `AttributeError`. When it is true, the log
  message at main.py:46 evaluates `data['error']`, which raises `TypeError`
  before the increment at main.py:47 runs; the `except` handler then counts
  the failure once. On a number, boolean or `null`, the `in` test itself
  raises.

## Model

| member | source | states |
|---|---|---|
| `Json.Lookup` | main.py:49 | `d.get(key)` finds a value exactly when the key is present |
| `Json.LookupIsLast` | main.py:49 | with repeated keys, the value found is the one paired with the last occurrence, as Python's JSON decoder keeps it |
| `Hex.ParseHex` | main.py:65 | `int(s, 16)` returns a value exactly when, after an optional `0x`/`0X`, at least one character is left and all of them are hex digits |
| `Hex.ParseHexRoundTrip` | main.py:73 | decoding `"0x"`, `"0X"` or nothing followed by the node's lower-case hex of `n` returns `n` |
| `Hex.ParseHexCanonical` | main.py:65 | when `int(s, 16)` returns `n`, re-encoding `n` gives the digits of `s` in lower case without leading zeros, so decoding loses nothing else |
| `Hex.ParseHexIgnoresCase` | main.py:65 | lower-casing a string, prefix letter included, does not change what `int(s, 16)` returns or whether it raises |
| `Hex.ParseHexPrefixOptional` | main.py:73 | for hex digits `d`, `"0x" + d`, `"0X" + d` and `d` decode alike |
| `Hex.ParseHexNeedsDigits` | main.py:65 | `"0x"`, `"0X"` and `""` raise |
| `Hex.ParseHexExamples` | main.py:73 | `"0x10"` is 16, `"0x3b9aca00"` is 1000000000, `"0x0"` is 0 |
| `JsonRpc.EnvelopeFields` | main.py:35-40 | the posted request has `jsonrpc` `"2.0"`, the given method and params, and `id` 1 |
| `JsonRpc.Classify` | main.py:41-53 | a reply fails (and is counted) exactly on a transport error, a non-object body or a body with an `error` member; otherwise the result is the body's `result` member, or `null` when it has none |
| `JsonRpc.ClassifySuccess` | main.py:49 | a success response object yields exactly its `result`, uncounted |
| `JsonRpc.ClassifyError` | main.py:45-48 | an error response object is a counted failure |
| `JsonRpc.ClassifyNoResult` | main.py:49 | an object with neither `error` nor `result` yields `null` uncounted, the same value a failure returns |
| `JsonRpc.ClassifyNullResult` | main.py:49 | an object whose `result` is `null` and that has no `error` member yields `null` uncounted |
| `JsonRpc.ClassifyListWithError` | main.py:45-53 | a list holding `"error"` or a string containing `error` is one counted failure, since main.py:46 raises before main.py:47 and the handler counts once |
| `Exporter.IntBase16` | main.py:73 | only a string can be decoded; any other value raises |
| `Exporter.CallsMade` | main.py:61-88 | a tick makes one call if the block value raises, three if neither the block nor the gas value raises, and two otherwise |
| `Exporter.TickRequestOrder` | main.py:63-79 | the requests of a tick are `eth_blockNumber`, `eth_gasPrice`, `eth_syncing` in that order, cut short at a raise; each has `jsonrpc` 2.0, the right method, empty params and id 1 |
| `Exporter.TickBlockDecoded` | main.py:63-66 | a truthy block value decoding to `n` sets the block number to `n` and `rpc_up` to 1, which only a raising gas value resets to 0; the gas step runs |
| `Exporter.TickBlockFalsy` | main.py:64-68 | a falsy or failed block value keeps the block number and sets `rpc_up` to 0; gas and sync still run unless the gas value raises |
| `Exporter.TickBlockFailed` | main.py:63-68 | a failed `eth_blockNumber` call is counted, sets `rpc_up` to 0 and keeps the block number |
| `Exporter.TickGasPrice` | main.py:70-73 | when the gas step runs and does not raise, a falsy or failed gas value keeps the gas price, a truthy one sets the decoded value, and `rpc_up` is what the block step left |
| `Exporter.TickSyncing` | main.py:77-83 | exactly `false` sets syncing to 0, a truthy value sets it to 1, and a failure, `null`, `0`, `""`, `{}` or `[]` leaves it unchanged |
| `Exporter.TickBlockRaises` | main.py:61-88 | an undecodable block value makes only the block request, sets `rpc_up` to 0 and changes nothing else; the counter is untouched |
| `Exporter.TickGasRaises` | main.py:70-88 | an undecodable gas value skips `eth_syncing`, keeps the block number written this tick, keeps gas price and syncing, sets `rpc_up` to 0, and counts only a failed block call |
| `Exporter.TickRpcUp` | main.py:64-88 | after a tick `rpc_up` is 0 or 1, and it is 1 exactly when the block value was truthy and decoded and the gas value did not raise |
| `Exporter.TickErrors` | main.py:45-53 | a tick adds to the counter exactly the number of calls it made whose reply failed |
| `Exporter.TickWellFormed` | main.py:64-83 | the syncing and up gauges stay 0 or 1 |
| `Exporter.HealthyTick` | main.py:61-83 | replies `"0x10"`, `"0x3b9aca00"` and `false` give block 16, gas price 1000000000, syncing 0, up 1, counter unchanged |
| `Exporter.UnreachableTick` | main.py:50-53 | three transport errors add 3 to the counter, set `rpc_up` to 0 and keep every other gauge |
| `Exporter.RunBlockNumberIsLatest` | main.py:60-90 | after any run, the block number is the last one a tick decoded, or its earlier value if none was |
| `Exporter.RunGasPriceIsLatest` | main.py:60-90 | after any run, the gas price is the last one a tick decoded, or its earlier value if none was |
| `Exporter.RunSyncingIsLatest` | main.py:60-90 | after any run, syncing is the last 0/1 a tick wrote, or its earlier value if none was |
| `Exporter.RunErrors` | main.py:45-53 | after any run, the counter is its start value plus one per failed call made |
| `Exporter.RunErrorsMonotone` | main.py:47 | the counter never decreases from one tick to a later one |
| `Exporter.RunRpcUp` | main.py:64-88 | after a non-empty run, `rpc_up` depends on the last tick alone |
| `Exporter.RunWellFormed` | main.py:60-90 | the 0/1 gauges stay 0 or 1 however long the loop runs |
| `Exporter.Metrics.constructor` | main.py:18-22 | all five metrics start at 0 |
| `Exporter.Metrics.JsonRpcCall` | main.py:34-53 | posts `Envelope(name, params)`, returns `None` for a failed reply or the result, and increments the counter exactly when the reply failed |
| `Exporter.Metrics.Tick` | main.py:61-88 | the fields after one in-place iteration, and the requests it made, are `TickSpec` of the fields before |
| `Exporter.Metrics.Run` | main.py:60-90 | the fields after running the loop over a sequence of replies, and the requests made, are `RunSpec` of the fields before |

## Left out

- `metrics` and `health_check` (main.py:30-32, 97-99) are HTTP endpoints. The
  text exposition comes from `prometheus_client.generate_latest`, a library
  that is not part of this model.
- `startup_event`, `asyncio.create_task` and `asyncio.sleep` (main.py:90-95)
  are scheduling. The loop is a sequential fold over a finite sequence of
  ticks. A scrape that reads the metrics in the middle of a tick is not
  modelled.
- The `httpx` POST, its 5-second timeout, `raise_for_status`, the TLS flag and
  `response.json()` (main.py:42-44, 59) are network I/O. Their outcome is the
  `Reply` parameter.
- Environment parsing (main.py:13-15) and logging (main.py:9-10, 46, 51, 87)
  are configuration and output only.
- Exporter.TickSpec, Exporter.BlockStep, Exporter.GasStep and Exporter.Metrics.Tick:
  gauges hold Python floats. The model stores exact integers. It does not
  capture precision loss above 2^53. It also does not capture the
  `OverflowError` that `Gauge.set` raises for a decoded value too large for a
  float: the loop's handler would then set `rpc_up` to 0 and skip the rest of
  the tick, where the model writes the value and goes on. The lemmas about
  these (`TickBlockDecoded`, `TickGasPrice`, `TickRpcUp`, `CallsMade`,
  `RunBlockNumberIsLatest`, `RunGasPriceIsLatest`) inherit this.
- Hex.ParseHex: Python's `int(s, 16)` also accepts surrounding whitespace, a
  sign, `_` between digits and non-ASCII decimal digits. Those strings raise in
  the model.
- JSON numbers are reals. The `NaN` and `Infinity` constants that
  Python's decoder also accepts are not represented.
