# Trade recorder of the real-time BTC dashboard, in Dafny

The collector subscribes to an exchange's trade stream. For every trade message
its handler `on_message` does four things:

- it decodes the message and maps the short keys `p`, `q`, `T` and `m` to a
  five-column row whose first column is the local receipt time;
- it appends that row to a CSV store, writing the header line first only when
  the store file does not exist yet;
- it increments the module-wide `trade_count`;
- it asks the connection to close once the count has reached `MAX_TRADES`
  (5000).

This project models that handler and proves what it does to the store, the
counter and the close request, for one message and for whole runs.

- `wrappers.dfy` (module `Wrappers`): `Option` and `Result`.
- `trade_message.dfy` (module `TradeMessage`): decoded JSON values, the row, the
  faults the handler raises, and the field mapping `ParseTrade` / `ParseFrame`.
  `json.loads` and `float()` are library calls. They are passed in as
  functions (`Parsers`), and a `None` result stands for "raises". Prices and
  quantities are carried as opaque `real` values that the model never computes
  with.
- `collect_data.dfy` (module `CollectData`) holds four parts:
  - `Receive`: the specification of one handler call on a `Session`. A session
    is the file-exists flag, the store's lines, the counter and the close
    request.
  - `TradeRecorder`: a class with those four fields. Its `OnMessage` updates
    them in place and is proved to follow `Receive`.
  - `Replay` and `Runs`: one process handling a sequence of frames, and several
    processes, one after another, appending to the same store.
  - The lemmas about runs.

The store is a sequence of `Line`s (`Header` or `Data(row)`) rather than CSV
text. The receipt time is an input string, the result of formatting
`datetime.now()`. A fault is returned where the handler raises.

Notes on the handler's behaviour:

- The code checks only that `T` and `m` are present. It copies their values
  as they are, whatever their type, and rejects no value there.
- A fault leaves the exception to the websocket library. The model shows that
  nothing was written or counted. Whether the session continues is up to the
  library.
- The handler only calls `ws.close()`. Whether more messages arrive after that
  is up to the library. So the model claims the close request, not that the
  store ends with exactly `MAX_TRADES` rows. A frame that does arrive later is
  still stored and counted, and close is requested again.
- The comment next to `MAX_TRADES` says 100, but the value is 5000. 5000 is
  recorded as `CollectData.MaxTrades`; every lemma takes the limit as a
  parameter.

## Model

| member | source | states |
|---|---|---|
| `TradeMessage.ParseTrade` | src/collect_data.py:28-34 | A row is built exactly when the decoded value is an object, `p` and `q` are present and accepted by `float()`, and `T` and `m` are present. The timestamp is the receipt time. Price and quantity are `float()` of `p` and `q`. `T` and `m` are copied as they are. Each fault (not an object, missing key, not a number) happens exactly when all the keys before it in the order p, q, T, m succeeded. |
| `TradeMessage.ParseFrame` | src/collect_data.py:25-34 | Defines decoding followed by the field mapping. A message that `json.loads` rejects gives the bad-JSON fault, and only such a message does. Otherwise the result is the field mapping of the decoded value. |
| `TradeMessage.ParseTradeReadsOnlyTradeKeys` | src/collect_data.py:28-34 | Two messages that agree on `p`, `q`, `T` and `m` give the same row or the same fault, whatever else they carry. No other message field reaches the row. |
| `CollectData.Start` | src/collect_data.py:17-18 | Defines the initial state. At process start the counter is 0, close has not been requested, and the store is what is on disk. |
| `CollectData.Receive` | src/collect_data.py:20-53 | Defines one handler call; the properties of runs are proved from it in the lemmas below. A frame that raises leaves the store, the file flag, the counter and the close request unchanged. An accepted frame appends after all existing lines: a header only if the file did not exist, then exactly one data line with the parsed row. The file then exists and the counter rises by exactly 1. Close is requested now exactly when the new count is at least the limit, and an earlier request is kept. A store where an absent file has no lines stays that way. |
| `CollectData.TradeRecorder.constructor` | src/collect_data.py:17-18 | The recorder starts from `Start`: counter 0, no close request, and the given store. |
| `CollectData.TradeRecorder.OnMessage` | src/collect_data.py:20-53 | Updating the recorder's fields in place gives the new state and the outcome that `Receive` specifies for the old state, and keeps the recorder consistent. |
| `CollectData.ReplayLines` | src/collect_data.py:37-41 | After any run, the old lines are kept as they were. Next comes a header, only if the file did not exist and some frame was accepted. Then comes one data line per accepted frame, in arrival order. The file exists afterwards exactly when it existed before or some frame was accepted. |
| `CollectData.ReplayCount` | src/collect_data.py:43-44 | Over any run the counter rises by exactly the number of accepted frames. Rejected frames add nothing. |
| `CollectData.ReplayClose` | src/collect_data.py:49-53 | After any run, close has been requested exactly when it had been before, or some frame was accepted and the final count reached the limit. Below the limit the connection is never asked to close. |
| `CollectData.CountNeverDecreases` | src/collect_data.py:40-44 | Over any run the counter never decreases, the old lines stay a prefix of the store, and an existing file is never removed. |
| `CollectData.FreshRun` | src/collect_data.py:18-53 | Starting with no store file and a count of 0, the run ends in one of two states. If no frame was accepted, the store is still empty. Otherwise it holds exactly one header followed by one data line per accepted frame, in arrival order. The count equals the number of accepted frames. Close has been requested exactly when that number is nonzero and has reached the limit. |
| `CollectData.ReplayKeepsWellFormed` | src/collect_data.py:40-41 | If the store is absent, or is one header followed only by data lines, it is still so after any run. The header is never written twice. |
| `CollectData.Restart` | src/collect_data.py:17-18 | Defines a process restart. A new process keeps the store on disk and starts with counter 0 and no close request. |
| `CollectData.RunsKeepWellFormed` | src/collect_data.py:40-41 | However many processes append to the same store one after another, a store that starts absent or well formed keeps a single header line, which stays the first line. |
| `CollectData.RunsLines` | src/collect_data.py:37-41 | However many processes append to the same store one after another, the old lines are kept, a header follows only if the file did not exist and some frame was accepted, and then come the accepted rows of every process, process after process and each in arrival order, none lost and none repeated. |
| `CollectData.TwoTradesAroundBadFrame` | src/collect_data.py:20-53 | Limit 2, with the frames: a trade at 50000.00, a frame that is not JSON, a trade at 50010.50. After the first two frames close has not been requested. At the end the store is the header followed by the two trades in order, with their receipt times and fields. The count is 2 and close has been requested. |

## Left out

- Printing is not modelled: the progress line, the completion messages and the `on_open`, `on_error` and `on_close` hooks only print.
- The websocket transport is not modelled: `WebSocketApp`, `run_forever` with its 60-second ping, what `ws.close()` does to the connection, and the `KeyboardInterrupt` path. These are network I/O and library behaviour. The close request is recorded as a flag, and later repeated `ws.close()` calls are not told apart from the first.
- A failing CSV write (disk full, no permission) is not modelled. The append to the store always succeeds in the model.
- The CSV text is not modelled: pandas' quoting, number formatting and encoding are replaced by the `Line` datatype.
- `json.loads`, `float()` and `datetime.now().strftime` are library calls and are parameters of the model.
- `os.path.exists` is not modelled. It is the `fileExists` field, and nothing else changes the file between two messages.
- `os.makedirs` for the data directory is not modelled.
- src/dashboard.py is not part of this model: it computes floating-point aggregates with pandas and renders them.
- src/hello_websocket.py is not part of this model: it only prints three message fields.
