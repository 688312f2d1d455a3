# Metric server core, modelled in Dafny

The server keeps time series of numeric measurements in memory and answers a small text
protocol. A client sends a payload of newline-separated command lines:

- `put <metric> <value> <timestamp>` stores one sample;
- `get <metric>` lists one metric's samples, and `get *` lists every metric's samples.

The server answers with `<status>\n<body>\n`. The status is `ok`, or `error` once any line
has failed. This project models the two classes that do the work in `server.py`:

- `Storage` is the store, modelled in `storage.dfy`.
  - It is a Dafny class whose `data` field the `Put` method reassigns in place.
  - It is backed by value-level functions: `PutSample` for `put` and `Query` for `get`.
- `RequestHandler` parses and runs the lines, modelled in `handler.dfy`.
  - `ParseRequest` models `_parse_request`, and `ProcessData` models `process_data`.
  - `CollectRecords` and `AppendSeries` model the nested loops that list the records of a `get`.
  - Each method is proved equal to a function on values: `RequestSpec`, `Records` and `Process`.
  - `Process` is built from `Trace` (the outcome of every line, in order) and `Fold` (the status and body those outcomes leave).

Both dict levels are Python dicts, which keep insertion order. `assoc.dfy` models them as
association lists in first-insertion order:
- writing an existing key keeps its position;
- writing a new key appends it.

The string operations the handler relies on are modelled in `pytext.dfy`:
- `str.strip()`, with Python's full set of whitespace characters;
- `str.split` on one character;
- `str.join`;
- `int()` and `str()` on integers.

The model follows the code in three places where a plain reading of the protocol might suggest otherwise:

- A failing line does not stop the batch (server.py:49-58).
  - Later lines still run, and later `put`s still change the store.
  - The output of later lines is appended after what the last failure left: `wrong command` or nothing.
  - `FoldResult` and `ProcessResponse` state this.
- `get` lists samples in the order their timestamps were first written, without sorting (server.py:16, 18).
- `get *` on an empty store returns `None` from `_parse_request` (server.py:35 falls through).
  - `response += None` then raises, and the `except Exception` branch turns that into the generic error.
  - The model keeps this as the outcome `Returned(None)`, which counts as a failure.

Python floats are not modelled. `RequestHandler` receives two functions as constructor parameters:
- `parseFloat` stands for `float(value)`, with `None` for a value that raises;
- `formatFloat` stands for `f'{val}'`.

Values are of an abstract type `V`.

## Model

| member | source | states |
|---|---|---|
| Assoc.Lookup | server.py:18 | `d.get(k)` finds a value exactly when `k` is a key; with distinct keys it is the value stored with `k` |
| Assoc.Set | server.py:11-12 | `d[k] = v`: afterwards `k` maps to `v` and every other key to its old value; the key order is unchanged when `k` was present and gains `k` at the end otherwise; keys stay distinct |
| Assoc.SetSet | server.py:12 | two writes to the same key leave the dict as the second write alone would: no history, same position |
| Assoc.LookupEntry | server.py:18 | a value `get` finds is stored in an entry `(k, value)` of the dict |
| PyText.Split | server.py:26-27 | `s.split(sep)` yields at least one piece, no piece contains `sep`, and joining the pieces with `sep` gives back `s` |
| PyText.SplitUnique | server.py:49 | the split is the only separator-free list of pieces that joins back to `s`, so it is exactly Python's list of lines (empty pieces included) |
| PyText.Strip | server.py:26-27 | `strip()` returns a slice of the line after dropping only whitespace from both ends; the result does not begin or end with whitespace, and a whitespace-only line strips to "" |
| PyText.ParseSigned | server.py:30 | `int()` of an empty string fails |
| PyText.ParseInt | server.py:30 | `int()` of a whitespace-only token fails, and so does any token holding one of U+001C..U+001F, which `strip()` treats as whitespace but `int()` does not skip |
| PyText.FormatNatDigits | server.py:40 | `str(n)` for a natural number writes only decimal digits, and they denote `n` |
| PyText.FormatNatLeadingDigit | server.py:40 | `str(n)` begins with the digit 0 exactly when `n` is 0: no leading zero |
| PyText.FormatIntRoundTrip | server.py:30-40 | a timestamp written by `str()` reads back through `int()` as the same timestamp |
| PyText.JoinThenTerminate | server.py:41 | `'\n'.join(records) + '\n'` puts every record on a line of its own ending in a newline |
| MetricStorage.PutSample | server.py:9-12 | after `put(m, v, t)`, `m`'s samples hold `v` at `t`; every other timestamp of `m` and every other metric is unchanged; the metric order and `m`'s timestamp order grow only at the end, when `m` or `t` is new |
| MetricStorage.PutSampleValid | server.py:9-12 | `put` keeps the store free of duplicate metrics, duplicate timestamps and empty metrics |
| MetricStorage.PutThenGet | server.py:9-18 | after `put(m, v, t)` the samples `get(m)` lists contain the pair `(t, v)` |
| MetricStorage.PutOverwrites | server.py:9-12 | a second `put` at the same metric and timestamp replaces the value and keeps the timestamp's position; the store keeps no history |
| MetricStorage.Query | server.py:14-18 | `get('*')` has one entry per stored metric in first-insertion order, each holding that metric's samples unsorted; `get(m)` for another name has exactly one entry, `m`, empty when `m` was never written; the result is empty only for `get('*')` on an empty store |
| MetricStorage.Storage.constructor | server.py:6-7 | a new store is empty |
| MetricStorage.Storage.Put | server.py:9-12 | `put` updates `_data` in place to exactly `PutSample` of the old contents and keeps the store's invariant |
| Protocol.SeriesRecordAt | server.py:39-40 | the k-th record of a metric is `"<metric> <value> <timestamp>"` for its k-th sample |
| Protocol.Records | server.py:36-41 | a `get` result yields no record exactly when every listed metric has no samples |
| Protocol.Render | server.py:41 | a `get`'s text is every record followed by a newline, and "" when there is no record |
| Protocol.Tokens | server.py:26-27 | `request.strip().split(' ')` always yields at least one token, so taking the command with `[0]` never raises |
| Protocol.RequestSpec | server.py:25-43 | a first token other than `put`/`get` (a whitespace-only line included) raises the wrong-command error and only then; failures and `get` leave the store unchanged; a `put` without exactly three arguments, or whose value or timestamp does not parse, raises the generic error, otherwise it stores the sample and returns ""; a `get` without an argument raises the generic error; extra `get` arguments are ignored; `get *` on an empty store returns `None`, any other `get` returns the rendered records; the store's invariant is kept |
| Protocol.RequestHandler.constructor | server.py:22-23 | the handler works on the store it is given |
| Protocol.RequestHandler.ParseRequest | server.py:25-43 | `_parse_request` leaves the store and returns the outcome exactly as `RequestSpec` describes |
| Protocol.RequestHandler.CollectRecords | server.py:36-40 | the nested loops list exactly `Records` of the `get` result: metric by metric, sample by sample |
| Protocol.RequestHandler.AppendSeries | server.py:38-40 | the inner loop appends exactly one metric's records, in sample order, to the list so far |
| Protocol.NonEmpty | server.py:49-50 | no line the loop acts on is empty, and there are no more of them than split pieces |
| Protocol.NonEmptyOne | server.py:49-50 | a single piece is acted on exactly when it is not empty |
| Protocol.NonEmptyConcat | server.py:49-50 | the lines acted on are the non-empty pieces in their order: the filter of two runs of pieces is the filter of the first followed by the filter of the second |
| Protocol.Trace | server.py:49-52 | running the lines yields one outcome per non-empty line and a store that keeps the invariant |
| Protocol.TraceStep | server.py:49-52 | one more piece: an empty piece is skipped, any other line runs `_parse_request` on the store the pieces before it left and appends its outcome |
| Protocol.TraceLine | server.py:49-52 | a non-empty line runs on the store the lines before it left, and its outcome follows theirs |
| Protocol.TraceFailureKeepsStore | server.py:49-58 | no rollback and no extra change: a failing line leaves the store exactly as the lines before it built it, including their `put`s |
| Protocol.PutLineNotEmpty | server.py:26-28 | a line whose first token is `put` is not empty, so the loop acts on it |
| Protocol.PutLineSpec | server.py:28-31 | a `put` line with three arguments whose value and timestamp parse stores the sample and returns "" |
| Protocol.TracePutLine | server.py:28-58 | a well-formed `put` line stores its sample on the store the earlier lines left, whatever failed among them, and contributes "" |
| Protocol.TraceWrongCommand | server.py:42-55 | a line's outcome is the wrong-command error exactly when that line's own first token is not `put`/`get`, whatever came before it |
| Protocol.TraceWithoutPut | server.py:28-52 | a payload without `put` lines leaves the store unchanged |
| Protocol.LastFailure | server.py:51-58 | the last line that failed, with no failure after it, or none when no line failed |
| Protocol.FoldResult | server.py:46-58 | without a failure the status is unchanged and the body is the lines' texts in order; otherwise the status is `error` and the body is what the last failure left (`wrong command` or "") followed by the texts of the later lines |
| Protocol.ErrorStatusSticks | server.py:54-57 | once the status is `error`, no later line sets it back |
| Protocol.ResponseText | server.py:46-59 | the response is `ok\n` + texts + `\n` when no line failed, and `error\n` + the last failure's body + the later texts + `\n` otherwise |
| Protocol.Process | server.py:45-59 | a payload leaves a store that keeps the invariant |
| Protocol.ProcessResponse | server.py:45-59 | the response to a payload, in terms of its lines' outcomes: the `ok` form without a failure, and otherwise the `error` form built from the last failure |
| Protocol.RequestHandler.ProcessData | server.py:45-59 | `process_data` leaves the store and returns the response exactly as `Process` describes, and keeps the store's invariant |

## Left out

- `ClientServerProtocol` and `run_server` (server.py:62-98) are not modelled: the asyncio transport, the event loop, byte decoding and encoding, and `print` logging are I/O.
- client.py is not part of this model. It is a socket client whose only logic is float parsing and sorting inside network calls.
- Concurrency and the store shared at class level (server.py:63) are not modelled. One handler processes one payload at a time on a single store.
- `float(value)` and `f'{val}'` (server.py:30, 40) are not modelled. They are the parameters `parseFloat` and `formatFloat`, and the model assumes nothing about them.
- The `exceptions` module is not part of this model. Only the difference between `IncorrectCommandException` and every other exception matters.
- PyText.ParseInt: accepts only optional surrounding whitespace, an optional sign and ASCII decimal digits, so tokens Python's `int()` also accepts are rejected. Examples are digits separated by underscores (`1_000`) and non-ASCII Unicode digits. In the other direction, `int()` in Python 3.11 and later (and in the 3.7.14, 3.8.14, 3.9.14 and 3.10.7 security releases) raises ValueError on a decimal string of more than 4300 digits (`sys.int_info.default_max_str_digits`). The model has no such limit: a `put` whose timestamp has more digits stores the sample, where those Python versions answer `error\n\n`. Those versions also refuse `str()` of such an integer, so under them FormatIntRoundTrip describes only timestamps of at most 4300 digits.
- PyText.ParseSigned: its contract states only that an empty token fails. That it reads back every formatted timestamp is stated by FormatIntRoundTrip.
- Protocol.Process: its own contract states only the store's invariant. The response it yields is stated by ProcessResponse. The store after each line is stated by TraceStep and TraceLine, with the special cases TraceFailureKeepsStore (a failing line keeps it), TracePutLine (a well-formed `put` stores its sample) and TraceWithoutPut (no `put` line, no change).
- MetricStorage.Storage.Get (server.py:14-18) is `Query` on the current contents and carries no contract of its own. What it returns is stated by Query.
- MetricStorage.Samples (server.py:18) is `self._data.get(metric, {})` and carries no contract of its own. What it yields is stated by PutSample, PutThenGet and Query.
- PyText.Join (server.py:41) is `sep.join(parts)` and carries no contract of its own. What `'\n'.join(records) + '\n'` yields is stated by JoinThenTerminate and Render.
- PyText.FormatInt (server.py:40) is `str()` of the timestamp and carries no contract of its own. Its digits are stated by FormatNatDigits and FormatNatLeadingDigit, and that `int()` reads it back, sign included, by FormatIntRoundTrip.
- Protocol.Record (server.py:40) is `f'{metric} {val} {ts}'` and carries no contract of its own. Each record of a `get` is stated by SeriesRecordAt.
- Protocol.Absorb (server.py:52-58) is one pass of the `try`/`except` in the loop: a returned text is appended, `None` and any exception other than the wrong command set `error` and clear the body, the wrong command sets `error` and `wrong command`. It carries no contract of its own. What a run of outcomes leaves is stated by FoldResult and ErrorStatusSticks.
- Protocol.Fold (server.py:46-58) is how the loop builds up `status` and `response` from the outcomes of its lines, starting at `ok` and "". It carries no contract of its own. Its result is stated in closed form by FoldResult, and one step of it by FoldStep inside ProcessData.
- Protocol.Respond (server.py:59) is `f'{status}\n{response}\n'` and carries no contract of its own. The whole response is stated by ResponseText and ProcessResponse.
