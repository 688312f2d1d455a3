/**
 * The request handler (`RequestHandler`): one payload of newline-separated command lines in,
 * one response text out, with the store updated by every `put` line that succeeds.
 *
 * Python's `float()` and the formatting of a float inside an f-string are not modelled; the
 * handler takes them as the functions `parseFloat` and `formatFloat`.
 */
module Protocol {
  import opened Wrappers
  import opened Assoc
  import opened PyText
  import opened MetricStorage

  /** The two kinds of exception `process_data` tells apart. */
  datatype Failure =
    | WrongCommand  // IncorrectCommandException: the first token is neither `put` nor `get`
    | OtherError    // any other exception

  /** How one call to `_parse_request` ends: it returns a string or `None`, or it raises. */
  datatype Outcome = Returned(text: Option<string>) | Raised(failure: Failure)

  /** The status and the accumulated response text of `process_data`. */
  datatype Batch = Batch(status: string, body: string)

  // ---------------------------------------------------------------- one request line

  /** `request.strip().split(' ')`: the command is the first token, the arguments the rest. */
  function Tokens(request: string): (r: seq<string>)
    ensures |r| >= 1
  {
    Split(Strip(request), ' ')
  }

  function Command(request: string): string
  {
    Tokens(request)[0]
  }

  predicate IsCommand(cmd: string) {
    cmd == "put" || cmd == "get"
  }

  /** `f'{metric} {val} {ts}'`. */
  function Record<V>(formatFloat: V -> string, metric: string, timestamp: int, value: V): string
  {
    metric + " " + formatFloat(value) + " " + FormatInt(timestamp)
  }

  /** The records of one metric's samples, in the order the samples are stored. */
  function SeriesRecords<V>(formatFloat: V -> string, metric: string, series: Series<V>): (r: seq<string>)
    ensures |r| == |series|
  {
    if |series| == 0 then []
    else SeriesRecords(formatFloat, metric, series[..|series| - 1])
         + [Record(formatFloat, metric, series[|series| - 1].0, series[|series| - 1].1)]
  }

  /** One record per stored sample: the k-th record is "<metric> <value> <timestamp>" of the k-th sample. */
  lemma {:induction false} SeriesRecordAt<V>(formatFloat: V -> string, metric: string, series: Series<V>, k: nat)
    requires k < |series|
    ensures SeriesRecords(formatFloat, metric, series)[k] == Record(formatFloat, metric, series[k].0, series[k].1)
  {
    if k < |series| - 1 {
      SeriesRecordAt(formatFloat, metric, series[..|series| - 1], k);
    }
  }

  lemma SeriesRecordsStep<V>(formatFloat: V -> string, metric: string, series: Series<V>, j: nat)
    requires j < |series|
    ensures SeriesRecords(formatFloat, metric, series[..j + 1])
            == SeriesRecords(formatFloat, metric, series[..j]) + [Record(formatFloat, metric, series[j].0, series[j].1)]
  {
    assert series[..j + 1][..j] == series[..j];
  }

  /** The records of a `get` result: metric by metric, sample by sample. */
  function Records<V>(formatFloat: V -> string, d: Store<V>): (r: seq<string>)
    ensures r == [] <==> forall i :: 0 <= i < |d| ==> d[i].1 == []
  {
    if |d| == 0 then []
    else Records(formatFloat, d[..|d| - 1]) + SeriesRecords(formatFloat, d[|d| - 1].0, d[|d| - 1].1)
  }

  lemma RecordsStep<V>(formatFloat: V -> string, d: Store<V>, i: nat)
    requires i < |d|
    ensures Records(formatFloat, d[..i + 1]) == Records(formatFloat, d[..i]) + SeriesRecords(formatFloat, d[i].0, d[i].1)
  {
    assert d[..i + 1][..i] == d[..i];
  }

  /**
   * `'\n'.join(records) + '\n' if records else ''`: every record on a line of its own,
   * each line ending in a newline.
   */
  function Render<V>(formatFloat: V -> string, d: Store<V>): (r: string)
    ensures r == Terminated(Records(formatFloat, d), "\n")
  {
    var records := Records(formatFloat, d);
    if |records| > 0 then
      JoinThenTerminate(records, "\n");
      Join(records, "\n") + "\n"
    else ""
  }

  /**
   * `_parse_request(request)` on a store value: the store afterwards and the outcome.
   * A first token other than `put` or `get` raises WrongCommand; a `put` without exactly
   * three arguments, or whose value or timestamp does not parse, and a `get` without an
   * argument raise OtherError; no failure and no `get` changes the store; `get *` on an
   * empty store is the one request that returns `None`.
   */
  function RequestSpec<V>(parseFloat: string -> Option<V>, formatFloat: V -> string,
                          store: Store<V>, request: string): (r: (Store<V>, Outcome))
    requires ValidStore(store)
    ensures ValidStore(r.0)
    ensures r.1 == Raised(WrongCommand) <==> !IsCommand(Command(request))
    ensures r.1.Raised? || Command(request) != "put" ==> r.0 == store
    ensures Command(request) == "put" && |Tokens(request)| != 4 ==> r.1 == Raised(OtherError)
    ensures Command(request) == "put" && |Tokens(request)| == 4 ==>
              match (parseFloat(Tokens(request)[2]), ParseInt(Tokens(request)[3]))
              case (Some(v), Some(t)) => r == (PutSample(store, Tokens(request)[1], v, t), Returned(Some("")))
              case _ => r.1 == Raised(OtherError)
    ensures Command(request) == "get" && |Tokens(request)| == 1 ==> r.1 == Raised(OtherError)
    ensures Command(request) == "get" && |Tokens(request)| > 1 ==>
              r.1 == Returned(if Tokens(request)[1] == "*" && store == [] then None
                              else Some(Render(formatFloat, Query(store, Tokens(request)[1]))))
  {
    var tokens := Tokens(request);
    var cmd, args := tokens[0], tokens[1..];
    if cmd == "put" then
      if |args| != 3 then (store, Raised(OtherError))
      else
        match (parseFloat(args[1]), ParseInt(args[2]))
        case (Some(v), Some(t)) =>
          PutSampleValid(store, args[0], v, t);
          (PutSample(store, args[0], v, t), Returned(Some("")))
        case _ => (store, Raised(OtherError))
    else if cmd == "get" then
      if |args| == 0 then (store, Raised(OtherError))
      else
        var found := Query(store, args[0]);
        if |found| == 0 then (store, Returned(None))
        else (store, Returned(Some(Render(formatFloat, found))))
    else (store, Raised(WrongCommand))
  }

  // ---------------------------------------------------------------- a whole payload

  /** The lines `process_data` acts on: the pieces of the payload that are not empty. */
  function NonEmpty(lines: seq<string>): (r: seq<string>)
    ensures |r| <= |lines|
    ensures forall k :: 0 <= k < |r| ==> r[k] != ""
  {
    if |lines| == 0 then []
    else if lines[|lines| - 1] == "" then NonEmpty(lines[..|lines| - 1])
    else NonEmpty(lines[..|lines| - 1]) + [lines[|lines| - 1]]
  }

  /** A single piece is acted on exactly when it is not empty. */
  lemma NonEmptyOne(line: string)
    ensures NonEmpty([line]) == if line == "" then [] else [line]
  {
    assert [line][..0] == [];
  }

  /** The filter keeps the order of the pieces: the kept pieces of two runs of lines, one after the other. */
  lemma {:induction false} NonEmptyConcat(a: seq<string>, b: seq<string>)
    ensures NonEmpty(a + b) == NonEmpty(a) + NonEmpty(b)
    decreases |b|
  {
    if |b| == 0 {
      assert a + b == a;
    } else {
      var init, last := b[..|b| - 1], b[|b| - 1];
      assert (a + b)[..|a + b| - 1] == a + init;
      assert (a + b)[|a + b| - 1] == last;
      NonEmptyConcat(a, init);
    }
  }

  /**
   * Runs `_parse_request` on every non-empty line in turn, each on the store the previous
   * ones left: the final store and one outcome per non-empty line.
   */
  function Trace<V>(parseFloat: string -> Option<V>, formatFloat: V -> string,
                    store: Store<V>, lines: seq<string>): (r: (Store<V>, seq<Outcome>))
    requires ValidStore(store)
    ensures ValidStore(r.0)
    ensures |r.1| == |NonEmpty(lines)|
  {
    if |lines| == 0 then (store, [])
    else
      var init, line := lines[..|lines| - 1], lines[|lines| - 1];
      var before := Trace(parseFloat, formatFloat, store, init);
      if line == "" then before
      else
        var step := RequestSpec(parseFloat, formatFloat, before.0, line);
        (step.0, before.1 + [step.1])
  }

  /** `Trace` on one more line: an empty line is skipped, any other one is run on the store so far. */
  lemma TraceStep<V>(parseFloat: string -> Option<V>, formatFloat: V -> string,
                     store: Store<V>, lines: seq<string>, i: nat)
    requires ValidStore(store)
    requires i < |lines|
    ensures var before := Trace(parseFloat, formatFloat, store, lines[..i]);
            Trace(parseFloat, formatFloat, store, lines[..i + 1])
            == if lines[i] == "" then before
               else var step := RequestSpec(parseFloat, formatFloat, before.0, lines[i]);
                    (step.0, before.1 + [step.1])
  {
    assert lines[..i + 1][..i] == lines[..i];
  }

  /** `Trace` on one more non-empty line: it runs on the store the lines before it left. */
  lemma TraceLine<V>(parseFloat: string -> Option<V>, formatFloat: V -> string,
                     store: Store<V>, lines: seq<string>, line: string)
    requires ValidStore(store)
    requires line != ""
    ensures var before := Trace(parseFloat, formatFloat, store, lines);
            var step := RequestSpec(parseFloat, formatFloat, before.0, line);
            Trace(parseFloat, formatFloat, store, lines + [line]) == (step.0, before.1 + [step.1])
  {
    var extended := lines + [line];
    assert extended[..|lines|] == lines && extended[..|lines| + 1] == extended && extended[|lines|] == line;
    TraceStep(parseFloat, formatFloat, store, extended, |lines|);
  }

  /**
   * No rollback: a line that fails leaves the store exactly as the lines before it built it,
   * and its outcome is recorded after theirs.
   */
  lemma TraceFailureKeepsStore<V>(parseFloat: string -> Option<V>, formatFloat: V -> string,
                                  store: Store<V>, lines: seq<string>, line: string)
    requires ValidStore(store)
    requires line != ""
    requires Fails(RequestSpec(parseFloat, formatFloat, Trace(parseFloat, formatFloat, store, lines).0, line).1)
    ensures var before := Trace(parseFloat, formatFloat, store, lines);
            Trace(parseFloat, formatFloat, store, lines + [line])
            == (before.0, before.1 + [RequestSpec(parseFloat, formatFloat, before.0, line).1])
  {
    TraceLine(parseFloat, formatFloat, store, lines, line);
  }

  /** A line whose command is `put` is not empty. */
  lemma PutLineNotEmpty(line: string)
    requires Command(line) == "put"
    ensures line != ""
  {
    var tokens := Tokens(line);
    assert Join(tokens, " ") == Strip(line);
    if |tokens| == 1 {
      assert Strip(line) == "put";
    } else {
      assert Join(tokens, " ") == tokens[0] + " " + Join(tokens[1..], " ");
    }
  }

  /** A `put` line with three arguments whose value and timestamp parse stores its sample and returns "". */
  lemma PutLineSpec<V>(parseFloat: string -> Option<V>, formatFloat: V -> string,
                       store: Store<V>, line: string, value: V, timestamp: int)
    requires ValidStore(store)
    requires Command(line) == "put" && |Tokens(line)| == 4
    requires parseFloat(Tokens(line)[2]) == Some(value) && ParseInt(Tokens(line)[3]) == Some(timestamp)
    ensures RequestSpec(parseFloat, formatFloat, store, line)
            == (PutSample(store, Tokens(line)[1], value, timestamp), Returned(Some("")))
  {
    assert (parseFloat(Tokens(line)[2]), ParseInt(Tokens(line)[3])) == (Some(value), Some(timestamp));
  }

  /**
   * A well-formed `put` line stores its sample on the store the lines before it left,
   * whatever failed among them, and contributes "".
   */
  lemma TracePutLine<V>(parseFloat: string -> Option<V>, formatFloat: V -> string,
                        store: Store<V>, lines: seq<string>, line: string, value: V, timestamp: int)
    requires ValidStore(store)
    requires Command(line) == "put" && |Tokens(line)| == 4
    requires parseFloat(Tokens(line)[2]) == Some(value) && ParseInt(Tokens(line)[3]) == Some(timestamp)
    ensures var before := Trace(parseFloat, formatFloat, store, lines);
            Trace(parseFloat, formatFloat, store, lines + [line])
            == (PutSample(before.0, Tokens(line)[1], value, timestamp), before.1 + [Returned(Some(""))])
  {
    var before := Trace(parseFloat, formatFloat, store, lines);
    PutLineNotEmpty(line);
    PutLineSpec(parseFloat, formatFloat, before.0, line, value, timestamp);
    TraceLine(parseFloat, formatFloat, store, lines, line);
  }

  /** Whether a line raises WrongCommand depends on that line alone, not on the lines before it. */
  lemma {:induction false} TraceWrongCommand<V>(parseFloat: string -> Option<V>, formatFloat: V -> string,
                                                store: Store<V>, lines: seq<string>, k: nat)
    requires ValidStore(store)
    requires k < |NonEmpty(lines)|
    ensures Trace(parseFloat, formatFloat, store, lines).1[k] == Raised(WrongCommand)
            <==> !IsCommand(Command(NonEmpty(lines)[k]))
  {
    var init, line := lines[..|lines| - 1], lines[|lines| - 1];
    var before := Trace(parseFloat, formatFloat, store, init);
    if line == "" {
      assert NonEmpty(lines) == NonEmpty(init);
      TraceWrongCommand(parseFloat, formatFloat, store, init, k);
    } else {
      assert NonEmpty(lines) == NonEmpty(init) + [line];
      if k < |NonEmpty(init)| {
        TraceWrongCommand(parseFloat, formatFloat, store, init, k);
      }
    }
  }

  /** A payload without a `put` line leaves the store as it was. */
  lemma {:induction false} TraceWithoutPut<V>(parseFloat: string -> Option<V>, formatFloat: V -> string,
                                              store: Store<V>, lines: seq<string>)
    requires ValidStore(store)
    requires forall k :: 0 <= k < |NonEmpty(lines)| ==> Command(NonEmpty(lines)[k]) != "put"
    ensures Trace(parseFloat, formatFloat, store, lines).0 == store
  {
    if |lines| > 0 {
      var init, line := lines[..|lines| - 1], lines[|lines| - 1];
      if line == "" {
        assert NonEmpty(lines) == NonEmpty(init);
      } else {
        assert NonEmpty(lines) == NonEmpty(init) + [line];
        assert NonEmpty(lines)[|NonEmpty(init)|] == line;
        forall k | 0 <= k < |NonEmpty(init)| ensures Command(NonEmpty(init)[k]) != "put" {
          assert NonEmpty(lines)[k] == NonEmpty(init)[k];
        }
      }
      TraceWithoutPut(parseFloat, formatFloat, store, init);
    }
  }

  /** A line fails when it raises, or when it returns `None` (`response += None` raises). */
  predicate Fails(o: Outcome) {
    o.Raised? || o.text.None?
  }

  /** What one outcome does to the status and the accumulated response. */
  function Absorb(b: Batch, o: Outcome): Batch
  {
    match o
    case Returned(Some(text)) => Batch(b.status, b.body + text)
    case Returned(None) => Batch("error", "")
    case Raised(WrongCommand) => Batch("error", "wrong command")
    case Raised(OtherError) => Batch("error", "")
  }

  function Fold(b: Batch, outcomes: seq<Outcome>): Batch
  {
    if |outcomes| == 0 then b
    else Absorb(Fold(b, outcomes[..|outcomes| - 1]), outcomes[|outcomes| - 1])
  }

  /** `Fold` on one more outcome, for any outcome that comes next. */
  lemma FoldStep(b: Batch, outcomes: seq<Outcome>, status: string, body: string)
    requires Fold(b, outcomes) == Batch(status, body)
    ensures forall o :: Fold(b, outcomes + [o]) == Absorb(Batch(status, body), o)
  {
    forall o ensures Fold(b, outcomes + [o]) == Absorb(Batch(status, body), o) {
      assert (outcomes + [o])[..|outcomes|] == outcomes;
    }
  }

  /** The text the successful outcomes contribute, concatenated in order. */
  function Texts(outcomes: seq<Outcome>): string
  {
    if |outcomes| == 0 then ""
    else
      var last := outcomes[|outcomes| - 1];
      Texts(outcomes[..|outcomes| - 1]) + (if Fails(last) then "" else last.text.value)
  }

  /** The body a failure leaves behind. */
  function FailureBody(o: Outcome): string
  {
    if o == Raised(WrongCommand) then "wrong command" else ""
  }

  /** The position of the last failing outcome, if any. */
  function LastFailure(outcomes: seq<Outcome>): (r: Option<nat>)
    ensures r.Some? ==> r.value < |outcomes| && Fails(outcomes[r.value])
                        && forall j :: r.value < j < |outcomes| ==> !Fails(outcomes[j])
    ensures r.None? ==> forall j :: 0 <= j < |outcomes| ==> !Fails(outcomes[j])
  {
    if |outcomes| == 0 then None
    else if Fails(outcomes[|outcomes| - 1]) then Some(|outcomes| - 1)
    else LastFailure(outcomes[..|outcomes| - 1])
  }

  /**
   * The status and body after a run of outcomes: without a failure, the status is kept and
   * the texts are appended; otherwise the status is "error" and the body is what the last
   * failure left, followed by the texts of the lines after it.
   */
  lemma {:induction false} FoldResult(b: Batch, outcomes: seq<Outcome>)
    ensures Fold(b, outcomes) == match LastFailure(outcomes)
                                 case None => Batch(b.status, b.body + Texts(outcomes))
                                 case Some(i) => Batch("error", FailureBody(outcomes[i]) + Texts(outcomes[i + 1..]))
  {
    if |outcomes| > 0 {
      var n := |outcomes|;
      var init, last := outcomes[..n - 1], outcomes[n - 1];
      FoldResult(b, init);
      assert Fold(b, outcomes) == Absorb(Fold(b, init), last);
      if !Fails(last) {
        var text := last.text.value;
        assert Fold(b, outcomes) == Batch(Fold(b, init).status, Fold(b, init).body + text);
        assert LastFailure(outcomes) == LastFailure(init);
        match LastFailure(init)
        case None =>
          assert Texts(outcomes) == Texts(init) + text;
          assert b.body + Texts(init) + text == b.body + Texts(outcomes);
          assert Fold(b, outcomes) == Batch(b.status, b.body + Texts(outcomes));
        case Some(i) =>
          var tail := outcomes[i + 1..];
          assert tail[..|tail| - 1] == init[i + 1..] && tail[|tail| - 1] == last;
          assert Texts(tail) == Texts(init[i + 1..]) + text;
          assert outcomes[i] == init[i];
          assert Fold(b, outcomes) == Batch("error", FailureBody(outcomes[i]) + Texts(tail));
      } else {
        assert LastFailure(outcomes) == Some(n - 1);
        assert outcomes[n..] == [];
        assert Fold(b, outcomes) == Batch("error", FailureBody(last) + Texts(outcomes[n..]));
      }
    }
  }

  /** Once the status is "error", no later line sets it back. */
  lemma {:induction false} ErrorStatusSticks(body: string, outcomes: seq<Outcome>)
    ensures Fold(Batch("error", body), outcomes).status == "error"
  {
    FoldResult(Batch("error", body), outcomes);
  }

  /** `f'{status}\n{response}\n'`. */
  function Respond(b: Batch): string
  {
    b.status + "\n" + b.body + "\n"
  }

  /** The response text `process_data` builds from the outcomes of its lines. */
  lemma ResponseText(outcomes: seq<Outcome>)
    ensures Respond(Fold(Batch("ok", ""), outcomes))
            == match LastFailure(outcomes)
               case None => "ok" + "\n" + Texts(outcomes) + "\n"
               case Some(i) => "error" + "\n" + (FailureBody(outcomes[i]) + Texts(outcomes[i + 1..])) + "\n"
  {
    FoldResult(Batch("ok", ""), outcomes);
    match LastFailure(outcomes)
    case None =>
      assert Fold(Batch("ok", ""), outcomes) == Batch("ok", "" + Texts(outcomes));
    case Some(i) =>
  }

  /**
   * `process_data(data)` on a store value: the store afterwards and the response text.
   * Without a failing line the response is "ok", a newline, the lines' texts in order and a
   * newline; otherwise it is "error", a newline, the body the last failure left, the texts of
   * the lines after it and a newline.
   */
  function Process<V>(parseFloat: string -> Option<V>, formatFloat: V -> string,
                      store: Store<V>, data: string): (r: (Store<V>, string))
    requires ValidStore(store)
    ensures ValidStore(r.0)
  {
    var trace := Trace(parseFloat, formatFloat, store, Split(data, '\n'));
    (trace.0, Respond(Fold(Batch("ok", ""), trace.1)))
  }

  /**
   * The response to a payload: without a failing line it is "ok", a newline, the lines'
   * texts in order and a newline; otherwise "error", a newline, the body the last failure
   * left, the texts of the lines after it and a newline.
   */
  lemma ProcessResponse<V>(parseFloat: string -> Option<V>, formatFloat: V -> string,
                           store: Store<V>, data: string, outcomes: seq<Outcome>)
    requires ValidStore(store)
    requires outcomes == Trace(parseFloat, formatFloat, store, Split(data, '\n')).1
    ensures Process(parseFloat, formatFloat, store, data).1
            == match LastFailure(outcomes)
               case None => "ok" + "\n" + Texts(outcomes) + "\n"
               case Some(i) => "error" + "\n" + (FailureBody(outcomes[i]) + Texts(outcomes[i + 1..])) + "\n"
  {
    ResponseText(outcomes);
  }

  // ---------------------------------------------------------------- the handler object

  class RequestHandler<V> {
    const storage: Storage<V>
    const parseFloat: string -> Option<V>
    const formatFloat: V -> string

    constructor (storage: Storage<V>, parseFloat: string -> Option<V>, formatFloat: V -> string)
      ensures this.storage == storage
      ensures this.parseFloat == parseFloat && this.formatFloat == formatFloat
    {
      this.storage := storage;
      this.parseFloat := parseFloat;
      this.formatFloat := formatFloat;
    }

    /** `_parse_request(request)`: parse one line and run it against the store. */
    method ParseRequest(request: string) returns (o: Outcome)
      requires storage.Valid()
      modifies storage
      ensures storage.Valid()
      ensures (storage.data, o) == RequestSpec(parseFloat, formatFloat, old(storage.data), request)
    {
      var tokens := Split(Strip(request), ' ');
      var cmd, args := tokens[0], tokens[1..];
      if cmd == "put" {
        if |args| != 3 {
          return Raised(OtherError);  // `metric, value, timestamp = args` raises ValueError
        }
        var metric, value, timestamp := args[0], args[1], args[2];
        var v := parseFloat(value);
        if v.None? {
          return Raised(OtherError);
        }
        var t := ParseInt(timestamp);
        if t.None? {
          return Raised(OtherError);
        }
        storage.Put(metric, v.value, t.value);
        return Returned(Some(""));
      } else if cmd == "get" {
        if |args| == 0 {
          return Raised(OtherError);  // `args[0]` raises IndexError
        }
        var metricsDict := storage.Get(args[0]);
        if |metricsDict| > 0 {
          var records := CollectRecords(metricsDict);
          return Returned(Some(if |records| > 0 then Join(records, "\n") + "\n" else ""));
        }
        return Returned(None);  // the `if metrics_dict:` test fails and the function falls through
      } else {
        return Raised(WrongCommand);
      }
    }

    /** The nested loops of `_parse_request` that list one record per sample of a `get` result. */
    method CollectRecords(metricsDict: Store<V>) returns (records: seq<string>)
      ensures records == Records(formatFloat, metricsDict)
    {
      records := [];
      for i := 0 to |metricsDict|
        invariant records == Records(formatFloat, metricsDict[..i])
      {
        var metric, values := metricsDict[i].0, metricsDict[i].1;
        RecordsStep(formatFloat, metricsDict, i);
        if |values| > 0 {
          records := AppendSeries(records, metric, values);
        }
      }
      assert metricsDict[..|metricsDict|] == metricsDict;
    }

    /** The inner loop: `records.append(f'{metric} {val} {ts}')` for each sample of one metric. */
    method AppendSeries(records: seq<string>, metric: string, values: Series<V>) returns (extended: seq<string>)
      ensures extended == records + SeriesRecords(formatFloat, metric, values)
    {
      extended := records;
      for j := 0 to |values|
        invariant extended == records + SeriesRecords(formatFloat, metric, values[..j])
      {
        SeriesRecordsStep(formatFloat, metric, values, j);
        extended := extended + [Record(formatFloat, metric, values[j].0, values[j].1)];
      }
      assert values[..|values|] == values;
    }

    /** `process_data(data)`: run every non-empty line of the payload and build the response. */
    method ProcessData(data: string) returns (response: string)
      requires storage.Valid()
      modifies storage
      ensures storage.Valid()
      ensures (storage.data, response) == Process(parseFloat, formatFloat, old(storage.data), data)
    {
      ghost var initial := storage.data;
      var status := "ok";
      var body := "";
      var requests := Split(data, '\n');
      ghost var outcomes: seq<Outcome> := [];
      for i := 0 to |requests|
        invariant storage.Valid()
        invariant (storage.data, outcomes) == Trace(parseFloat, formatFloat, initial, requests[..i])
        invariant Batch(status, body) == Fold(Batch("ok", ""), outcomes)
      {
        var request := requests[i];
        TraceStep(parseFloat, formatFloat, initial, requests, i);
        if request != "" {
          FoldStep(Batch("ok", ""), outcomes, status, body);
          var o := ParseRequest(request);
          match o {
            case Returned(Some(text)) =>
              body := body + text;
            case Returned(None) =>
              status, body := "error", "";  // `response += None` raises TypeError
            case Raised(WrongCommand) =>
              status, body := "error", "wrong command";
            case Raised(OtherError) =>
              status, body := "error", "";
          }
          outcomes := outcomes + [o];
        }
      }
      assert requests[..|requests|] == requests;
      response := status + "\n" + body + "\n";
    }
  }
}
