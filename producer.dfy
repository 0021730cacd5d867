/**
 * The producer's option check, its choice of data source, and the CSV line
 * reader that replays a file of readings one record per call.
 */
module Producer {
  import opened Wrappers
  import opened LineFormat

  // ---------------------------------------------------------------------------
  // Parser.process_args
  // ---------------------------------------------------------------------------

  /** The message both rejections of `process_args` raise. */
  const CsvPathError: string := "csv_path is only needed when the data_source is 'csv'"

  /** The values the `Literal["csv", "requests", "openmeteo"]` option admits. */
  predicate IsDeclaredSource(dataSource: string) {
    dataSource == "csv" || dataSource == "requests" || dataSource == "openmeteo"
  }

  /**
   * `Parser.process_args`: a CSV path must be given exactly when the data
   * source is `csv`; otherwise a ValueError is raised.
   */
  function ProcessArgs(dataSource: string, csvPath: Option<string>): (r: Outcome<string>)
    ensures r == Pass <==> ((dataSource == "csv") == csvPath.Some?)
    ensures r.Fail? ==> r.error == CsvPathError
  {
    if dataSource != "csv" && csvPath.Some? then Fail(CsvPathError)
    else if dataSource == "csv" && csvPath.None? then Fail(CsvPathError)
    else Pass
  }

  // ---------------------------------------------------------------------------
  // select_correct_requester_and_delay
  // ---------------------------------------------------------------------------

  /** The callable the producer polls for its next record. */
  datatype Requester = CsvLineReader | SendRequest | SendRequestOpenMeteo

  /** A requester and the delay, in seconds, between two polls. */
  datatype Selection = Selection(requester: Requester, delay: real)

  const CsvDelay: real := 0.5
  const RequestDelay: real := 60.0

  /**
   * `select_correct_requester_and_delay` as written: `requests` selects the HTTP
   * request, `openmeteo_requests` the Open-Meteo client, and every other value
   * (including the declared `openmeteo`) falls to the CSV line reader.
   */
  function SelectRequesterAndDelay(dataSource: string): (s: Selection)
    ensures s.requester == SendRequest <==> dataSource == "requests"
    ensures s.requester == SendRequestOpenMeteo <==> dataSource == "openmeteo_requests"
    ensures s.delay == if s.requester == CsvLineReader then CsvDelay else RequestDelay
    ensures IsDeclaredSource(dataSource) ==> s.requester != SendRequestOpenMeteo
  {
    match dataSource
    case "csv" => Selection(CsvLineReader, CsvDelay)
    case "requests" => Selection(SendRequest, RequestDelay)
    case "openmeteo_requests" => Selection(SendRequestOpenMeteo, RequestDelay)
    case _ => Selection(CsvLineReader, CsvDelay)
  }

  /**
   * The dispatch with its Open-Meteo arm matching the declared value
   * `openmeteo`: among declared sources, the CSV reader is chosen for `csv` only.
   */
  function SelectIntended(dataSource: string): (s: Selection)
    ensures IsDeclaredSource(dataSource) ==>
      && (s.requester == CsvLineReader <==> dataSource == "csv")
      && (s.requester == SendRequest <==> dataSource == "requests")
      && (s.requester == SendRequestOpenMeteo <==> dataSource == "openmeteo")
    ensures s.delay == if s.requester == CsvLineReader then CsvDelay else RequestDelay
  {
    match dataSource
    case "csv" => Selection(CsvLineReader, CsvDelay)
    case "requests" => Selection(SendRequest, RequestDelay)
    case "openmeteo" => Selection(SendRequestOpenMeteo, RequestDelay)
    case _ => Selection(CsvLineReader, CsvDelay)
  }

  /** The assertion the CSV reading generator makes before it opens the file. */
  predicate ReaderGuard(dataSource: string, csvPath: Option<string>) {
    dataSource == "csv" && csvPath.Some?
  }

  /**
   * Start-up of the producer: the option parser rejects undeclared sources and
   * runs `process_args`, then the requester is selected.  With the intended
   * dispatch, the CSV reader is only ever selected when its assertion holds.
   */
  function Startup(dataSource: string, csvPath: Option<string>): (r: Option<Selection>)
    ensures r.Some? <==> IsDeclaredSource(dataSource) && ((dataSource == "csv") == csvPath.Some?)
    ensures r.Some? && r.value.requester == CsvLineReader ==> ReaderGuard(dataSource, csvPath)
  {
    if !IsDeclaredSource(dataSource) then None
    else if ProcessArgs(dataSource, csvPath).Fail? then None
    else Some(SelectIntended(dataSource))
  }

  // ---------------------------------------------------------------------------
  // read_lines_from_csv
  // ---------------------------------------------------------------------------

  /** The lines of `file`, each normalised by `norm`, that `keep` accepts, in file order. */
  function KeptLines(file: seq<string>, norm: string -> string, keep: string -> bool): (vs: seq<string>)
    ensures |vs| <= |file|
  {
    if file == [] then []
    else
      var line := norm(file[|file| - 1]);
      KeptLines(file[..|file| - 1], norm, keep) + (if keep(line) then [line] else [])
  }

  /** The records `read_lines_from_csv` yields, before cleaning: the accepted stripped lines. */
  function ValidLines(file: seq<string>): (vs: seq<string>)
    ensures |vs| <= |file|
  {
    KeptLines(file, Strip, IsValidLine)
  }

  /** The positions in `file` of the lines `KeptLines` keeps, in file order. */
  function KeptIndices(file: seq<string>, norm: string -> string, keep: string -> bool): (idx: seq<nat>)
    ensures |idx| == |KeptLines(file, norm, keep)|
  {
    if file == [] then []
    else
      var n := |file| - 1;
      KeptIndices(file[..n], norm, keep) + (if keep(norm(file[n])) then [n] else [])
  }

  /** Each kept line is the normalised line at its position, and it is accepted. */
  lemma {:induction false} KeptIndicesPick(file: seq<string>, norm: string -> string, keep: string -> bool)
    ensures forall k :: 0 <= k < |KeptIndices(file, norm, keep)| ==>
      && KeptIndices(file, norm, keep)[k] < |file|
      && KeptLines(file, norm, keep)[k] == norm(file[KeptIndices(file, norm, keep)[k]])
      && keep(norm(file[KeptIndices(file, norm, keep)[k]]))
  {
    if file != [] {
      var n := |file| - 1;
      var init := file[..n];
      KeptIndicesPick(init, norm, keep);
      var before := KeptIndices(init, norm, keep);
      var kept := KeptLines(init, norm, keep);
      var idx := KeptIndices(file, norm, keep);
      var line := norm(file[n]);
      assert idx == before + (if keep(line) then [n] else []);
      assert KeptLines(file, norm, keep) == kept + (if keep(line) then [line] else []);
      forall k | 0 <= k < |idx|
        ensures idx[k] < |file| && KeptLines(file, norm, keep)[k] == norm(file[idx[k]]) && keep(norm(file[idx[k]]))
      {
        if k < |before| {
          assert idx[k] == before[k] && before[k] < |init|;
          assert init[before[k]] == file[before[k]];
          assert KeptLines(file, norm, keep)[k] == kept[k];
        }
      }
    }
  }

  /** The positions of the kept lines strictly increase: the lines keep their file order. */
  lemma {:induction false} KeptIndicesIncrease(file: seq<string>, norm: string -> string, keep: string -> bool)
    ensures forall k, l :: 0 <= k < l < |KeptIndices(file, norm, keep)| ==>
      KeptIndices(file, norm, keep)[k] < KeptIndices(file, norm, keep)[l]
  {
    if file != [] {
      var n := |file| - 1;
      var init := file[..n];
      KeptIndicesIncrease(init, norm, keep);
      KeptIndicesPick(init, norm, keep);
      var before := KeptIndices(init, norm, keep);
      var idx := KeptIndices(file, norm, keep);
      assert idx == before + (if keep(norm(file[n])) then [n] else []);
      forall k, l | 0 <= k < l < |idx| ensures idx[k] < idx[l] {
        assert idx[k] == before[k] && before[k] < |init|;
        if l >= |before| {
          assert idx[l] == n;
        } else {
          assert idx[l] == before[l];
        }
      }
    }
  }

  /** Every position whose normalised line is accepted is kept: nothing accepted is skipped. */
  lemma {:induction false} KeptIndicesComplete(file: seq<string>, norm: string -> string, keep: string -> bool)
    ensures forall j :: 0 <= j < |file| && keep(norm(file[j])) ==> j in KeptIndices(file, norm, keep)
  {
    if file != [] {
      var n := |file| - 1;
      var init := file[..n];
      KeptIndicesComplete(init, norm, keep);
      var before := KeptIndices(init, norm, keep);
      var idx := KeptIndices(file, norm, keep);
      assert idx == before + (if keep(norm(file[n])) then [n] else []);
      forall j | 0 <= j < |file| && keep(norm(file[j])) ensures j in idx {
        if j < n {
          assert init[j] == file[j];
          assert j in before;
        } else {
          assert idx[|idx| - 1] == n;
        }
      }
    }
  }

  /** What a prefix of the file yields is a prefix of what the whole file yields. */
  lemma {:induction false} KeptLinesPrefix(file: seq<string>, norm: string -> string, keep: string -> bool, m: nat)
    requires m <= |file|
    ensures KeptLines(file[..m], norm, keep) <= KeptLines(file, norm, keep)
    decreases |file| - m
  {
    if m < |file| {
      KeptLinesPrefix(file, norm, keep, m + 1);
      assert file[..m + 1][..m] == file[..m];
    } else {
      assert file[..m] == file;
    }
  }

  /** Extending the scanned part of the file by one line. */
  lemma KeptLinesStep(file: seq<string>, norm: string -> string, keep: string -> bool, i: nat)
    requires i < |file|
    ensures KeptLines(file[..i + 1], norm, keep) ==
      KeptLines(file[..i], norm, keep) + (if keep(norm(file[i])) then [norm(file[i])] else [])
  {
    assert file[..i + 1][..i] == file[..i];
  }

  /**
   * Resuming the scan at `start` and skipping rejected lines up to an accepted
   * line at `pos` finds the next element of the filtered sequence.
   */
  lemma KeptLinesNext(file: seq<string>, norm: string -> string, keep: string -> bool, start: nat, pos: nat)
    requires start <= pos < |file| && keep(norm(file[pos]))
    requires KeptLines(file[..pos], norm, keep) == KeptLines(file[..start], norm, keep)
    ensures |KeptLines(file[..start], norm, keep)| < |KeptLines(file, norm, keep)|
    ensures KeptLines(file, norm, keep)[|KeptLines(file[..start], norm, keep)|] == norm(file[pos])
    ensures |KeptLines(file[..pos + 1], norm, keep)| == |KeptLines(file[..start], norm, keep)| + 1
  {
    KeptLinesStep(file, norm, keep, pos);
    KeptLinesPrefix(file, norm, keep, pos + 1);
  }

  /**
   * The `for` loop of `read_lines_from_csv` resumed at line `from`: the position
   * of the next line whose normalised text is accepted, or the end of the file.
   */
  method NextKept(file: seq<string>, norm: string -> string, keep: string -> bool, from: nat) returns (pos: nat)
    requires from <= |file|
    ensures from <= pos <= |file|
    ensures KeptLines(file[..pos], norm, keep) == KeptLines(file[..from], norm, keep)
    ensures forall k :: from <= k < pos ==> !keep(norm(file[k]))
    ensures pos < |file| ==> keep(norm(file[pos]))
  {
    pos := from;
    while pos < |file| && !keep(norm(file[pos]))
      invariant from <= pos <= |file|
      invariant forall k :: from <= k < pos ==> !keep(norm(file[k]))
      invariant KeptLines(file[..pos], norm, keep) == KeptLines(file[..from], norm, keep)
    {
      KeptLinesStep(file, norm, keep, pos);
      pos := pos + 1;
    }
  }

  /**
   * `read_lines_from_csv` run to completion over the lines of the file: the
   * cleaned payload of every accepted stripped line, in file order, or None
   * when its opening assertion (data source `csv` with a path) fails.
   */
  method ReadLinesFromCsv(dataSource: string, csvPath: Option<string>, file: seq<string>)
    returns (r: Option<seq<Payload>>)
    ensures r.None? <==> !ReaderGuard(dataSource, csvPath)
    ensures r.Some? ==> |r.value| == |ValidLines(file)|
    ensures r.Some? ==> forall k :: 0 <= k < |r.value| ==> CleanLine(ValidLines(file)[k]) == Some(r.value[k])
  {
    if !(dataSource == "csv" && csvPath.Some?) {
      return None;
    }
    var payloads: seq<Payload> := [];
    for i := 0 to |file|
      invariant |payloads| == |ValidLines(file[..i])|
      invariant forall k :: 0 <= k < |payloads| ==> CleanLine(ValidLines(file[..i])[k]) == Some(payloads[k])
    {
      ghost var before := ValidLines(file[..i]);
      KeptLinesStep(file, Strip, IsValidLine, i);
      var line := Strip(file[i]);
      if IsValidLine(line) {
        ValidLineCleans(line);
        payloads := payloads + [CleanLine(line).value];
        assert ValidLines(file[..i + 1]) == before + [line];
        forall k | 0 <= k < |payloads| ensures CleanLine(ValidLines(file[..i + 1])[k]) == Some(payloads[k]) {
          if k < |before| {
            assert ValidLines(file[..i + 1])[k] == before[k];
          }
        }
      } else {
        assert ValidLines(file[..i + 1]) == before;
      }
    }
    assert file[..|file|] == file;
    return Some(payloads);
  }

  // ---------------------------------------------------------------------------
  // LineReader
  // ---------------------------------------------------------------------------

  /** Where the generator stands: not yet started, paused before line `next`, or finished. */
  datatype GeneratorState = NotStarted | Suspended(next: nat) | Finished

  /** What one call of the reader gives: a payload, None, or the generator's AssertionError. */
  datatype Pull = Yielded(payload: Payload) | Exhausted | AssertionFailed

  /**
   * `LineReader`: holds the `read_lines_from_csv` generator over the file's
   * lines and advances it by one record per call.
   */
  class LineReader {
    const dataSource: string
    const csvPath: Option<string>
    /** The lines of the file at `csvPath`. */
    const file: seq<string>
    var state: GeneratorState
    /** How many records the reader has returned so far. */
    ghost var yielded: nat

    /** Everything the generator can yield: nothing once its assertion fails. */
    ghost function Stream(): seq<string> {
      if ReaderGuard(dataSource, csvPath) then ValidLines(file) else []
    }

    ghost predicate Valid()
      reads this
    {
      match state
      case NotStarted => yielded == 0
      case Suspended(next) =>
        ReaderGuard(dataSource, csvPath) && next <= |file| && yielded == |ValidLines(file[..next])|
      case Finished => yielded == |Stream()|
    }

    constructor (dataSource: string, csvPath: Option<string>, file: seq<string>)
      ensures Valid() && state == NotStarted
      ensures this.dataSource == dataSource && this.csvPath == csvPath && this.file == file
    {
      this.dataSource, this.csvPath, this.file := dataSource, csvPath, file;
      state := NotStarted;
      yielded := 0;
    }

    /**
     * `LineReader.__call__`: the next record of the stream, or None once the
     * stream is exhausted, on this and every later call.  The first call raises
     * the generator's AssertionError when the options are not a CSV source
     * with a path; the generator is then finished.
     */
    method Call() returns (r: Pull)
      requires Valid()
      modifies this
      ensures Valid() && state != NotStarted
      ensures old(state) == NotStarted && !ReaderGuard(dataSource, csvPath) ==>
        r == AssertionFailed && yielded == 0
      ensures old(state) != NotStarted || ReaderGuard(dataSource, csvPath) ==>
        if old(yielded) < |Stream()| then
          && r.Yielded?
          && CleanLine(Stream()[old(yielded)]) == Some(r.payload)
          && yielded == old(yielded) + 1
        else
          r == Exhausted && yielded == old(yielded)
    {
      var pos: nat;
      match state {
        case Finished =>
          return Exhausted;
        case NotStarted =>
          if !(dataSource == "csv" && csvPath.Some?) {
            assert Stream() == [];
            state := Finished;
            return AssertionFailed;
          }
          pos := 0;
        case Suspended(next) =>
          pos := next;
      }
      var start := pos;
      pos := NextKept(file, Strip, IsValidLine, start);
      if pos < |file| {
        var line := Strip(file[pos]);
        KeptLinesNext(file, Strip, IsValidLine, start, pos);
        ValidLineCleans(line);
        state := Suspended(pos + 1);
        yielded := yielded + 1;
        r := Yielded(CleanLine(line).value);
      } else {
        assert file[..pos] == file;
        state := Finished;
        r := Exhausted;
      }
    }
  }

  /**
   * The producer started with data source `openmeteo` and no CSV path, as
   * written, over any CSV file: the options pass `process_args`, the dispatch
   * falls through to the CSV line reader, and the first read of that reader
   * raises its AssertionError.  The corrected start-up picks the Open-Meteo
   * client instead.  `r` is the first read, made only when the dispatch has
   * chosen the line reader.
   */
  method OpenMeteoFirstRead(file: seq<string>) returns (selection: Selection, r: Option<Pull>)
    ensures IsDeclaredSource("openmeteo") && ProcessArgs("openmeteo", None) == Pass
    ensures selection == SelectRequesterAndDelay("openmeteo")
    ensures selection == Selection(CsvLineReader, CsvDelay)
    ensures r == Some(AssertionFailed)
    ensures Startup("openmeteo", None) == Some(Selection(SendRequestOpenMeteo, RequestDelay))
  {
    selection := SelectRequesterAndDelay("openmeteo");
    if selection.requester == CsvLineReader {
      var reader := new LineReader("openmeteo", None, file);
      var pull := reader.Call();
      r := Some(pull);
    } else {
      r := None;
    }
  }
}
