# Weather stream: OHLC reducer and CSV producer, in Dafny

The system streams weather readings through Kafka. A producer reads
readings from a CSV file or from a weather API and publishes one JSON
message per reading. A transformer groups the messages into tumbling
windows. For each window it keeps an open/high/low/close ("OHLC") summary
of temperature, wind speed and relative humidity.

This project models and verifies two parts of that system. The Kafka and
HTTP glue around them is not modelled.

- `ohlc.dfy` (module `HighLowOpenClose`) covers the transformer's
  `extract_values`, `initializer_func` and `reducer_func`.
  - The library folds these over the messages of one window. The fold is
    modelled as `FoldWindow`: the initializer runs on the first message and
    the reducer on each later one.
  - The proofs show that each field of a window's aggregate is the summary
    of that field's own series: open is the first value, close the last,
    high the maximum and low the minimum, and high and low are values that
    occurred.
  - They also show that the ordering `low <= open, close <= high` holds.
  - A message that lacks a reading produces no aggregate at all.
- `line_format.dfy` (module `LineFormat`) covers the text handling of the
  producer's CSV replay.
  - It models Python's `str.strip()` and `str.split(",")`.
  - The regular expression of `LineReader.is_valid_line` is written as a
    left-to-right character scanner. It is proved equivalent to a
    field-wise reading: four comma-separated fields, namely a timestamp,
    a decimal, an unsigned integer and a decimal.
  - It models the field split of `clean_line`.
- `producer.dfy` (module `Producer`) covers the rest of the producer.
  - `Parser.process_args` and the data-source dispatch
    `select_correct_requester_and_delay`.
  - `read_lines_from_csv`, written as a `for` loop.
  - `LineReader`, written as a class whose generator state is a cursor into
    the file. Each `Call` returns the next record of the filtered stream.
    After the stream ends it returns None (`Exhausted`) on every later call.
- `wrappers.dfy` (module `Wrappers`) holds `Option` and `Outcome`.

Readings are `real`. A message is `map<string, map<string, real>>`, read
as `msg["current"][key]`. The lines of the CSV file are given as a
`seq<string>`, one element per line as Python's file iteration delivers
it. A Python exception appears as an explicit result:
- `None` for a missing key, a failed unpacking or a rejected window;
- `Fail(message)` for the `ValueError` of `process_args`;
- `AssertionFailed` for the generator's `assert`.

A message missing any of the three readings makes `extract_values` raise
`KeyError` before any field is touched. So no field is updated, and the
model gives no aggregate for the window (`Reducer`, `FoldWindowDefined`).

## Model

| member | source | states |
|---|---|---|
| HighLowOpenClose.SummaryIsUnique | transformer_high_low/transformer_high_low_open_close.py:35-80 | A series has at most one OHLC summary, so the summary pins the state completely. |
| HighLowOpenClose.SummaryIsConsistent | transformer_high_low/transformer_high_low_open_close.py:35-80 | Every summary of a series satisfies low <= open <= high and low <= close <= high. |
| HighLowOpenClose.InitField | transformer_high_low/transformer_high_low_open_close.py:59-80 | A field seeded from a reading v is the summary of the one-element series [v] (open = close = high = low = v) and is consistent. |
| HighLowOpenClose.ReduceField | transformer_high_low/transformer_high_low_open_close.py:35-56 | A reducer step keeps open, sets close to the new value, and makes high and low bounds of the old extreme and the new value, each equal to one of the two. It preserves the ordering invariant. |
| HighLowOpenClose.ReduceExtendsSummary | transformer_high_low/transformer_high_low_open_close.py:35-56 | A reducer step turns a summary of vs into a summary of vs + [v]. |
| HighLowOpenClose.FoldField | transformer_high_low/transformer_high_low_open_close.py:35-80 | One field's state after its window's values are folded in order, seeded by the initializer and stepped by the reducer. Open is the first value and close the last; high and low are given by FoldFieldSummarises. |
| HighLowOpenClose.FoldFieldSummarises | transformer_high_low/transformer_high_low_open_close.py:35-80 | Folding a non-empty series gives open = first value, close = last value, high = maximum, low = minimum (both observed), and a consistent state. |
| HighLowOpenClose.ExtractValues | transformer_high_low/transformer_high_low_open_close.py:28-32 | Extraction succeeds exactly when current and all three keys are present. Temperature, wind speed and humidity come from temperature_2m, wind_speed_10m and relative_humidity_2m respectively. |
| HighLowOpenClose.Initializer | transformer_high_low/transformer_high_low_open_close.py:59-80 | The initial aggregate exists exactly when all readings are present. Each field then summarises the single reading under its own key. |
| HighLowOpenClose.Reducer | transformer_high_low/transformer_high_low_open_close.py:35-56 | The reduced aggregate exists exactly when all readings are present, so there is no partial update. Each field is the field step applied to the same field of the old aggregate and that field's own reading. |
| HighLowOpenClose.ReducerFieldsIndependent | transformer_high_low/transformer_high_low_open_close.py:36-55 | Fields do not interfere: two reductions agree on a field whenever their old states and readings for that field agree, whatever the other fields hold. |
| HighLowOpenClose.FoldWindow | transformer_high_low/transformer_high_low_open_close.py:100 | The window reduction: initializer_func on the first message, reducer_func on each later one, in arrival order, with no aggregate once a message raises. Its contents are given by FoldWindowDefined, FoldWindowByColumns and WindowSummary. |
| HighLowOpenClose.FoldWindowDefined | transformer_high_low/transformer_high_low_open_close.py:29-31 | A window has an aggregate exactly when every message carries all three readings. |
| HighLowOpenClose.FoldWindowByColumns | transformer_high_low/transformer_high_low_open_close.py:35-80 | Each field of a window's aggregate is the fold of that field's own series of readings, in arrival order. |
| HighLowOpenClose.WindowSummary | transformer_high_low/transformer_high_low_open_close.py:35-80 | A window with all readings present yields an aggregate whose every field summarises its own series and is consistent. Any other window yields none. |
| LineFormat.Strip | producer/producer.py:122 | str.strip(): leading whitespace removed, then trailing whitespace. The result is no longer than the line; StripIsTrimmedSlice and StripIsIdempotent say what it keeps. |
| LineFormat.LStripSpec | producer/producer.py:122 | Left stripping removes a whitespace prefix and nothing more: the result is a suffix of the input and does not start with whitespace. |
| LineFormat.RStripSpec | producer/producer.py:122 | Right stripping removes a whitespace suffix and nothing more: the result is a prefix of the input and does not end with whitespace. |
| LineFormat.StripIsTrimmedSlice | producer/producer.py:122 | strip() returns the contiguous slice of the line between its leading and trailing whitespace. |
| LineFormat.StripIsIdempotent | producer/producer.py:122 | A stripped line starts and ends with non-whitespace, and stripping it again changes nothing. |
| LineFormat.Split | producer/producer.py:132 | str.split(","): the pieces between commas, empty pieces kept. There is always at least one piece; JoinSplit and SplitJoin make it the inverse of joining with commas. |
| LineFormat.SplitFieldsHaveNoComma | producer/producer.py:132 | No field produced by split(",") contains a comma. |
| LineFormat.JoinSplit | producer/producer.py:132 | Joining the fields of split(",") with commas gives back the line. |
| LineFormat.SplitJoin | producer/producer.py:132 | Splitting comma-free fields joined with commas gives back exactly those fields. |
| LineFormat.Matches | producer/producer.py:114 | The full pattern, anchored at both ends, run as a left-to-right scanner: timestamp, ",", decimal, ",", integer, ",", decimal, end of line. MatchesIffFields gives the field-wise reading. |
| LineFormat.IsValidLine | producer/producer.py:113-115 | re.match with the anchored pattern: the line matches, or it ends in one newline and the rest matches, since `$` also matches before a final newline. StrippedValidIsMatch and ValidLineHasFourFields state what it accepts. |
| LineFormat.NaturalEndSpec | producer/producer.py:114 | The scanner matches `\d+` from position i to j exactly when s[i..j] is a non-empty digit string not followed by a digit. |
| LineFormat.DecimalEndSound | producer/producer.py:114 | Whatever the scanner matches for `-?\d+\.\d+` is an optionally negative decimal with digits on both sides of the dot, not followed by a digit. |
| LineFormat.DecimalEndComplete | producer/producer.py:114 | Every optionally negative decimal that is not followed by a digit is matched by the scanner to its end. |
| LineFormat.UnsignedDecimalEndSound | producer/producer.py:114 | Whatever the scanner matches for `\d+\.\d+` has digits on both sides of a dot and is not followed by a digit. |
| LineFormat.UnsignedDecimalEndComplete | producer/producer.py:114 | Every unsigned decimal that is not followed by a digit is matched by the scanner to its end. |
| LineFormat.MatchesIffFields | producer/producer.py:113-115 | The scanner accepts a line exactly when it splits on commas into four fields: a DDDD-DD-DDTDD:DD timestamp (digit values unchecked), an optionally negative decimal, an unsigned integer and an optionally negative decimal. |
| LineFormat.StrippedValidIsMatch | producer/producer.py:121-123 | On a stripped line, the trailing-newline allowance of `$` never matters: is_valid_line accepts it exactly when the whole pattern matches. |
| LineFormat.ValidLineHasFourFields | producer/producer.py:113-132 | Every line is_valid_line accepts, with or without a final newline, splits on "," into exactly four fields. |
| LineFormat.CleanLine | producer/producer.py:132 | The unpacking of clean_line succeeds exactly when the line has four comma-separated fields. |
| LineFormat.CleanLineOfRow | producer/producer.py:132-154 | For a row time,temp,humidity,wind the payload carries temp as temperature_2m, humidity as relative_humidity_2m and wind as wind_speed_10m, and drops the timestamp. |
| LineFormat.ValidLineCleans | producer/producer.py:123-124 | clean_line cannot fail on a line is_valid_line accepted. |
| Producer.ProcessArgs | producer/producer.py:35-39 | The options are accepted exactly when "data source is csv" and "a CSV path is given" agree. Either rejection carries the same ValueError message. |
| Producer.SelectRequesterAndDelay | producer/producer.py:160-174 | The dispatch as written: requests gives send_request with delay 60, and only openmeteo_requests gives the Open-Meteo client. Every other value gives the line reader with delay 0.5, so no declared data source reaches the Open-Meteo client. |
| Producer.SelectIntended | producer/producer.py:160-174 | The corrected dispatch: among declared sources, csv gives the line reader (0.5), requests gives send_request (60) and openmeteo gives the Open-Meteo client (60). |
| Producer.Startup | producer/producer.py:29-39 | Start-up succeeds exactly for a declared data source whose options pass process_args. With the corrected dispatch, the line reader is chosen only when its generator's assertion holds. |
| Producer.KeptLines | producer/producer.py:120-124 | The generator's filter loop over the file, for any normalisation and test: each line normalised, kept when the test passes, in file order. It keeps at most one record per line; the KeptIndices lemmas characterise which. |
| Producer.ValidLines | producer/producer.py:120-124 | The records read_lines_from_csv yields before cleaning: the stripped lines is_valid_line accepts, in file order, at most one per line of the file. |
| Producer.KeptIndicesPick | producer/producer.py:120-124 | Every record the filter keeps is the stripped line at its recorded position in the file, and that line passes the acceptance test. |
| Producer.KeptIndicesIncrease | producer/producer.py:120-124 | The positions of the kept records strictly increase, so records come out in file order. |
| Producer.KeptIndicesComplete | producer/producer.py:120-124 | Every line whose stripped text passes the test is kept; invalid lines are the only ones skipped. |
| Producer.KeptLinesPrefix | producer/producer.py:120-124 | What a prefix of the file yields is a prefix of what the whole file yields, so records come out in file order. |
| Producer.NextKept | producer/producer.py:121-124 | Resuming the loop at a line skips exactly the lines whose stripped text is rejected and stops at the next accepted one or at the end of the file, without changing what has been yielded. |
| Producer.ReadLinesFromCsv | producer/producer.py:117-124 | The generator's assertion fails exactly when the options are not csv with a path. Otherwise it yields one payload per accepted stripped line, in order, each the clean_line of that line. |
| Producer.LineReader.constructor | producer/producer.py:103-105 | A new reader holds a generator that has not started. |
| Producer.LineReader.Call | producer/producer.py:107-111 | The first call raises the generator's AssertionError when the options are not csv with a path. Otherwise each call returns the cleaned next element of the filtered stream and advances by one. Once the stream is exhausted it returns None, on this and every later call. |
| Producer.OpenMeteoFirstRead | producer/producer.py:160-174 | Started as written with the declared source openmeteo and no CSV path, over any file: the options pass process_args, the dispatch selects the line reader with delay 0.5, and that reader's first read raises the AssertionError. The corrected start-up selects the Open-Meteo client with delay 60. |

## Left out

- Windowing: assigning messages to five-minute tumbling windows, closing windows and emitting the final aggregate (transformer_high_low_open_close.py:97-101) are library behaviour. The model takes one window's messages, in arrival order, as given.
- The Kafka application, producer loops and topics, the `main` functions, command-line parsing beyond the data-source and CSV-path options, and logging. This is transport and I/O.
- The HTTP and Open-Meteo clients, request caching and retries, `create_params`, `setup` and `read_location_info`. These are network and file I/O through unseen libraries. The dispatch records which requester is chosen and its delay, not what the requester does.
- File access in `read_lines_from_csv`: opening the file (and its `FileNotFoundError`) and splitting it into lines are I/O. The file arrives as its sequence of lines, and the generator's laziness is reflected only by `LineReader` advancing one record per call.
- `float(...)` in `extract_values` and `clean_line`: readings are already `real` in a message, and `clean_line` keeps its three fields as the strings `float` would parse. A non-numeric value, and float semantics such as NaN in `max`/`min`, are not modelled.
- The non-deterministic and constant parts of `clean_line`'s payload (`random.uniform`, `datetime.now()`, latitude, longitude, units and timezone metadata).
- LineFormat.IsDigit: Python's `\d` on `str` also matches non-ASCII decimal digits. The model accepts only `0`-`9`.
- Running Python with assertions disabled (`python -O`), which would skip the generator's `assert`.
- The average transformer, the unit-conversion transformer and the consumer. These are separate programs outside this model.

## Findings

| source | as written | input that shows it | evidently intended | confidence | as-written member | corrected member |
|---|---|---|---|---|---|---|
| producer/producer.py:160-174 | The Open-Meteo arm matches `"openmeteo_requests"`, a value the `data_source` option never admits (its choices are csv, requests and openmeteo). The declared `openmeteo` falls to the default arm and gets the CSV line reader, whose generator asserts `data_source == "csv"` and fails on the first read. | `--data_source openmeteo` with no CSV path: the options pass `process_args`, then the first `request_data()` raises AssertionError. | `openmeteo` selects `send_request_open_meteo` with delay 60, and the line reader is selected only for `csv`. | medium, not executed | Producer.OpenMeteoFirstRead | Producer.Startup |
