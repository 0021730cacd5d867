/**
 * The open/high/low/close reducer of the high-low-open-close transformer.
 *
 * The stream library assigns messages to tumbling windows and, per window, calls
 * the initializer on the first message and the reducer on every later one.  This
 * module models the two callbacks and that fold over one window's messages; the
 * windowing itself belongs to the library and is not modelled.
 */
module HighLowOpenClose {
  import opened Wrappers

  /** A JSON message: `msg["current"][key]` holds a numeric reading. */
  type Message = map<string, map<string, real>>

  const CurrentKey: string := "current"
  const TemperatureKey: string := "temperature_2m"
  const WindSpeedKey: string := "wind_speed_10m"
  const HumidityKey: string := "relative_humidity_2m"

  /** The open/high/low/close state of one measured field within one window. */
  datatype Ohlc = Ohlc(open: real, close: real, high: real, low: real)

  /** The per-window aggregate: one independent OHLC state per field. */
  datatype Aggregate = Aggregate(temperature: Ohlc, windSpeed: Ohlc, humidity: Ohlc)

  /** The three readings pulled out of one message. */
  datatype Readings = Readings(temperature: real, windSpeed: real, humidity: real)

  // ---------------------------------------------------------------------------
  // Specification of one field's summary
  // ---------------------------------------------------------------------------

  /** The ordering invariant of an OHLC state. */
  predicate Consistent(s: Ohlc) {
    s.low <= s.open <= s.high && s.low <= s.close <= s.high
  }

  /**
   * `s` summarises the non-empty series `vs`: open is the first value, close the
   * last, high the maximum and low the minimum (both observed values).
   */
  predicate Summarises(s: Ohlc, vs: seq<real>) {
    && |vs| > 0
    && s.open == vs[0]
    && s.close == vs[|vs| - 1]
    && s.high in vs && (forall x :: x in vs ==> x <= s.high)
    && s.low in vs && (forall x :: x in vs ==> s.low <= x)
  }

  /** A summary of a series is unique: at most one state summarises it. */
  lemma SummaryIsUnique(s: Ohlc, t: Ohlc, vs: seq<real>)
    requires Summarises(s, vs) && Summarises(t, vs)
    ensures s == t
  {
    assert s.high <= t.high && t.high <= s.high;
    assert s.low <= t.low && t.low <= s.low;
  }

  /** Every summary satisfies the ordering invariant. */
  lemma SummaryIsConsistent(s: Ohlc, vs: seq<real>)
    requires Summarises(s, vs)
    ensures Consistent(s)
  {
    assert vs[0] in vs && vs[|vs| - 1] in vs;
  }

  // ---------------------------------------------------------------------------
  // One field: the initializer and reducer steps
  // ---------------------------------------------------------------------------

  /** The state a field starts from when the window's first value is `v`. */
  function InitField(v: real): (s: Ohlc)
    ensures Summarises(s, [v])
    ensures Consistent(s)
  {
    Ohlc(open := v, close := v, high := v, low := v)
  }

  /** One reducer step for a field: keep open, take `v` as close, widen high and low. */
  function ReduceField(s: Ohlc, v: real): (r: Ohlc)
    ensures r.open == s.open && r.close == v
    ensures s.high <= r.high && v <= r.high && (r.high == s.high || r.high == v)
    ensures r.low <= s.low && r.low <= v && (r.low == s.low || r.low == v)
    ensures Consistent(s) ==> Consistent(r)
  {
    Ohlc(
      open := s.open,
      close := v,
      high := if s.high >= v then s.high else v,
      low := if s.low <= v then s.low else v)
  }

  /** A reducer step turns a summary of `vs` into a summary of `vs + [v]`. */
  lemma ReduceExtendsSummary(s: Ohlc, vs: seq<real>, v: real)
    requires Summarises(s, vs)
    ensures Summarises(ReduceField(s, v), vs + [v])
  {
    var r := ReduceField(s, v);
    var ws := vs + [v];
    forall x | x in ws ensures r.low <= x <= r.high {
      if x != v {
        assert x in vs;
      }
    }
  }

  /** A field's state after its window's values `vs` are folded in, in order. */
  function FoldField(vs: seq<real>): (s: Ohlc)
    requires |vs| > 0
    ensures s.open == vs[0] && s.close == vs[|vs| - 1]
  {
    if |vs| == 1 then InitField(vs[0])
    else ReduceField(FoldField(vs[..|vs| - 1]), vs[|vs| - 1])
  }

  /**
   * Folding a field's values yields their summary: open is the first value,
   * close the last, high the maximum and low the minimum of the window.
   */
  lemma {:induction false} FoldFieldSummarises(vs: seq<real>)
    requires |vs| > 0
    ensures Summarises(FoldField(vs), vs)
    ensures Consistent(FoldField(vs))
  {
    if |vs| > 1 {
      var init := vs[..|vs| - 1];
      FoldFieldSummarises(init);
      ReduceExtendsSummary(FoldField(init), init, vs[|vs| - 1]);
      assert init + [vs[|vs| - 1]] == vs;
    }
    SummaryIsConsistent(FoldField(vs), vs);
  }

  // ---------------------------------------------------------------------------
  // The three fields of a message
  // ---------------------------------------------------------------------------

  /** `msg["current"][key]` exists. */
  predicate HasReading(msg: Message, key: string) {
    CurrentKey in msg && key in msg[CurrentKey]
  }

  /** All three readings are present in `msg`. */
  predicate HasAllReadings(msg: Message) {
    HasReading(msg, TemperatureKey) && HasReading(msg, WindSpeedKey) && HasReading(msg, HumidityKey)
  }

  /**
   * `extract_values`: the temperature, wind speed and humidity readings of `msg`,
   * or None (a KeyError) when `current` or any of the three keys is missing.
   */
  function ExtractValues(msg: Message): (r: Option<Readings>)
    ensures r.Some? <==> HasAllReadings(msg)
    ensures r.Some? ==>
      && r.value.temperature == msg[CurrentKey][TemperatureKey]
      && r.value.windSpeed == msg[CurrentKey][WindSpeedKey]
      && r.value.humidity == msg[CurrentKey][HumidityKey]
  {
    if CurrentKey !in msg then None
    else
      var current := msg[CurrentKey];
      if TemperatureKey !in current || WindSpeedKey !in current || HumidityKey !in current then None
      else Some(Readings(current[TemperatureKey], current[WindSpeedKey], current[HumidityKey]))
  }

  /**
   * `initializer_func`: the aggregate seeded from the window's first message, in
   * which every field has open = close = high = low = its reading.
   */
  function Initializer(msg: Message): (r: Option<Aggregate>)
    ensures r.Some? <==> HasAllReadings(msg)
    ensures r.Some? ==>
      && Summarises(r.value.temperature, [msg[CurrentKey][TemperatureKey]])
      && Summarises(r.value.windSpeed, [msg[CurrentKey][WindSpeedKey]])
      && Summarises(r.value.humidity, [msg[CurrentKey][HumidityKey]])
  {
    match ExtractValues(msg)
    case None => None
    case Some(rd) =>
      Some(Aggregate(InitField(rd.temperature), InitField(rd.windSpeed), InitField(rd.humidity)))
  }

  /**
   * `reducer_func`: folds `msg` into `agg`.  Each field of the result is the
   * field step applied to the same field of `agg` and that field's own reading;
   * a message missing any reading yields no aggregate at all.
   */
  function Reducer(agg: Aggregate, msg: Message): (r: Option<Aggregate>)
    ensures r.Some? <==> HasAllReadings(msg)
    ensures r.Some? ==>
      && r.value.temperature == ReduceField(agg.temperature, msg[CurrentKey][TemperatureKey])
      && r.value.windSpeed == ReduceField(agg.windSpeed, msg[CurrentKey][WindSpeedKey])
      && r.value.humidity == ReduceField(agg.humidity, msg[CurrentKey][HumidityKey])
  {
    match ExtractValues(msg)
    case None => None
    case Some(rd) =>
      Some(Aggregate(
        ReduceField(agg.temperature, rd.temperature),
        ReduceField(agg.windSpeed, rd.windSpeed),
        ReduceField(agg.humidity, rd.humidity)))
  }

  /**
   * Fields do not interfere: a field of the reduced aggregate is fixed by that
   * field's old state and that field's reading alone.
   */
  lemma ReducerFieldsIndependent(a1: Aggregate, m1: Message, a2: Aggregate, m2: Message)
    requires HasAllReadings(m1) && HasAllReadings(m2)
    ensures a1.temperature == a2.temperature
              && m1[CurrentKey][TemperatureKey] == m2[CurrentKey][TemperatureKey]
            ==> Reducer(a1, m1).value.temperature == Reducer(a2, m2).value.temperature
    ensures a1.windSpeed == a2.windSpeed
              && m1[CurrentKey][WindSpeedKey] == m2[CurrentKey][WindSpeedKey]
            ==> Reducer(a1, m1).value.windSpeed == Reducer(a2, m2).value.windSpeed
    ensures a1.humidity == a2.humidity
              && m1[CurrentKey][HumidityKey] == m2[CurrentKey][HumidityKey]
            ==> Reducer(a1, m1).value.humidity == Reducer(a2, m2).value.humidity
  {
  }

  // ---------------------------------------------------------------------------
  // One window
  // ---------------------------------------------------------------------------

  /**
   * The aggregate the stream library builds for one window whose messages, in
   * arrival order, are `msgs`: the initializer on the first, the reducer on each
   * later one.  A message missing a reading raises, so the window has no aggregate.
   */
  function FoldWindow(msgs: seq<Message>): (r: Option<Aggregate>)
    requires |msgs| > 0
  {
    if |msgs| == 1 then Initializer(msgs[0])
    else
      match FoldWindow(msgs[..|msgs| - 1])
      case None => None
      case Some(agg) => Reducer(agg, msgs[|msgs| - 1])
  }

  /** Every message of the window carries all three readings. */
  predicate AllReadingsPresent(msgs: seq<Message>) {
    forall i :: 0 <= i < |msgs| ==> HasAllReadings(msgs[i])
  }

  /** The series of readings under `key`, one per message, in arrival order. */
  function Column(msgs: seq<Message>, key: string): (vs: seq<real>)
    requires forall i :: 0 <= i < |msgs| ==> HasReading(msgs[i], key)
    ensures |vs| == |msgs|
    ensures forall i :: 0 <= i < |msgs| ==> HasReading(msgs[i], key) && vs[i] == msgs[i][CurrentKey][key]
  {
    if msgs == [] then []
    else
      var last := msgs[|msgs| - 1];
      assert HasReading(last, key);
      Column(msgs[..|msgs| - 1], key) + [last[CurrentKey][key]]
  }

  /** The window's aggregate exists exactly when every message carries all three readings. */
  lemma {:induction false} FoldWindowDefined(msgs: seq<Message>)
    requires |msgs| > 0
    ensures FoldWindow(msgs).Some? <==> AllReadingsPresent(msgs)
  {
    var n := |msgs|;
    if n > 1 {
      var init := msgs[..n - 1];
      FoldWindowDefined(init);
      if AllReadingsPresent(msgs) {
        assert AllReadingsPresent(init) by {
          forall i | 0 <= i < n - 1 ensures HasAllReadings(init[i]) {
            assert init[i] == msgs[i];
          }
        }
      } else if AllReadingsPresent(init) {
        assert !HasAllReadings(msgs[n - 1]) by {
          if HasAllReadings(msgs[n - 1]) {
            forall i | 0 <= i < n ensures HasAllReadings(msgs[i]) {
              if i < n - 1 { assert msgs[i] == init[i]; }
            }
          }
        }
      }
    }
  }

  /**
   * When every message carries its readings, each field of the window's
   * aggregate is the fold of that field's own series and of nothing else.
   */
  lemma {:induction false} FoldWindowByColumns(msgs: seq<Message>)
    requires |msgs| > 0
    requires AllReadingsPresent(msgs)
    ensures FoldWindow(msgs) == Some(Aggregate(
      FoldField(Column(msgs, TemperatureKey)),
      FoldField(Column(msgs, WindSpeedKey)),
      FoldField(Column(msgs, HumidityKey))))
  {
    var n := |msgs|;
    if n > 1 {
      var init := msgs[..n - 1];
      assert AllReadingsPresent(init) by {
        forall i | 0 <= i < n - 1 ensures HasAllReadings(init[i]) {
          assert init[i] == msgs[i];
        }
      }
      FoldWindowByColumns(init);
      var last := msgs[n - 1];
      assert HasAllReadings(last);
      assert Column(msgs, TemperatureKey) == Column(init, TemperatureKey) + [last[CurrentKey][TemperatureKey]];
      assert Column(msgs, WindSpeedKey) == Column(init, WindSpeedKey) + [last[CurrentKey][WindSpeedKey]];
      assert Column(msgs, HumidityKey) == Column(init, HumidityKey) + [last[CurrentKey][HumidityKey]];
    }
  }

  /**
   * The OHLC contract of one window: when every message carries its readings,
   * each field of the aggregate summarises that field's series (open first,
   * close last, high the maximum, low the minimum) and keeps the ordering
   * invariant; otherwise no aggregate is produced.
   */
  lemma WindowSummary(msgs: seq<Message>)
    requires |msgs| > 0
    ensures !AllReadingsPresent(msgs) ==> FoldWindow(msgs) == None
    ensures AllReadingsPresent(msgs) ==>
      && FoldWindow(msgs).Some?
      && Summarises(FoldWindow(msgs).value.temperature, Column(msgs, TemperatureKey))
      && Summarises(FoldWindow(msgs).value.windSpeed, Column(msgs, WindSpeedKey))
      && Summarises(FoldWindow(msgs).value.humidity, Column(msgs, HumidityKey))
      && Consistent(FoldWindow(msgs).value.temperature)
      && Consistent(FoldWindow(msgs).value.windSpeed)
      && Consistent(FoldWindow(msgs).value.humidity)
  {
    FoldWindowDefined(msgs);
    if AllReadingsPresent(msgs) {
      FoldWindowByColumns(msgs);
      FoldFieldSummarises(Column(msgs, TemperatureKey));
      FoldFieldSummarises(Column(msgs, WindSpeedKey));
      FoldFieldSummarises(Column(msgs, HumidityKey));
    }
  }
}
