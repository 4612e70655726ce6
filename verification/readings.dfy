/** Parsing cumulative register readings and differencing them into hourly
    consumption, as the batch tools do (egauge_weekly_analysis.py and its copy
    in device_analysis.py): rows are sorted by timestamp and each difference is
    labelled with the LATER reading's date, hour and TOU period. */
module Readings {
  import opened Util
  import opened Config
  import Calendar

  /** One CSV row as the reader hands it over: the "Date & Time" cell read as
      an integer (None when `int()` rejects it), every other cell read as a
      number (None when `float()` rejects it). */
  datatype RawRow = RawRow(stamp: Option<int>, cells: map<string, Option<real>>)

  datatype ParseError = BadTimestamp(row: nat)

  /** A parsed cumulative reading with the labels derived from its timestamp. */
  datatype Reading = Reading(timestamp: int, date: int, hour: int, tou: Period, values: map<string, real>)

  /** The labels of a reading are those of its own timestamp. */
  predicate WellLabelled(r: Reading)
  {
    && r.date == Calendar.DateOf(r.timestamp)
    && r.hour == Calendar.HourOf(r.timestamp)
    && r.tou == TouPeriod(r.hour)
  }

  function TimeKey(r: Reading): real
  {
    r.timestamp as real
  }

  predicate Chronological(data: seq<Reading>)
  {
    SortedBy(data, TimeKey)
  }

  /** A cell that is not a number reads as 0.0. */
  function CellValue(c: Option<real>): real
  {
    match c
    case Some(v) => v
    case None => 0.0
  }

  /** One row of `parse_csv_data`. */
  function ParseRow(r: RawRow): (p: Reading)
    requires r.stamp.Some?
    ensures WellLabelled(p) && p.timestamp == r.stamp.value
    ensures p.values.Keys == r.cells.Keys
    ensures forall k :: k in r.cells && r.cells[k].None? ==> p.values[k] == 0.0
    ensures forall k :: k in r.cells && r.cells[k].Some? ==> p.values[k] == r.cells[k].value
  {
    var t := r.stamp.value;
    Reading(t, Calendar.DateOf(t), Calendar.HourOf(t), TouPeriod(Calendar.HourOf(t)),
            map k | k in r.cells :: CellValue(r.cells[k]))
  }

  predicate AllStamped(rows: seq<RawRow>)
  {
    forall i :: 0 <= i < |rows| ==> rows[i].stamp.Some?
  }

  /** The rows parsed in input order, before sorting. */
  function ParseAll(rows: seq<RawRow>): (ps: seq<Reading>)
    requires AllStamped(rows)
    ensures |ps| == |rows|
    ensures forall i :: 0 <= i < |rows| ==> ps[i] == ParseRow(rows[i])
  {
    seq(|rows|, i requires 0 <= i < |rows| => ParseRow(rows[i]))
  }

  /** `parse_csv_data` on rows already split into cells. The first row whose
      timestamp is not an integer aborts the whole parse; otherwise every row
      is parsed and the list is sorted (stably) oldest first. */
  method ParseCsvData(rows: seq<RawRow>) returns (res: Result<seq<Reading>, ParseError>)
    ensures res.Err? <==> !AllStamped(rows)
    ensures res.Err? ==> var i := res.error.row;
      i < |rows| && rows[i].stamp.None? && forall j :: 0 <= j < i ==> rows[j].stamp.Some?
    ensures res.Ok? ==> AllStamped(rows) && res.value == SortBy(ParseAll(rows), TimeKey)
    ensures res.Ok? ==> Chronological(res.value) && multiset(res.value) == multiset(ParseAll(rows))
    ensures res.Ok? ==> forall i :: 0 <= i < |res.value| ==> WellLabelled(res.value[i])
  {
    var data: seq<Reading> := [];
    var i := 0;
    while i < |rows|
      invariant 0 <= i <= |rows|
      invariant forall j :: 0 <= j < i ==> rows[j].stamp.Some?
      invariant |data| == i
      invariant forall j :: 0 <= j < i ==> data[j] == ParseRow(rows[j])
    {
      if rows[i].stamp.None? {
        return Err(BadTimestamp(i));
      }
      data := data + [ParseRow(rows[i])];
      i := i + 1;
    }
    assert data == ParseAll(rows);
    SortByFacts(data, TimeKey);
    var sorted := SortBy(data, TimeKey);
    forall j | 0 <= j < |sorted| ensures WellLabelled(sorted[j]) {
      assert sorted[j] in multiset(data);
    }
    res := Ok(sorted);
  }

  // -----------------------------------------------------------------------
  // Differencing
  // -----------------------------------------------------------------------

  /** One hour of consumption: a label and the per-register kWh. */
  datatype HourRecord = HourRecord(datetime: int, date: int, hour: int, tou: Period, usage: map<string, real>)

  /** The circuit registers of a reading: energy registers not on the
      exclusion list. */
  function CircuitKeys(r: Reading): set<string>
  {
    set k | k in r.values && IsCircuit(k)
  }

  /** The program reads `prev[key]` for every circuit key of `curr`; a key
      missing from `prev` would raise. Rows of one CSV response share a header,
      so this always holds for them. */
  predicate CanDiff(prev: Reading, curr: Reading)
  {
    CircuitKeys(curr) <= prev.values.Keys
  }

  predicate Differenceable(data: seq<Reading>)
  {
    forall i :: 0 < i < |data| ==> CanDiff(data[i - 1], data[i])
  }

  /** The consumption between two readings: the absolute difference of every
      circuit register (the meter's counters may count down). */
  function Delta(prev: Reading, curr: Reading): (d: map<string, real>)
    requires CanDiff(prev, curr)
    ensures d.Keys == CircuitKeys(curr)
    ensures forall k :: k in d ==>
      d[k] >= 0.0 && (d[k] == curr.values[k] - prev.values[k] || d[k] == prev.values[k] - curr.values[k])
  {
    map k | k in CircuitKeys(curr) :: Abs(curr.values[k] - prev.values[k])
  }

  /** The inner loop over the keys of `curr`. */
  method DiffRegisters(prev: Reading, curr: Reading) returns (usage: map<string, real>)
    requires CanDiff(prev, curr)
    ensures usage == Delta(prev, curr)
  {
    usage := map[];
    var keys := curr.values.Keys;
    while keys != {}
      invariant keys <= curr.values.Keys
      invariant usage == map k | k in CircuitKeys(curr) && k !in keys :: Abs(curr.values[k] - prev.values[k])
      decreases keys
    {
      var k :| k in keys;
      if IsCircuit(k) {
        usage := usage[k := Abs(curr.values[k] - prev.values[k])];
      }
      keys := keys - {k};
    }
  }

  /** The batch tools label the hour with the LATER reading. */
  function LaterLabelled(prev: Reading, curr: Reading): (h: HourRecord)
    requires CanDiff(prev, curr)
    ensures h.datetime == curr.timestamp && h.date == curr.date
    ensures h.hour == curr.hour && h.tou == curr.tou
    ensures h.usage == Delta(prev, curr)
  {
    HourRecord(curr.timestamp, curr.date, curr.hour, curr.tou, Delta(prev, curr))
  }

  /** `calculate_hourly_consumption`: one record per adjacent pair, none for
      fewer than two readings. */
  method CalculateHourlyConsumption(data: seq<Reading>) returns (hourly: seq<HourRecord>)
    requires Differenceable(data)
    ensures |hourly| == if |data| < 2 then 0 else |data| - 1
    ensures forall i :: 0 <= i < |hourly| ==> hourly[i] == LaterLabelled(data[i], data[i + 1])
  {
    hourly := [];
    var i := 1;
    while i < |data|
      invariant 1 <= i <= |data| || (|data| == 0 && i == 1)
      invariant |hourly| == i - 1
      invariant forall j :: 0 <= j < i - 1 ==> hourly[j] == LaterLabelled(data[j], data[j + 1])
    {
      var prev, curr := data[i - 1], data[i];
      var usage := DiffRegisters(prev, curr);
      hourly := hourly + [HourRecord(curr.timestamp, curr.date, curr.hour, curr.tou, usage)];
      i := i + 1;
    }
  }

  /** Every emitted consumption is non-negative and only circuit registers
      (ending in "[kWh]" and not excluded) ever appear. */
  lemma {:induction false} HourlyUsageIsCircuits(data: seq<Reading>, hourly: seq<HourRecord>, i: int, k: string)
    requires Differenceable(data) && |hourly| == |data| - 1
    requires forall j :: 0 <= j < |hourly| ==> hourly[j] == LaterLabelled(data[j], data[j + 1])
    requires 0 <= i < |hourly| && k in hourly[i].usage
    ensures IsKwhKey(k) && k !in ExcludeRegisters && hourly[i].usage[k] >= 0.0
  {
    assert hourly[i].usage == Delta(data[i], data[i + 1]);
  }

  // -----------------------------------------------------------------------
  // One header per response
  // -----------------------------------------------------------------------

  /** All rows of one CSV response have the same columns. */
  predicate SameColumns(rows: seq<RawRow>)
  {
    forall i, j :: 0 <= i < |rows| && 0 <= j < |rows| ==> rows[i].cells.Keys == rows[j].cells.Keys
  }

  /** Parsed and sorted rows of one response can always be differenced. */
  lemma {:induction false} SameColumnsDifferenceable(rows: seq<RawRow>, data: seq<Reading>)
    requires AllStamped(rows) && SameColumns(rows)
    requires multiset(data) == multiset(ParseAll(rows))
    ensures Differenceable(data)
  {
    var ps := ParseAll(rows);
    forall i | 0 < i < |data| ensures CanDiff(data[i - 1], data[i]) {
      assert data[i - 1] in multiset(ps) && data[i] in multiset(ps);
      var a :| 0 <= a < |ps| && ps[a] == data[i - 1];
      var b :| 0 <= b < |ps| && ps[b] == data[i];
      assert data[i - 1].values.Keys == rows[a].cells.Keys == rows[b].cells.Keys == data[i].values.Keys;
    }
  }
}
