/** The device-analysis library (device_analysis.py): its own copy of the
    parse-and-difference pipeline, per-register statistics with hourly
    averages, cost of a day under a TOU distribution, savings scenarios and
    the before/after comparison around a change date. */
module DeviceAnalysis {
  import opened Util
  import opened Config
  import opened Readings
  import opened Aggregates

  // -----------------------------------------------------------------------
  // parse_and_calculate_hourly
  // -----------------------------------------------------------------------

  /** `parse_and_calculate_hourly`: the rows of one CSV response are parsed,
      sorted oldest first and differenced pairwise, each record labelled with
      the later reading. A non-integer timestamp aborts the whole call. */
  method ParseAndCalculateHourly(rows: seq<RawRow>) returns (res: Result<seq<HourRecord>, ParseError>)
    requires SameColumns(rows)
    ensures res.Err? <==> !AllStamped(rows)
    ensures res.Ok? ==>
      var data := SortBy(ParseAll(rows), TimeKey);
      && |data| == |rows| && Differenceable(data)
      && |res.value| == (if |rows| < 2 then 0 else |rows| - 1)
      && forall i :: 0 <= i < |res.value| ==> res.value[i] == LaterLabelled(data[i], data[i + 1])
  {
    var parsed := ParseCsvData(rows);
    if parsed.Err? {
      return Err(parsed.error);
    }
    var data := parsed.value;
    SortByFacts(ParseAll(rows), TimeKey);
    SameColumnsDifferenceable(rows, data);
    var hourly := CalculateHourlyConsumption(data);
    res := Ok(hourly);
  }

  // -----------------------------------------------------------------------
  // Lists of values grouped under an integer key
  // -----------------------------------------------------------------------

  /** `groups[key].append(v)` on a `defaultdict(list)`. */
  function AppendAt(g: map<int, seq<real>>, key: int, v: real): (r: map<int, seq<real>>)
    ensures r.Keys == g.Keys + {key}
    ensures r[key] == (if key in g then g[key] else []) + [v]
    ensures forall k :: k in g && k != key ==> r[k] == g[k]
  {
    g[key := (if key in g then g[key] else []) + [v]]
  }

  /** The total of each group. */
  function Sums(g: map<int, seq<real>>): (r: map<int, real>)
    ensures r.Keys == g.Keys
  {
    map k | k in g :: Sum(g[k])
  }

  /** Appending a value adds exactly that value to the grand total. */
  lemma {:induction false} SumsAppendAt(g: map<int, seq<real>>, key: int, v: real)
    ensures SumValues(Sums(AppendAt(g, key, v))) == SumValues(Sums(g)) + v
  {
    var m := Sums(g);
    if key in g {
      SumAppend(g[key], v);
      SumsAppendAtMap(g, key, v, m[key] + v);
      SumValuesUpdate(m, key, m[key] + v);
    } else {
      assert Sum([] + [v]) == v;
      SumsAppendAtMap(g, key, v, v);
      SumValuesUpdate(m, key, v);
    }
  }

  lemma {:induction false} SumsAppendAtMap(g: map<int, seq<real>>, key: int, v: real, total: real)
    requires total == Sum((if key in g then g[key] else []) + [v])
    ensures Sums(AppendAt(g, key, v)) == Sums(g)[key := total]
  {
    var l, r := Sums(AppendAt(g, key, v)), Sums(g)[key := total];
    assert l.Keys == r.Keys;
    forall k | k in l ensures l[k] == r[k] {
      if k != key {
        assert l[k] == Sum(g[k]);
      }
    }
  }

  predicate NoEmptyGroup(g: map<int, seq<real>>)
  {
    forall k :: k in g ==> |g[k]| > 0
  }

  /** `sum(values) / len(values) if values else 0`. */
  function Mean(s: seq<real>): (r: real)
    ensures |s| > 0 ==> r * (|s| as real) == Sum(s)
    ensures |s| == 0 ==> r == 0.0
  {
    if |s| > 0 then Sum(s) / (|s| as real) else 0.0
  }

  // -----------------------------------------------------------------------
  // get_register_stats
  // -----------------------------------------------------------------------

  /** The statistics of `get_register_stats`: those of `analyze_data` plus the
      kWh values seen at each clock hour and their means. */
  datatype DeviceStats = DeviceStats(
    stats: RegisterStats,
    byHour: map<int, seq<real>>,
    hourlyAverages: map<int, real>)

  /** The kWh values of the register, grouped by the hour label of the record
      that carries them, in record order. */
  function ByHour(hourly: seq<HourRecord>, register: string): map<int, seq<real>>
  {
    if hourly == [] then map[]
    else
      var g := ByHour(hourly[..|hourly| - 1], register);
      var h := hourly[|hourly| - 1];
      if register in h.usage then AppendAt(g, h.hour, h.usage[register]) else g
  }

  lemma {:induction false} ByHourSnoc(hourly: seq<HourRecord>, h: HourRecord, register: string)
    ensures ByHour(hourly + [h], register) ==
      if register in h.usage then AppendAt(ByHour(hourly, register), h.hour, h.usage[register])
      else ByHour(hourly, register)
  {
    assert (hourly + [h])[..|hourly|] == hourly;
  }

  /** Every hour that has a list has at least one value in it, and the
      per-hour lists together hold exactly the register's total kWh. */
  lemma {:induction false} ByHourTotal(hourly: seq<HourRecord>, register: string)
    ensures NoEmptyGroup(ByHour(hourly, register))
    ensures SumValues(Sums(ByHour(hourly, register))) == Accumulate(hourly, register).totalKwh
  {
    if hourly == [] {
      assert SumValues(Sums(map[])) == 0.0;
    } else {
      var init := hourly[..|hourly| - 1];
      var h := hourly[|hourly| - 1];
      ByHourTotal(init, register);
      if register in h.usage {
        SumsAppendAt(ByHour(init, register), h.hour, h.usage[register]);
      }
    }
  }

  /** The finalising step of `get_register_stats`: like `analyze_data`'s, but
      the daily averages are 0 when `days` is not positive. */
  function DeviceFinalize(s: RegisterStats, days: int): (r: RegisterStats)
    ensures r.totalKwh == s.totalKwh && r.totalCost == s.totalCost && r.byDay == s.byDay
    ensures forall p :: r.byTou.Get(p).kwh == s.byTou.Get(p).kwh && r.byTou.Get(p).cost == s.byTou.Get(p).cost
    ensures s.totalKwh > 0.0 ==> forall p :: r.byTou.Get(p).percent * s.totalKwh == s.byTou.Get(p).kwh * 100.0
    ensures s.totalKwh <= 0.0 ==> r.byTou == s.byTou
    ensures days > 0 ==> r.avgDailyKwh * (days as real) == s.totalKwh && r.avgDailyCost * (days as real) == s.totalCost
    ensures days <= 0 ==> r.avgDailyKwh == 0.0 && r.avgDailyCost == 0.0
  {
    if days > 0 then Finalize(s, days)
    else Finalize(s, 1).(avgDailyKwh := 0.0, avgDailyCost := 0.0)
  }

  /** `get_register_stats`: the accumulation loop (only hours carrying the
      register count), the finalising step and the hourly means. */
  method GetRegisterStats(hourly: seq<HourRecord>, register: string, days: int) returns (r: DeviceStats)
    ensures r.stats == DeviceFinalize(Accumulate(hourly, register), days)
    ensures r.byHour == ByHour(hourly, register)
    ensures r.hourlyAverages.Keys == r.byHour.Keys
    ensures forall h :: h in r.hourlyAverages ==> r.hourlyAverages[h] == Mean(r.byHour[h])
  {
    var stats := EmptyStats;
    var byHour: map<int, seq<real>> := map[];
    var i := 0;
    while i < |hourly|
      invariant 0 <= i <= |hourly|
      invariant stats == Accumulate(hourly[..i], register)
      invariant byHour == ByHour(hourly[..i], register)
    {
      var h := hourly[i];
      assert hourly[..i + 1] == hourly[..i] + [h];
      AccumulateSnoc(hourly[..i], h, register);
      ByHourSnoc(hourly[..i], h, register);
      if register in h.usage {
        var kwh := h.usage[register];
        stats := AddUsage(stats, kwh, HourRate(h), h.tou, h.date);
        byHour := AppendAt(byHour, h.hour, kwh);
      }
      i := i + 1;
    }
    assert hourly[..i] == hourly;
    var averages: map<int, real> := map[];
    var keys := byHour.Keys;
    while keys != {}
      invariant keys <= byHour.Keys
      invariant averages.Keys == byHour.Keys - keys
      invariant forall h :: h in averages ==> averages[h] == Mean(byHour[h])
      decreases keys
    {
      NonEmptyHasElement(keys);
      var h :| h in keys;
      averages := averages[h := Mean(byHour[h])];
      keys := keys - {h};
    }
    r := DeviceStats(DeviceFinalize(stats, days), byHour, averages);
  }

  /** Each hourly mean times the number of values at that hour gives that
      hour's total, and the hour totals add up to the register's total kWh. */
  lemma {:induction false} HourlyAveragesAddUp(hourly: seq<HourRecord>, register: string, r: DeviceStats)
    requires r.byHour == ByHour(hourly, register)
    requires r.hourlyAverages.Keys == r.byHour.Keys
    requires forall h :: h in r.hourlyAverages ==> r.hourlyAverages[h] == Mean(r.byHour[h])
    ensures forall h :: h in r.hourlyAverages ==>
      |r.byHour[h]| > 0 && r.hourlyAverages[h] * (|r.byHour[h]| as real) == Sum(r.byHour[h])
    ensures SumValues(Sums(r.byHour)) == Accumulate(hourly, register).totalKwh
  {
    ByHourTotal(hourly, register);
    forall h | h in r.hourlyAverages
      ensures |r.byHour[h]| > 0 && r.hourlyAverages[h] * (|r.byHour[h]| as real) == Sum(r.byHour[h])
    {
      MeanTimesCount(r.byHour[h]);
    }
  }

  lemma {:induction false} MeanTimesCount(values: seq<real>)
    requires |values| > 0
    ensures Mean(values) * (|values| as real) == Sum(values)
  {
  }

  // -----------------------------------------------------------------------
  // calculate_optimal_cost, get_tou_distribution_from_stats
  // -----------------------------------------------------------------------

  /** The cost of a day of `kwh` spread over the periods by `dist` (fractions),
      each period billed at its rate. */
  function DailyCost(kwh: real, dist: PerPeriod<real>, rates: PerPeriod<real>): real
  {
    kwh * dist.peak * rates.peak + kwh * dist.partPeak * rates.partPeak + kwh * dist.offPeak * rates.offPeak
  }

  /** `calculate_optimal_cost`: a loop over the periods of the distribution,
      with the winter table when no rates are given. */
  method CalculateOptimalCost(kwhPerDay: real, dist: PerPeriod<real>, rates: Option<PerPeriod<real>>) returns (cost: real)
    ensures cost == DailyCost(kwhPerDay, dist, if rates.None? then WinterRates else rates.value)
  {
    var table := if rates.None? then WinterRates else rates.value;
    cost := 0.0;
    var i := 0;
    while i < |Periods|
      invariant 0 <= i <= |Periods|
      invariant cost == if i == 0 then 0.0
        else if i == 1 then kwhPerDay * dist.peak * table.peak
        else if i == 2 then kwhPerDay * dist.peak * table.peak + kwhPerDay * dist.partPeak * table.partPeak
        else DailyCost(kwhPerDay, dist, table)
    {
      var p := Periods[i];
      var kwh := kwhPerDay * dist.Get(p);
      cost := cost + kwh * table.Get(p);
      i := i + 1;
    }
  }

  predicate IsDistribution(dist: PerPeriod<real>)
  {
    dist.peak >= 0.0 && dist.partPeak >= 0.0 && dist.offPeak >= 0.0 && Total(dist) == 1.0
  }

  /** With a proper distribution and an ordered table, a day of `kwh` costs
      between the off-peak and the peak price of that energy. */
  lemma {:induction false} DailyCostBounds(kwh: real, dist: PerPeriod<real>, rates: PerPeriod<real>)
    requires IsDistribution(dist) && WellOrderedTable(rates) && kwh >= 0.0
    ensures kwh * rates.offPeak <= DailyCost(kwh, dist, rates) <= kwh * rates.peak
  {
    var w := dist.peak * rates.peak + dist.partPeak * rates.partPeak + dist.offPeak * rates.offPeak;
    assert DailyCost(kwh, dist, rates) == kwh * w;
    WeightedBetween(dist.peak, dist.partPeak, dist.offPeak, rates.peak, rates.partPeak, rates.offPeak);
    MulMonotone(kwh, rates.offPeak, w);
    MulMonotone(kwh, w, rates.peak);
  }

  /** A weighted mean lies between the smallest and the largest value. */
  lemma {:induction false} WeightedBetween(d1: real, d2: real, d3: real, r1: real, r2: real, r3: real)
    requires d1 >= 0.0 && d2 >= 0.0 && d3 >= 0.0 && d1 + d2 + d3 == 1.0
    requires r3 <= r2 <= r1
    ensures r3 <= d1 * r1 + d2 * r2 + d3 * r3 <= r1
  {
    WeightedAbove(d1, d2, d3, r1, r2, r3);
    WeightedBelow(d1, d2, d3, r1, r2, r3);
  }

  lemma {:induction false} WeightedAbove(d1: real, d2: real, d3: real, r1: real, r2: real, r3: real)
    requires d1 >= 0.0 && d2 >= 0.0 && d1 + d2 + d3 == 1.0
    requires r3 <= r2 <= r1
    ensures r3 <= d1 * r1 + d2 * r2 + d3 * r3
  {
    var x, y := d1 * (r1 - r3), d2 * (r2 - r3);
    MulNonNeg(d1, r1 - r3);
    MulNonNeg(d2, r2 - r3);
    assert d1 * r1 + d2 * r2 + d3 * r3 == r3 + x + y;
  }

  lemma {:induction false} WeightedBelow(d1: real, d2: real, d3: real, r1: real, r2: real, r3: real)
    requires d2 >= 0.0 && d3 >= 0.0 && d1 + d2 + d3 == 1.0
    requires r3 <= r2 <= r1
    ensures d1 * r1 + d2 * r2 + d3 * r3 <= r1
  {
    var x, y := d2 * (r1 - r2), d3 * (r1 - r3);
    MulNonNeg(d2, r1 - r2);
    MulNonNeg(d3, r1 - r3);
    assert d1 * r1 + d2 * r2 + d3 * r3 == r1 - x - y;
  }

  lemma {:induction false} MulNonNeg(a: real, b: real)
    requires a >= 0.0 && b >= 0.0
    ensures a * b >= 0.0
  {
  }

  lemma {:induction false} MulMonotone(a: real, x: real, y: real)
    requires a >= 0.0 && x <= y
    ensures a * x <= a * y
  {
    assert a * y - a * x == a * (y - x);
  }

  /** The cost is linear in the energy: more kWh under the same distribution
      never costs less when the blended rate is non-negative. */
  lemma {:induction false} DailyCostMonotone(a: real, b: real, dist: PerPeriod<real>, rates: PerPeriod<real>)
    requires IsDistribution(dist) && WellOrderedTable(rates) && a <= b
    ensures DailyCost(a, dist, rates) <= DailyCost(b, dist, rates)
    ensures DailyCost(b, dist, rates) - DailyCost(a, dist, rates) == DailyCost(b - a, dist, rates)
  {
    DailyCostBounds(b - a, dist, rates);
  }

  /** `get_tou_distribution_from_stats`: the share of each period in the total,
      or the fixed 0.333/0.333/0.334 split when the total is 0. */
  function GetTouDistribution(s: RegisterStats): (d: PerPeriod<real>)
    ensures s.totalKwh == 0.0 ==> d == PerPeriod(0.333, 0.333, 0.334)
    ensures s.totalKwh != 0.0 ==> forall p :: d.Get(p) * s.totalKwh == s.byTou.Get(p).kwh
  {
    var total := s.totalKwh;
    if total == 0.0 then PerPeriod(0.333, 0.333, 0.334)
    else PerPeriod(s.byTou.peak.kwh / total, s.byTou.partPeak.kwh / total, s.byTou.offPeak.kwh / total)
  }

  /** For any accumulated register the distribution adds up to 1, and with
      non-negative usage it is a proper distribution. */
  lemma {:induction false} DistributionSumsToOne(hourly: seq<HourRecord>, register: string)
    ensures Total(GetTouDistribution(Accumulate(hourly, register))) == 1.0
    ensures (forall i :: 0 <= i < |hourly| && register in hourly[i].usage ==> hourly[i].usage[register] >= 0.0) ==>
      IsDistribution(GetTouDistribution(Accumulate(hourly, register)))
  {
    var s := Accumulate(hourly, register);
    AccumulateConsistent(hourly, register);
    if s.totalKwh != 0.0 {
      var nonNeg := forall i :: 0 <= i < |hourly| && register in hourly[i].usage ==> hourly[i].usage[register] >= 0.0;
      if nonNeg {
        AccumulateNonNegative(hourly, register);
      }
      Fractions(s.byTou.peak.kwh, s.byTou.partPeak.kwh, s.byTou.offPeak.kwh, s.totalKwh);
    }
  }

  lemma {:induction false} Fractions(a: real, b: real, c: real, t: real)
    requires t != 0.0 && t == a + b + c
    ensures a / t + b / t + c / t == 1.0
    ensures a >= 0.0 && b >= 0.0 && c >= 0.0 ==> a / t >= 0.0 && b / t >= 0.0 && c / t >= 0.0
  {
    assert a / t + b / t + c / t == (a + b + c) / t;
  }

  lemma {:induction false} AccumulateNonNegative(hourly: seq<HourRecord>, register: string)
    requires forall i :: 0 <= i < |hourly| && register in hourly[i].usage ==> hourly[i].usage[register] >= 0.0
    ensures var s := Accumulate(hourly, register);
      s.byTou.peak.kwh >= 0.0 && s.byTou.partPeak.kwh >= 0.0 && s.byTou.offPeak.kwh >= 0.0
  {
    if hourly != [] {
      AccumulateNonNegative(hourly[..|hourly| - 1], register);
    }
  }

  // -----------------------------------------------------------------------
  // calculate_savings_scenarios
  // -----------------------------------------------------------------------

  /** The three named targets: the low end, the midpoint and the high end of
      the optimal range. */
  datatype Level = Low | Mid | High

  datatype Scenario = Scenario(
    level: Level,
    targetKwh: real,
    targetCostPerDay: real,
    excessKwhPerDay: real,
    savingsPerDay: real,
    savingsPerWeek: real,
    savingsPerMonth: real,
    savingsPerYear: real)

  /** One scenario, its target priced with the winter table. */
  function MakeScenario(level: Level, target: real, currentKwh: real, currentCost: real, dist: PerPeriod<real>): (s: Scenario)
    ensures s.level == level && s.targetKwh == target
    ensures s.targetCostPerDay == DailyCost(target, dist, WinterRates)
    ensures s.savingsPerDay + s.targetCostPerDay == currentCost
    ensures s.excessKwhPerDay + s.targetKwh == currentKwh
    ensures s.savingsPerWeek == 7.0 * s.savingsPerDay && s.savingsPerMonth == 30.0 * s.savingsPerDay
    ensures s.savingsPerYear == 365.0 * s.savingsPerDay
  {
    var cost := DailyCost(target, dist, WinterRates);
    var savings := currentCost - cost;
    Scenario(level, target, cost, currentKwh - target, savings, savings * 7.0, savings * 30.0, savings * 365.0)
  }

  /** `calculate_savings_scenarios`: exactly three scenarios, low, midpoint and
      high, in that order. */
  method CalculateSavingsScenarios(currentKwh: real, currentCost: real, low: real, high: real, dist: PerPeriod<real>)
    returns (scenarios: seq<Scenario>)
    ensures |scenarios| == 3
    ensures scenarios[0] == MakeScenario(Low, low, currentKwh, currentCost, dist)
    ensures scenarios[1] == MakeScenario(Mid, (low + high) / 2.0, currentKwh, currentCost, dist)
    ensures scenarios[2] == MakeScenario(High, high, currentKwh, currentCost, dist)
  {
    var mid := (low + high) / 2.0;
    var targets := [(Low, low), (Mid, mid), (High, high)];
    scenarios := [];
    var i := 0;
    while i < |targets|
      invariant 0 <= i <= |targets|
      invariant |scenarios| == i
      invariant forall j :: 0 <= j < i ==>
        scenarios[j] == MakeScenario(targets[j].0, targets[j].1, currentKwh, currentCost, dist)
    {
      var cost := CalculateOptimalCost(targets[i].1, dist, None);
      var savings := currentCost - cost;
      scenarios := scenarios + [Scenario(targets[i].0, targets[i].1, cost, currentKwh - targets[i].1,
                                         savings, savings * 7.0, savings * 30.0, savings * 365.0)];
      i := i + 1;
    }
  }

  /** A lower target saves more: with a proper distribution and low <= high,
      the savings of the low, mid and high scenarios are in decreasing order. */
  lemma {:induction false} ScenarioSavingsOrdered(currentKwh: real, currentCost: real, low: real, high: real, dist: PerPeriod<real>)
    requires IsDistribution(dist) && low <= high
    ensures var l := MakeScenario(Low, low, currentKwh, currentCost, dist);
      var m := MakeScenario(Mid, (low + high) / 2.0, currentKwh, currentCost, dist);
      var h := MakeScenario(High, high, currentKwh, currentCost, dist);
      l.savingsPerDay >= m.savingsPerDay >= h.savingsPerDay
  {
    RateTablesOrdered();
    DailyCostMonotone(low, (low + high) / 2.0, dist, WinterRates);
    DailyCostMonotone((low + high) / 2.0, high, dist, WinterRates);
  }

  // -----------------------------------------------------------------------
  // analyze_before_after
  // -----------------------------------------------------------------------

  /** `hours_filter`: an optional (start, end) pair of clock hours. */
  type HourFilter = Option<(int, int)>

  /** Whether an hour passes the filter; a start after the end wraps around
      midnight (22, 6 keeps 22:00 through 05:59). */
  predicate InHourFilter(hour: int, filter: HourFilter)
  {
    match filter
    case None => true
    case Some((start, end)) =>
      if start > end then hour >= start || hour < end
      else start <= hour < end
  }

  /** A wrap-around filter keeps exactly the hours the plain filter with the
      bounds swapped drops; a plain filter keeps exactly [start, end). */
  lemma {:induction false} WrapAroundIsComplement(hour: int, start: int, end: int)
    ensures start > end ==> (InHourFilter(hour, Some((start, end))) <==> !InHourFilter(hour, Some((end, start))))
    ensures start <= end ==> (InHourFilter(hour, Some((start, end))) <==> start <= hour < end)
  {
  }

  /** The entries that take part: those carrying the register, in the hours
      the filter keeps. */
  predicate Selected(h: HourRecord, register: string, filter: HourFilter)
  {
    register in h.usage && InHourFilter(h.hour, filter)
  }

  /** The per-date lists of one side: `before` (datetime < change) or after. */
  function Groups(hourly: seq<HourRecord>, register: string, change: int, filter: HourFilter, before: bool): map<int, seq<real>>
  {
    if hourly == [] then map[]
    else
      var g := Groups(hourly[..|hourly| - 1], register, change, filter, before);
      var h := hourly[|hourly| - 1];
      if Selected(h, register, filter) && (h.datetime < change) == before then AppendAt(g, h.date, h.usage[register]) else g
  }

  lemma {:induction false} GroupsSnoc(hourly: seq<HourRecord>, h: HourRecord, register: string, change: int, filter: HourFilter, before: bool)
    ensures Groups(hourly + [h], register, change, filter, before) ==
      var g := Groups(hourly, register, change, filter, before);
      if Selected(h, register, filter) && (h.datetime < change) == before then AppendAt(g, h.date, h.usage[register]) else g
  {
    assert (hourly + [h])[..|hourly|] == hourly;
  }

  /** The usage of the selected entries on one side. */
  function SideTotal(hourly: seq<HourRecord>, register: string, change: int, filter: HourFilter, before: bool): real
  {
    if hourly == [] then 0.0
    else
      var h := hourly[|hourly| - 1];
      SideTotal(hourly[..|hourly| - 1], register, change, filter, before)
        + if Selected(h, register, filter) && (h.datetime < change) == before then h.usage[register] else 0.0
  }

  /** The usage of all selected entries. */
  function SelectedTotal(hourly: seq<HourRecord>, register: string, filter: HourFilter): real
  {
    if hourly == [] then 0.0
    else
      var h := hourly[|hourly| - 1];
      SelectedTotal(hourly[..|hourly| - 1], register, filter) + if Selected(h, register, filter) then h.usage[register] else 0.0
  }

  /** Each side's daily totals add up to that side's selected usage, and the
      two sides together account for every selected entry exactly once. */
  lemma {:induction false} BeforeAfterConservation(hourly: seq<HourRecord>, register: string, change: int, filter: HourFilter)
    ensures SumValues(Sums(Groups(hourly, register, change, filter, true))) == SideTotal(hourly, register, change, filter, true)
    ensures SumValues(Sums(Groups(hourly, register, change, filter, false))) == SideTotal(hourly, register, change, filter, false)
    ensures SideTotal(hourly, register, change, filter, true) + SideTotal(hourly, register, change, filter, false)
      == SelectedTotal(hourly, register, filter)
  {
    SideConservation(hourly, register, change, filter, true);
    SideConservation(hourly, register, change, filter, false);
    SidesPartition(hourly, register, change, filter);
  }

  /** One side's daily totals add up to its selected usage. */
  lemma {:induction false} SideConservation(hourly: seq<HourRecord>, register: string, change: int, filter: HourFilter, before: bool)
    ensures SumValues(Sums(Groups(hourly, register, change, filter, before))) == SideTotal(hourly, register, change, filter, before)
  {
    if hourly == [] {
      assert Sums(map[]) == map[];
    } else {
      var init := hourly[..|hourly| - 1];
      SideConservation(init, register, change, filter, before);
      SideStep(init, hourly[|hourly| - 1], register, change, filter, before);
      assert init + [hourly[|hourly| - 1]] == hourly;
    }
  }

  lemma {:induction false} SideStep(hourly: seq<HourRecord>, h: HourRecord, register: string, change: int, filter: HourFilter, before: bool)
    requires SumValues(Sums(Groups(hourly, register, change, filter, before))) == SideTotal(hourly, register, change, filter, before)
    ensures SumValues(Sums(Groups(hourly + [h], register, change, filter, before))) == SideTotal(hourly + [h], register, change, filter, before)
  {
    GroupsSnoc(hourly, h, register, change, filter, before);
    assert (hourly + [h])[..|hourly|] == hourly;
    if Selected(h, register, filter) && (h.datetime < change) == before {
      SumsAppendAt(Groups(hourly, register, change, filter, before), h.date, h.usage[register]);
    }
  }

  /** Every selected entry falls on exactly one side. */
  lemma {:induction false} SidesPartition(hourly: seq<HourRecord>, register: string, change: int, filter: HourFilter)
    ensures SideTotal(hourly, register, change, filter, true) + SideTotal(hourly, register, change, filter, false)
      == SelectedTotal(hourly, register, filter)
  {
    if hourly != [] {
      SidesPartition(hourly[..|hourly| - 1], register, change, filter);
    }
  }

  /** One side of the comparison. */
  datatype SideSummary = SideSummary(dailyTotals: map<int, real>, average: real, daysCount: nat)

  /** The summary of one side's groups: per-date sums, their mean (0 with no
      dates) and the number of dates. */
  ghost function Summary(g: map<int, seq<real>>): (s: SideSummary)
    ensures s.dailyTotals == Sums(g) && s.daysCount == |g|
    ensures |g| > 0 ==> s.average * (|g| as real) == SumValues(Sums(g))
    ensures |g| == 0 ==> s.average == 0.0
  {
    var total := SumValues(Sums(g));
    var n := |g| as real;
    SideSummary(Sums(g), if |g| > 0 then DivMul(total, n); total / n else 0.0, |g|)
  }

  lemma {:induction false} DivMul(x: real, n: real)
    requires n != 0.0
    ensures x / n * n == x
  {
  }

  function Restrict(m: map<int, real>, keys: set<int>): map<int, real>
    requires keys <= m.Keys
  {
    map k | k in keys :: m[k]
  }

  /** Sums the daily totals of one side, then averages them. */
  method Summarize(g: map<int, seq<real>>) returns (s: SideSummary)
    ensures s == Summary(g)
  {
    var totals := map k | k in g :: Sum(g[k]);
    var sum := 0.0;
    var keys := totals.Keys;
    assert Restrict(totals, keys) == totals;
    while keys != {}
      invariant keys <= totals.Keys
      invariant sum + SumValues(Restrict(totals, keys)) == SumValues(totals)
      decreases keys
    {
      NonEmptyHasElement(keys);
      var k :| k in keys;
      RestrictStep(totals, keys, k);
      sum := sum + totals[k];
      keys := keys - {k};
    }
    assert Restrict(totals, keys) == map[];
    var count := |totals|;
    s := SideSummary(totals, if count > 0 then sum / (count as real) else 0.0, count);
    SummaryOf(g, totals, sum);
  }

  lemma {:induction false} RestrictStep(m: map<int, real>, keys: set<int>, k: int)
    requires keys <= m.Keys && k in keys
    ensures SumValues(Restrict(m, keys)) == m[k] + SumValues(Restrict(m, keys - {k}))
  {
    SumValuesRemove(Restrict(m, keys), k);
    assert Restrict(m, keys) - {k} == Restrict(m, keys - {k});
  }

  lemma {:induction false} SummaryOf(g: map<int, seq<real>>, totals: map<int, real>, sum: real)
    requires totals == Sums(g) && sum == SumValues(totals)
    ensures SideSummary(totals, if |totals| > 0 then sum / (|totals| as real) else 0.0, |totals|) == Summary(g)
  {
  }

  /** `(diff / avg_before * 100) if avg_before > 0 else 0`. */
  function PercentChange(diff: real, base: real): (r: real)
    ensures base > 0.0 ==> r * base == diff * 100.0
    ensures base <= 0.0 ==> r == 0.0
  {
    if base > 0.0 then DivMul(diff * 100.0, base); diff / base * 100.0 else 0.0
  }

  datatype BeforeAfter = BeforeAfter(before: SideSummary, after: SideSummary, difference: real, percentChange: real)

  /** `analyze_before_after`: entries carrying the register and passing the
      hour filter are grouped by date, before the change date or from it on;
      the averages of the daily sums are compared. */
  method AnalyzeBeforeAfter(hourly: seq<HourRecord>, register: string, change: int, filter: HourFilter)
    returns (r: BeforeAfter)
    ensures r.before == Summary(Groups(hourly, register, change, filter, true))
    ensures r.after == Summary(Groups(hourly, register, change, filter, false))
    ensures r.difference == r.after.average - r.before.average
    ensures r.percentChange == PercentChange(r.difference, r.before.average)
  {
    var before: map<int, seq<real>> := map[];
    var after: map<int, seq<real>> := map[];
    var i := 0;
    while i < |hourly|
      invariant 0 <= i <= |hourly|
      invariant before == Groups(hourly[..i], register, change, filter, true)
      invariant after == Groups(hourly[..i], register, change, filter, false)
    {
      var h := hourly[i];
      assert hourly[..i + 1] == hourly[..i] + [h];
      GroupsSnoc(hourly[..i], h, register, change, filter, true);
      GroupsSnoc(hourly[..i], h, register, change, filter, false);
      if register in h.usage && InHourFilter(h.hour, filter) {
        var usage := h.usage[register];
        if h.datetime < change {
          before := AppendAt(before, h.date, usage);
        } else {
          after := AppendAt(after, h.date, usage);
        }
      }
      i := i + 1;
    }
    assert hourly[..i] == hourly;
    var b := Summarize(before);
    var a := Summarize(after);
    var diff := a.average - b.average;
    r := BeforeAfter(b, a, diff, PercentChange(diff, b.average));
  }
}
