/** The aggregators of egauge_weekly_analysis.py: per-register totals with a
    TOU breakdown (`analyze_data`) and per-date totals (`calculate_daily_totals`).
    Each is a loop over the hourly records that updates default-valued
    accumulators in place, followed by a finalising loop; each is specified by
    a fold over the records that the loop is proved to compute. */
module Aggregates {
  import opened Util
  import opened Config
  import Calendar
  import opened Readings

  /** The `{'kwh', 'cost', 'percent'}` entry of one TOU period. */
  datatype TouStats = TouStats(kwh: real, cost: real, percent: real)

  const ZeroTou := TouStats(0.0, 0.0, 0.0)

  /** One register's statistics. Until finalised the percents and averages
      hold their initial 0. */
  datatype RegisterStats = RegisterStats(
    totalKwh: real,
    totalCost: real,
    byTou: PerPeriod<TouStats>,
    byDay: map<int, real>,
    avgDailyKwh: real,
    avgDailyCost: real)

  const EmptyStats := RegisterStats(0.0, 0.0, PerPeriod(ZeroTou, ZeroTou, ZeroTou), map[], 0.0, 0.0)

  /** The rate an hour is billed at: `get_rate(hour['datetime'], hour['tou_period'])`. */
  function HourRate(h: HourRecord): real
  {
    Rate(Calendar.DateOf(h.datetime), h.tou)
  }

  /** Adds `kwh` at `rate` to the accumulator, under TOU period `p` and date `date`. */
  function AddUsage(s: RegisterStats, kwh: real, rate: real, p: Period, date: int): RegisterStats
  {
    var t := s.byTou.Get(p);
    s.(totalKwh := s.totalKwh + kwh,
       totalCost := s.totalCost + kwh * rate,
       byTou := s.byTou.Set(p, t.(kwh := t.kwh + kwh, cost := t.cost + kwh * rate)),
       byDay := s.byDay[date := (if date in s.byDay then s.byDay[date] else 0.0) + kwh])
  }

  /** One hour's contribution to register `key`: nothing unless the hour
      carries that register. */
  function AddHour(s: RegisterStats, h: HourRecord, key: string): RegisterStats
  {
    if key in h.usage then AddUsage(s, h.usage[key], HourRate(h), h.tou, h.date) else s
  }

  /** The accumulated (not yet finalised) statistics of register `key`. */
  function Accumulate(hourly: seq<HourRecord>, key: string): RegisterStats
  {
    if hourly == [] then EmptyStats
    else AddHour(Accumulate(hourly[..|hourly| - 1], key), hourly[|hourly| - 1], key)
  }

  lemma {:induction false} AccumulateSnoc(hourly: seq<HourRecord>, h: HourRecord, key: string)
    ensures Accumulate(hourly + [h], key) == AddHour(Accumulate(hourly, key), h, key)
  {
    assert (hourly + [h])[..|hourly|] == hourly;
  }

  /** The invariant the accumulators keep: total kWh and cost are the sums of
      the TOU breakdown, kWh by day sums to the total, percents stay 0. */
  ghost predicate Consistent(s: RegisterStats)
  {
    && s.totalKwh == s.byTou.peak.kwh + s.byTou.partPeak.kwh + s.byTou.offPeak.kwh
    && s.totalCost == s.byTou.peak.cost + s.byTou.partPeak.cost + s.byTou.offPeak.cost
    && s.totalKwh == SumValues(s.byDay)
    && s.byTou.peak.percent == 0.0 && s.byTou.partPeak.percent == 0.0 && s.byTou.offPeak.percent == 0.0
  }

  lemma {:induction false} AddUsageConsistent(s: RegisterStats, kwh: real, rate: real, p: Period, date: int)
    requires Consistent(s)
    ensures Consistent(AddUsage(s, kwh, rate, p, date))
  {
    SumValuesUpdate(s.byDay, date, (if date in s.byDay then s.byDay[date] else 0.0) + kwh);
  }

  /** Every register's total kWh (and cost) is the sum over its TOU periods,
      and its kWh by day add up to the same total. */
  lemma {:induction false} AccumulateConsistent(hourly: seq<HourRecord>, key: string)
    ensures Consistent(Accumulate(hourly, key))
  {
    if hourly != [] {
      var init := hourly[..|hourly| - 1];
      var h := hourly[|hourly| - 1];
      AccumulateConsistent(init, key);
      if key in h.usage {
        AddUsageConsistent(Accumulate(init, key), h.usage[key], HourRate(h), h.tou, h.date);
      }
    } else {
      assert SumValues(EmptyStats.byDay) == 0.0;
    }
  }

  /** Each hour that carries the register adds kWh x the hour's rate to the
      cost, so with non-negative usage the cost lies between the cheapest and
      the dearest rate of the year times the kWh. */
  lemma {:induction false} AccumulateCostBounds(hourly: seq<HourRecord>, key: string)
    requires forall i :: 0 <= i < |hourly| && key in hourly[i].usage ==> hourly[i].usage[key] >= 0.0
    ensures var s := Accumulate(hourly, key);
      0.29780 * s.totalKwh <= s.totalCost <= 0.64639 * s.totalKwh
  {
    if hourly != [] {
      var init := hourly[..|hourly| - 1];
      AccumulateCostBounds(init, key);
      CostBoundsStep(Accumulate(init, key), hourly[|hourly| - 1], key);
    }
  }

  lemma {:induction false} CostBoundsStep(s: RegisterStats, h: HourRecord, key: string)
    requires 0.29780 * s.totalKwh <= s.totalCost <= 0.64639 * s.totalKwh
    requires key in h.usage ==> h.usage[key] >= 0.0
    ensures var s' := AddHour(s, h, key);
      0.29780 * s'.totalKwh <= s'.totalCost <= 0.64639 * s'.totalKwh
  {
    if key in h.usage {
      RateRange(Calendar.DateOf(h.datetime), h.tou);
      BoundsAdd(s.totalKwh, s.totalCost, h.usage[key], HourRate(h), 0.29780, 0.64639);
    }
  }

  lemma {:induction false} BoundsAdd(kwh: real, cost: real, x: real, r: real, lo: real, hi: real)
    requires lo * kwh <= cost <= hi * kwh
    requires x >= 0.0 && lo <= r <= hi
    ensures lo * (kwh + x) <= cost + x * r <= hi * (kwh + x)
  {
    assert x * r - lo * x == x * (r - lo);
    assert hi * x - x * r == x * (hi - r);
  }

  /** The finalising step of `analyze_data` for one register: percents only
      when the total is positive, averages over `days` (AnalyzeData reports
      a day count of 0 as an error before reaching it). */
  function Finalize(s: RegisterStats, days: int): (r: RegisterStats)
    requires days != 0
    ensures r.totalKwh == s.totalKwh && r.totalCost == s.totalCost && r.byDay == s.byDay
    ensures r.avgDailyKwh * (days as real) == s.totalKwh && r.avgDailyCost * (days as real) == s.totalCost
    ensures forall p :: r.byTou.Get(p).kwh == s.byTou.Get(p).kwh && r.byTou.Get(p).cost == s.byTou.Get(p).cost
    ensures s.totalKwh > 0.0 ==> forall p :: r.byTou.Get(p).percent * s.totalKwh == s.byTou.Get(p).kwh * 100.0
    ensures s.totalKwh <= 0.0 ==> r.byTou == s.byTou
  {
    var total := s.totalKwh;
    var byTou :=
      if total > 0.0 then
        PerPeriod(s.byTou.peak.(percent := s.byTou.peak.kwh / total * 100.0),
                  s.byTou.partPeak.(percent := s.byTou.partPeak.kwh / total * 100.0),
                  s.byTou.offPeak.(percent := s.byTou.offPeak.kwh / total * 100.0))
      else s.byTou;
    s.(byTou := byTou, avgDailyKwh := total / days as real, avgDailyCost := s.totalCost / days as real)
  }

  function PercentSum(s: RegisterStats): real
  {
    s.byTou.peak.percent + s.byTou.partPeak.percent + s.byTou.offPeak.percent
  }

  /** The finalised percents of any register add up to 100 when its total is
      positive and are all 0 otherwise. */
  lemma {:induction false} FinalPercents(hourly: seq<HourRecord>, key: string, days: int)
    requires days != 0
    ensures var s := Accumulate(hourly, key);
      var r := Finalize(s, days);
      && (s.totalKwh > 0.0 ==> PercentSum(r) == 100.0)
      && (s.totalKwh <= 0.0 ==> r.byTou.peak.percent == r.byTou.partPeak.percent == r.byTou.offPeak.percent == 0.0)
  {
    var s := Accumulate(hourly, key);
    AccumulateConsistent(hourly, key);
    if s.totalKwh > 0.0 {
      PercentArith(s.byTou.peak.kwh, s.byTou.partPeak.kwh, s.byTou.offPeak.kwh, s.totalKwh);
    }
  }

  lemma {:induction false} PercentArith(a: real, b: real, c: real, t: real)
    requires t > 0.0 && t == a + b + c
    ensures a / t * 100.0 + b / t * 100.0 + c / t * 100.0 == 100.0
  {
    assert a / t + b / t + c / t == (a + b + c) / t;
  }

  /** The energy registers seen in any of the hours. */
  function KwhKeysOf(hourly: seq<HourRecord>): set<string>
  {
    if hourly == [] then {}
    else KwhKeysOf(hourly[..|hourly| - 1]) + set k | k in hourly[|hourly| - 1].usage && IsKwhKey(k)
  }

  lemma {:induction false} KwhKeysOfSnoc(hourly: seq<HourRecord>, h: HourRecord)
    ensures KwhKeysOf(hourly + [h]) == KwhKeysOf(hourly) + set k | k in h.usage && IsKwhKey(k)
  {
    assert (hourly + [h])[..|hourly|] == hourly;
  }

  lemma {:induction false} KwhKeysOfAreKwh(hourly: seq<HourRecord>)
    ensures forall k :: k in KwhKeysOf(hourly) ==> IsKwhKey(k)
  {
    if hourly != [] {
      KwhKeysOfAreKwh(hourly[..|hourly| - 1]);
    }
  }

  /** A register no hour carries has the initial, empty statistics. */
  lemma {:induction false} AccumulateUnseen(hourly: seq<HourRecord>, key: string)
    requires IsKwhKey(key) && key !in KwhKeysOf(hourly)
    ensures Accumulate(hourly, key) == EmptyStats
  {
    if hourly != [] {
      AccumulateUnseen(hourly[..|hourly| - 1], key);
    }
  }

  ghost predicate StatsMatch(stats: map<string, RegisterStats>, hourly: seq<HourRecord>)
  {
    && stats.Keys == KwhKeysOf(hourly)
    && forall k :: k in stats ==> stats[k] == Accumulate(hourly, k)
  }

  /** The body of the accumulation loop for one hour: every energy register of
      the hour gets its bucket (created on first use) updated. */
  method AccumulateHour(stats: map<string, RegisterStats>, ghost prior: seq<HourRecord>, h: HourRecord)
    returns (stats': map<string, RegisterStats>)
    requires StatsMatch(stats, prior)
    ensures StatsMatch(stats', prior + [h])
  {
    KwhKeysOfAreKwh(prior);
    stats' := stats;
    var rate := HourRate(h);
    var keys := h.usage.Keys;
    while keys != {}
      invariant keys <= h.usage.Keys
      invariant forall k :: k in stats' ==> IsKwhKey(k)
      invariant forall k :: k in stats' <==> k in KwhKeysOf(prior) || (k in h.usage && k !in keys && IsKwhKey(k))
      invariant forall k :: k in stats' ==>
        stats'[k] == if k in keys then Accumulate(prior, k) else AddHour(Accumulate(prior, k), h, k)
      decreases keys
    {
      var k :| k in keys;
      if IsKwhKey(k) {
        if k !in stats' {
          AccumulateUnseen(prior, k);
        }
        var s := if k in stats' then stats'[k] else EmptyStats;
        assert s == Accumulate(prior, k);
        assert AddHour(s, h, k) == AddUsage(s, h.usage[k], rate, h.tou, h.date);
        stats' := stats'[k := AddUsage(s, h.usage[k], rate, h.tou, h.date)];
      }
      keys := keys - {k};
    }
    KwhKeysOfSnoc(prior, h);
    forall k | k in stats' ensures stats'[k] == Accumulate(prior + [h], k) {
      AccumulateSnoc(prior, h, k);
    }
  }

  /** The `ZeroDivisionError` of `total / days` for a day count of 0. */
  datatype AnalyzeError = ZeroDays

  /** `analyze_data`: one entry per energy register seen, each the finalised
      accumulation of that register over all hours. A day count of 0 fails
      at the first register finalised, so only when some hour carries an
      energy register; with none the result is empty. */
  method AnalyzeData(hourly: seq<HourRecord>, days: int) returns (res: Result<map<string, RegisterStats>, AnalyzeError>)
    ensures res.Err? <==> days == 0 && KwhKeysOf(hourly) != {}
    ensures res.Ok? ==> res.value.Keys == KwhKeysOf(hourly)
    ensures res.Ok? ==> forall k :: k in res.value ==> days != 0 && res.value[k] == Finalize(Accumulate(hourly, k), days)
  {
    var stats := map[];
    var i := 0;
    while i < |hourly|
      invariant 0 <= i <= |hourly|
      invariant StatsMatch(stats, hourly[..i])
    {
      assert hourly[..i + 1] == hourly[..i] + [hourly[i]];
      stats := AccumulateHour(stats, hourly[..i], hourly[i]);
      i := i + 1;
    }
    assert hourly[..i] == hourly;
    if days == 0 {
      if stats != map[] {
        return Err(ZeroDays);
      }
      return Ok(stats);
    }
    var accumulated := stats;
    var keys := accumulated.Keys;
    while keys != {}
      invariant keys <= accumulated.Keys && stats.Keys == accumulated.Keys
      invariant forall k :: k in stats ==>
        stats[k] == if k in keys then accumulated[k] else Finalize(accumulated[k], days)
      decreases keys
    {
      var k :| k in keys;
      stats := stats[k := Finalize(stats[k], days)];
      keys := keys - {k};
    }
    return Ok(stats);
  }

  // -----------------------------------------------------------------------
  // calculate_daily_totals
  // -----------------------------------------------------------------------

  datatype TouTotals = TouTotals(kwh: real, cost: real)

  const ZeroTotals := TouTotals(0.0, 0.0)

  /** One date's totals: the flat `peak_kwh`, `peak_cost`, ... fields are the
      per-period entries here. */
  datatype DailyTotal = DailyTotal(
    date: int,
    totalKwh: real,
    totalCost: real,
    byTou: PerPeriod<TouTotals>,
    registerTotals: map<string, real>)

  function EmptyDay(date: int): DailyTotal
  {
    DailyTotal(date, 0.0, 0.0, PerPeriod(ZeroTotals, ZeroTotals, ZeroTotals), map[])
  }

  function AddToDay(d: DailyTotal, key: string, kwh: real, rate: real, p: Period): DailyTotal
  {
    var t := d.byTou.Get(p);
    d.(totalKwh := d.totalKwh + kwh,
       totalCost := d.totalCost + kwh * rate,
       byTou := d.byTou.Set(p, TouTotals(t.kwh + kwh, t.cost + kwh * rate)),
       registerTotals := d.registerTotals[key := (if key in d.registerTotals then d.registerTotals[key] else 0.0) + kwh])
  }

  /** The energy registers of one hour, added one by one (the order of the
      keys does not matter to the result, see DayAfterHourConsistent). */
  ghost function AddHourToDay(d: DailyTotal, h: HourRecord, keys: set<string>): DailyTotal
    requires keys <= h.usage.Keys
    decreases keys
  {
    if keys == {} then d
    else
      var k :| k in keys;
      var d' := if IsKwhKey(k) then AddToDay(d, k, h.usage[k], HourRate(h), h.tou) else d;
      AddHourToDay(d', h, keys - {k})
  }

  /** Whether an hour creates or updates its date's entry: only an hour with
      at least one energy register touches the accumulator. */
  predicate HasKwh(h: HourRecord)
  {
    exists k :: k in h.usage && IsKwhKey(k)
  }

  ghost predicate DayConsistent(d: DailyTotal)
  {
    && d.totalKwh == d.byTou.peak.kwh + d.byTou.partPeak.kwh + d.byTou.offPeak.kwh
    && d.totalCost == d.byTou.peak.cost + d.byTou.partPeak.cost + d.byTou.offPeak.cost
    && d.totalKwh == SumValues(d.registerTotals)
  }

  lemma {:induction false} AddToDayConsistent(d: DailyTotal, key: string, kwh: real, rate: real, p: Period)
    requires DayConsistent(d)
    ensures DayConsistent(AddToDay(d, key, kwh, rate, p))
  {
    SumValuesUpdate(d.registerTotals, key, (if key in d.registerTotals then d.registerTotals[key] else 0.0) + kwh);
  }

  lemma {:induction false} DayAfterHourConsistent(d: DailyTotal, h: HourRecord, keys: set<string>)
    requires keys <= h.usage.Keys && DayConsistent(d)
    ensures DayConsistent(AddHourToDay(d, h, keys)) && AddHourToDay(d, h, keys).date == d.date
    decreases keys
  {
    if keys != {} {
      var k :| k in keys && AddHourToDay(d, h, keys) ==
        AddHourToDay(if IsKwhKey(k) then AddToDay(d, k, h.usage[k], HourRate(h), h.tou) else d, h, keys - {k});
      if IsKwhKey(k) {
        AddToDayConsistent(d, k, h.usage[k], HourRate(h), h.tou);
      }
      DayAfterHourConsistent(if IsKwhKey(k) then AddToDay(d, k, h.usage[k], HourRate(h), h.tou) else d, h, keys - {k});
    }
  }

  /** The accumulated entries, keyed by date, after the given hours. */
  ghost function DayMap(hourly: seq<HourRecord>): map<int, DailyTotal>
  {
    if hourly == [] then map[]
    else
      var m := DayMap(hourly[..|hourly| - 1]);
      var h := hourly[|hourly| - 1];
      if HasKwh(h) then
        m[h.date := AddHourToDay(if h.date in m then m[h.date] else EmptyDay(h.date), h, h.usage.Keys)]
      else m
  }

  /** The dates that get an entry: those of hours with an energy register. */
  function DatesOf(hourly: seq<HourRecord>): set<int>
  {
    set i | 0 <= i < |hourly| && HasKwh(hourly[i]) :: hourly[i].date
  }

  lemma {:induction false} DatesOfSnoc(hourly: seq<HourRecord>, h: HourRecord)
    ensures DatesOf(hourly + [h]) == DatesOf(hourly) + (if HasKwh(h) then {h.date} else {})
  {
    var all := hourly + [h];
    forall x | x in DatesOf(all) ensures x in DatesOf(hourly) + (if HasKwh(h) then {h.date} else {}) {
      var i :| 0 <= i < |all| && HasKwh(all[i]) && all[i].date == x;
      if i < |hourly| { assert all[i] == hourly[i]; }
    }
    forall x | x in DatesOf(hourly) ensures x in DatesOf(all) {
      var i :| 0 <= i < |hourly| && HasKwh(hourly[i]) && hourly[i].date == x;
      assert all[i] == hourly[i];
    }
    if HasKwh(h) {
      assert all[|hourly|] == h;
    }
  }

  lemma {:induction false} DayMapSnoc(hourly: seq<HourRecord>, h: HourRecord)
    ensures var m := DayMap(hourly);
      DayMap(hourly + [h]) ==
        if HasKwh(h) then m[h.date := AddHourToDay(if h.date in m then m[h.date] else EmptyDay(h.date), h, h.usage.Keys)]
        else m
  {
    assert (hourly + [h])[..|hourly|] == hourly;
  }

  /** The entries cover exactly the dates of hours with energy registers. */
  lemma {:induction false} DayMapKeys(hourly: seq<HourRecord>)
    ensures DayMap(hourly).Keys == DatesOf(hourly)
  {
    if hourly != [] {
      var init := hourly[..|hourly| - 1];
      var h := hourly[|hourly| - 1];
      assert hourly == init + [h];
      DayMapKeys(init);
      DatesOfSnoc(init, h);
      DayMapSnoc(init, h);
    } else {
      assert DatesOf(hourly) == {};
    }
  }

  /** Every entry is keyed by its own date and keeps its total kWh equal both
      to the sum of its three TOU sub-totals and to the sum of its
      per-register totals. */
  lemma {:induction false} DayMapConsistent(hourly: seq<HourRecord>)
    ensures forall d :: d in DayMap(hourly) ==> DayMap(hourly)[d].date == d && DayConsistent(DayMap(hourly)[d])
  {
    if hourly != [] {
      var init := hourly[..|hourly| - 1];
      var h := hourly[|hourly| - 1];
      assert hourly == init + [h];
      DayMapConsistent(init);
      DayMapSnoc(init, h);
      var m := DayMap(init);
      if HasKwh(h) {
        var base := if h.date in m then m[h.date] else EmptyDay(h.date);
        assert SumValues(EmptyDay(h.date).registerTotals) == 0.0;
        DayAfterHourConsistent(base, h, h.usage.Keys);
      }
    }
  }

  /** The accumulation loop's body for one hour: the inner loop over the
      hour's keys, creating the date's entry on the first energy register. */
  method AddHourToDays(days: map<int, DailyTotal>, h: HourRecord) returns (days': map<int, DailyTotal>)
    ensures HasKwh(h) ==> days' == days[h.date := AddHourToDay(if h.date in days then days[h.date] else EmptyDay(h.date), h, h.usage.Keys)]
    ensures !HasKwh(h) ==> days' == days
  {
    days' := days;
    var rate := HourRate(h);
    var keys := h.usage.Keys;
    ghost var base := if h.date in days then days[h.date] else EmptyDay(h.date);
    ghost var seen := false;
    while keys != {}
      invariant keys <= h.usage.Keys
      invariant seen <==> exists k :: k in h.usage.Keys - keys && IsKwhKey(k)
      invariant !seen ==> days' == days
      invariant seen ==> h.date in days' && days' == days[h.date := days'[h.date]]
      invariant AddHourToDay(base, h, h.usage.Keys) == AddHourToDay(if seen then days'[h.date] else base, h, keys)
      decreases keys
    {
      var k :| k in keys;
      ghost var cur := if seen then days'[h.date] else base;
      AddHourToDayChoice(cur, h, keys, k);
      if IsKwhKey(k) {
        var d := if h.date in days' then days'[h.date] else EmptyDay(h.date);
        days' := days'[h.date := AddToDay(d, k, h.usage[k], rate, h.tou)];
        seen := true;
      }
      keys := keys - {k};
    }
  }

  /** AddHourToDay may take the keys in any order. */
  lemma {:induction false} AddHourToDayChoice(d: DailyTotal, h: HourRecord, keys: set<string>, k: string)
    requires keys <= h.usage.Keys && k in keys
    ensures AddHourToDay(d, h, keys) ==
      AddHourToDay(if IsKwhKey(k) then AddToDay(d, k, h.usage[k], HourRate(h), h.tou) else d, h, keys - {k})
  {
    AddHourToDayCommutes(d, h, keys, k);
  }

  lemma {:induction false} AddHourToDayCommutes(d: DailyTotal, h: HourRecord, keys: set<string>, k: string)
    requires keys <= h.usage.Keys && k in keys
    ensures AddHourToDay(d, h, keys) ==
      AddHourToDay(if IsKwhKey(k) then AddToDay(d, k, h.usage[k], HourRate(h), h.tou) else d, h, keys - {k})
    decreases keys
  {
    var j :| j in keys && AddHourToDay(d, h, keys) ==
      AddHourToDay(if IsKwhKey(j) then AddToDay(d, j, h.usage[j], HourRate(h), h.tou) else d, h, keys - {j});
    if j != k {
      var dj := if IsKwhKey(j) then AddToDay(d, j, h.usage[j], HourRate(h), h.tou) else d;
      var dk := if IsKwhKey(k) then AddToDay(d, k, h.usage[k], HourRate(h), h.tou) else d;
      var djk := if IsKwhKey(k) then AddToDay(dj, k, h.usage[k], HourRate(h), h.tou) else dj;
      var dkj := if IsKwhKey(j) then AddToDay(dk, j, h.usage[j], HourRate(h), h.tou) else dk;
      AddToDaySwap(d, h, j, k);
      assert djk == dkj;
      AddHourToDayCommutes(dj, h, keys - {j}, k);
      AddHourToDayCommutes(dk, h, keys - {k}, j);
      assert keys - {j} - {k} == keys - {k} - {j};
    }
  }

  lemma {:induction false} AddToDaySwap(d: DailyTotal, h: HourRecord, j: string, k: string)
    requires j in h.usage && k in h.usage && j != k
    ensures
      var dj := if IsKwhKey(j) then AddToDay(d, j, h.usage[j], HourRate(h), h.tou) else d;
      var dk := if IsKwhKey(k) then AddToDay(d, k, h.usage[k], HourRate(h), h.tou) else d;
      (if IsKwhKey(k) then AddToDay(dj, k, h.usage[k], HourRate(h), h.tou) else dj)
        == (if IsKwhKey(j) then AddToDay(dk, j, h.usage[j], HourRate(h), h.tou) else dk)
  {
    if IsKwhKey(j) && IsKwhKey(k) {
      AddToDayCommute(d, j, h.usage[j], k, h.usage[k], HourRate(h), h.tou);
    }
  }

  /** Adding two different registers to a day gives the same day in either
      order. */
  lemma {:induction false} AddToDayCommute(d: DailyTotal, j: string, a: real, k: string, b: real, rate: real, p: Period)
    requires j != k
    ensures AddToDay(AddToDay(d, j, a, rate, p), k, b, rate, p) == AddToDay(AddToDay(d, k, b, rate, p), j, a, rate, p)
  {
    var l := AddToDay(AddToDay(d, j, a, rate, p), k, b, rate, p);
    var r := AddToDay(AddToDay(d, k, b, rate, p), j, a, rate, p);
    var t := d.byTou.Get(p);
    assert l.byTou == d.byTou.Set(p, TouTotals(t.kwh + a + b, t.cost + a * rate + b * rate));
    assert r.byTou == d.byTou.Set(p, TouTotals(t.kwh + b + a, t.cost + b * rate + a * rate));
    RegisterTotalsCommute(d.registerTotals, j, a, k, b);
  }

  lemma {:induction false} RegisterTotalsCommute(m: map<string, real>, j: string, a: real, k: string, b: real)
    requires j != k
    ensures
      var mj := m[j := (if j in m then m[j] else 0.0) + a];
      var mk := m[k := (if k in m then m[k] else 0.0) + b];
      mj[k := (if k in mj then mj[k] else 0.0) + b] == mk[j := (if j in mk then mk[j] else 0.0) + a]
  {
  }

  predicate StrictlyAscendingDates(r: seq<DailyTotal>)
  {
    forall i, j :: 0 <= i < j < |r| ==> r[i].date < r[j].date
  }

  /** The dates of a list of entries. */
  function DatesIn(r: seq<DailyTotal>): set<int>
  {
    set i | 0 <= i < |r| :: r[i].date
  }

  lemma {:induction false} DatesInSnoc(r: seq<DailyTotal>, d: DailyTotal)
    ensures DatesIn(r + [d]) == DatesIn(r) + {d.date}
  {
    var r' := r + [d];
    assert r'[|r|] == d;
    forall x | x in DatesIn(r) ensures x in DatesIn(r') {
      var i :| 0 <= i < |r| && r[i].date == x;
      assert r'[i] == r[i];
    }
  }

  /** The accumulation loop of `calculate_daily_totals`. */
  method AccumulateDays(hourly: seq<HourRecord>) returns (days: map<int, DailyTotal>)
    ensures days == DayMap(hourly)
  {
    days := map[];
    var i := 0;
    while i < |hourly|
      invariant 0 <= i <= |hourly|
      invariant days == DayMap(hourly[..i])
    {
      assert hourly[..i + 1] == hourly[..i] + [hourly[i]];
      DayMapSnoc(hourly[..i], hourly[i]);
      days := AddHourToDays(days, hourly[i]);
      i := i + 1;
    }
    assert hourly[..i] == hourly;
  }

  /** `sorted(daily_totals.items())`: the entries in ascending date order. */
  method InDateOrder(days: map<int, DailyTotal>) returns (result: seq<DailyTotal>)
    ensures StrictlyAscendingDates(result)
    ensures DatesIn(result) == days.Keys
    ensures forall i :: 0 <= i < |result| ==> result[i].date in days && result[i] == days[result[i].date]
    requires forall d :: d in days ==> days[d].date == d
  {
    result := [];
    var remaining := days.Keys;
    while remaining != {}
      invariant OrderedSoFar(days, result, remaining)
      decreases remaining
    {
      var d := MinOf(remaining);
      OrderStep(days, result, remaining, d);
      result := result + [days[d]];
      remaining := remaining - {d};
    }
  }

  /** The invariant of that loop: the entries taken so far are in ascending
      date order, each its date's entry, and every date not yet taken is
      later than all of them. */
  ghost predicate OrderedSoFar(days: map<int, DailyTotal>, result: seq<DailyTotal>, remaining: set<int>)
  {
    && remaining <= days.Keys
    && StrictlyAscendingDates(result)
    && (forall j :: 0 <= j < |result| ==> result[j].date in days && result[j] == days[result[j].date])
    && (forall j, d :: 0 <= j < |result| && d in remaining ==> result[j].date < d)
    && DatesIn(result) + remaining == days.Keys
    && (forall j :: 0 <= j < |result| ==> result[j].date !in remaining)
  }

  lemma {:induction false} OrderStep(days: map<int, DailyTotal>, result: seq<DailyTotal>, remaining: set<int>, d: int)
    requires forall x :: x in days ==> days[x].date == x
    requires OrderedSoFar(days, result, remaining)
    requires d in remaining && forall x :: x in remaining ==> d <= x
    ensures OrderedSoFar(days, result + [days[d]], remaining - {d})
  {
    DatesInSnoc(result, days[d]);
  }

  /** `calculate_daily_totals`: one entry per date that has consumption, in
      ascending date order, each the accumulation of that date's hours. */
  method CalculateDailyTotals(hourly: seq<HourRecord>) returns (result: seq<DailyTotal>)
    ensures StrictlyAscendingDates(result)
    ensures DatesIn(result) == DatesOf(hourly)
    ensures forall i :: 0 <= i < |result| ==> result[i].date in DayMap(hourly) && result[i] == DayMap(hourly)[result[i].date]
  {
    var days := AccumulateDays(hourly);
    DayMapKeys(hourly);
    DayMapConsistent(hourly);
    result := InDateOrder(days);
  }

  /** Each date's total kWh equals its peak, part-peak and off-peak kWh added,
      and equals the sum of its per-register totals. */
  lemma {:induction false} DailyTotalsConsistent(hourly: seq<HourRecord>, result: seq<DailyTotal>, i: int)
    requires forall j :: 0 <= j < |result| ==> result[j].date in DayMap(hourly) && result[j] == DayMap(hourly)[result[j].date]
    requires 0 <= i < |result|
    ensures result[i].totalKwh == result[i].byTou.peak.kwh + result[i].byTou.partPeak.kwh + result[i].byTou.offPeak.kwh
    ensures result[i].totalKwh == SumValues(result[i].registerTotals)
  {
    DayMapConsistent(hourly);
  }
}
