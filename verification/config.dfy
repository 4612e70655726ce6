/** The time-of-use tariff (PG&E EV2-A as configured): hour to period, the
    summer season test, the seasonal rate tables and the registers that are
    whole-house aggregates rather than circuits. */
module Config {
  import opened Util
  import Calendar

  datatype Period = Peak | PartPeak | OffPeak

  /** The three periods in the order the program lists them. */
  const Periods: seq<Period> := [Peak, PartPeak, OffPeak]

  /** A value per TOU period: the `{'peak': .., 'part_peak': .., 'off_peak': ..}`
      dictionaries of the program. */
  datatype PerPeriod<T> = PerPeriod(peak: T, partPeak: T, offPeak: T)
  {
    function Get(p: Period): T
    {
      match p
      case Peak => peak
      case PartPeak => partPeak
      case OffPeak => offPeak
    }

    function Set(p: Period, v: T): (r: PerPeriod<T>)
      ensures r.Get(p) == v
      ensures forall q :: q != p ==> r.Get(q) == Get(q)
    {
      match p
      case Peak => this.(peak := v)
      case PartPeak => this.(partPeak := v)
      case OffPeak => this.(offPeak := v)
    }
  }

  function Total(x: PerPeriod<real>): real
  {
    x.peak + x.partPeak + x.offPeak
  }

  /** `get_tou_period`: 16..20 is peak, 15 and 21..23 are part-peak, every
      other hour (so the mapping is total) is off-peak. */
  function TouPeriod(hour: int): (p: Period)
    ensures p == Peak <==> 16 <= hour < 21
    ensures p == PartPeak <==> hour == 15 || 21 <= hour < 24
    ensures p == OffPeak <==> !(15 <= hour < 24)
  {
    if 16 <= hour < 21 then Peak
    else if hour == 15 || 21 <= hour < 24 then PartPeak
    else OffPeak
  }

  /** Over a clock day the peak hours are exactly 16..20, the part-peak hours
      exactly 15, 21, 22, 23, and the off-peak hours exactly 0..14. */
  lemma {:induction false} TouHourSets()
    ensures (set h | 0 <= h < 24 && TouPeriod(h) == Peak) == {16, 17, 18, 19, 20}
    ensures (set h | 0 <= h < 24 && TouPeriod(h) == PartPeak) == {15, 21, 22, 23}
    ensures (set h | 0 <= h < 24 && TouPeriod(h) == OffPeak) == {0, 1, 2, 3, 4, 5, 6, 7, 8, 9, 10, 11, 12, 13, 14}
  {
    var peak := set h | 0 <= h < 24 && TouPeriod(h) == Peak;
    assert 16 in peak && 17 in peak && 18 in peak && 19 in peak && 20 in peak;
    var part := set h | 0 <= h < 24 && TouPeriod(h) == PartPeak;
    assert 15 in part && 21 in part && 22 in part && 23 in part;
    var off := set h | 0 <= h < 24 && TouPeriod(h) == OffPeak;
    assert 0 in off && 1 in off && 2 in off && 3 in off && 4 in off && 5 in off && 6 in off && 7 in off;
    assert 8 in off && 9 in off && 10 in off && 11 in off && 12 in off && 13 in off && 14 in off;
  }

  /** `is_summer`: June through September. */
  predicate IsSummer(date: int)
  {
    6 <= Calendar.MonthOf(date) <= 9
  }

  /** `WINTER_RATES` ($/kWh). */
  const WinterRates: PerPeriod<real> := PerPeriod(0.51928, 0.49193, 0.29780)

  /** `SUMMER_RATES` ($/kWh). */
  const SummerRates: PerPeriod<real> := PerPeriod(0.64639, 0.52525, 0.29780)

  /** `get_rate(date, period)`: the summer table in summer, else the winter one. */
  function Rate(date: int, p: Period): (r: real)
    ensures IsSummer(date) ==> r == SummerRates.Get(p)
    ensures !IsSummer(date) ==> r == WinterRates.Get(p)
    ensures r > 0.0
  {
    if IsSummer(date) then SummerRates.Get(p) else WinterRates.Get(p)
  }

  predicate WellOrderedTable(t: PerPeriod<real>)
  {
    t.offPeak > 0.0 && t.partPeak >= t.offPeak && t.peak >= t.partPeak
  }

  /** Both tables are positive and ordered peak >= part-peak >= off-peak, and
      off-peak costs the same in both seasons. */
  lemma {:induction false} RateTablesOrdered()
    ensures WellOrderedTable(WinterRates) && WellOrderedTable(SummerRates)
    ensures WinterRates.offPeak == SummerRates.offPeak
  {
  }

  /** Every rate of the year lies between the off-peak rate (the same all
      year) and the summer peak rate. */
  lemma {:induction false} RateRange(date: int, p: Period)
    ensures WinterRates.offPeak <= Rate(date, p) <= SummerRates.peak
  {
  }

  /** Whatever the date, the peak rate is strictly above the off-peak rate. */
  lemma {:induction false} PeakAboveOffPeak(date: int)
    ensures Rate(date, Peak) > Rate(date, OffPeak) > 0.0
  {
  }

  /** `EXCLUDE_REGISTERS`: whole-house aggregates, never differenced. */
  const ExcludeRegisters: set<string> :=
    {"Usage [kWh]", "Generation [kWh]", "Grid [kWh]", "Grid+ [kWh]"}

  const KwhSuffix: string := "[kWh]"

  /** A column name the program treats as an energy register. */
  predicate IsKwhKey(key: string)
  {
    EndsWith(key, KwhSuffix)
  }

  /** A register that is differenced into hourly consumption. */
  predicate IsCircuit(key: string)
  {
    IsKwhKey(key) && key !in ExcludeRegisters
  }
}
