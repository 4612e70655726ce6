/** Blending circuit consumption with the hourly solar/grid/battery buckets
    (solar_integration.py): where each hour's energy came from, what the
    battery's stored energy cost, and the per-circuit and whole-system costs
    that follow. */
module SolarBlend {
  import opened Util
  import opened Config
  import Calendar
  import opened Readings
  import opened Aggregates
  import opened SolarBuckets

  // -----------------------------------------------------------------------
  // NEM 2.0 export credits
  // -----------------------------------------------------------------------

  /** `WINTER_EXPORT_CREDITS` ($/kWh exported), at the default used when
      the configuration names no `solar.export_credits`. */
  const WinterExportCredits: PerPeriod<real> := PerPeriod(0.16, 0.14, 0.12)

  /** `SUMMER_EXPORT_CREDITS` ($/kWh exported), at its default. */
  const SummerExportCredits: PerPeriod<real> := PerPeriod(0.16, 0.14, 0.12)

  /** `get_export_credit(date, period)`: the summer table in summer. */
  function ExportCredit(date: int, p: Period): (c: real)
    ensures IsSummer(date) ==> c == SummerExportCredits.Get(p)
    ensures !IsSummer(date) ==> c == WinterExportCredits.Get(p)
  {
    if IsSummer(date) then SummerExportCredits.Get(p) else WinterExportCredits.Get(p)
  }

  /** With the default credit tables, exporting a kWh earns less than
      importing one costs, in every season and period, and earns more the
      dearer the period. */
  lemma {:induction false} ExportCreditBelowRate(date: int, p: Period)
    ensures 0.0 < ExportCredit(date, p) < Rate(date, p)
    ensures ExportCredit(date, Peak) > ExportCredit(date, PartPeak) > ExportCredit(date, OffPeak)
  {
  }

  /** `_get_battery_efficiency` with no configured value. */
  const BatteryEfficiency: real := 0.90

  // -----------------------------------------------------------------------
  // Where the battery's charge came from
  // -----------------------------------------------------------------------

  /** `_compute_battery_charge_source`: solar serves the home first, then the
      battery; the grid covers whatever charge solar could not. The result is
      (solar to battery, grid to battery). */
  function ChargeSource(solar: real, gridImport: real, gridExport: real, charge: real, discharge: real)
    : (r: (real, real))
    ensures charge <= 0.0 ==> r == (0.0, 0.0)
    ensures charge > 0.0 ==> r.0 >= 0.0 && r.1 >= 0.0 && r.0 + r.1 == charge
    ensures r.0 <= Max(0.0, solar - gridExport)
  {
    if charge <= 0.0 then (0.0, 0.0)
    else
      var solarLocal := Max(0.0, solar - gridExport);
      var homeLoad := Max(0.0, solarLocal + gridImport + discharge - charge);
      var solarToHome := Min(solarLocal, homeLoad);
      var surplus := Max(0.0, solarLocal - solarToHome);
      var toBattery := Min(surplus, charge);
      (toBattery, Max(0.0, charge - toBattery))
  }

  /** With no solar kept on site (night, or all of it exported) every kWh of
      charge is bought from the grid. */
  lemma {:induction false} NoSolarMeansGridCharging(solar: real, gridImport: real, gridExport: real, charge: real, discharge: real)
    requires charge > 0.0 && solar <= gridExport
    ensures ChargeSource(solar, gridImport, gridExport, charge, discharge) == (0.0, charge)
  {
  }

  /** In an hour with no grid import and no discharge, the battery takes
      solar up to what is kept on site, and the grid supplies the rest. */
  lemma {:induction false} SolarOnlyHour(solar: real, gridExport: real, charge: real)
    requires charge > 0.0 && solar >= gridExport
    ensures var r := ChargeSource(solar, 0.0, gridExport, charge, 0.0);
      r == (Min(solar - gridExport, charge), charge - Min(solar - gridExport, charge))
  {
  }

  // -----------------------------------------------------------------------
  // The per-hour source mix
  // -----------------------------------------------------------------------

  /** The share of an hour's consumption drawn from each source. */
  datatype Mix = Mix(solar: real, grid: real, battery: real)

  /** What supplied the home in an hour's bucket. */
  function Supply(b: Bucket): real
  {
    b.solar + b.gridImport + b.batteryDischarge
  }

  /** The 3-way source mix: an hour with no bucket is all grid; one with a
      bucket splits in proportion to solar, grid import and battery discharge,
      or is all zero when nothing was supplied. */
  function SourceMix(b: Option<Bucket>): Mix
  {
    match b
    case None => Mix(0.0, 1.0, 0.0)
    case Some(s) =>
      var total := Supply(s);
      if total > 0.0 then Mix(s.solar / total, s.gridImport / total, s.batteryDischarge / total)
      else Mix(0.0, 0.0, 0.0)
  }

  /** An unmatched hour is all grid; a matched hour with no supply has no
      shares; otherwise each share is its source's part of the supply, and
      the shares add up to one. */
  lemma {:induction false} SourceMixShares(b: Option<Bucket>)
    ensures var m := SourceMix(b);
      && (b.None? ==> m == Mix(0.0, 1.0, 0.0))
      && (b.Some? && Supply(b.value) <= 0.0 ==> m == Mix(0.0, 0.0, 0.0))
      && (b.Some? && Supply(b.value) > 0.0 ==>
            && m.solar * Supply(b.value) == b.value.solar
            && m.grid * Supply(b.value) == b.value.gridImport
            && m.battery * Supply(b.value) == b.value.batteryDischarge
            && m.solar + m.grid + m.battery == 1.0)
  {
    if b.Some? && Supply(b.value) > 0.0 {
      FractionsAddUp(b.value.solar, b.value.gridImport, b.value.batteryDischarge);
    }
  }

  lemma {:induction false} FractionsAddUp(a: real, b: real, c: real)
    requires a + b + c > 0.0
    ensures a / (a + b + c) + b / (a + b + c) + c / (a + b + c) == 1.0
  {
    var t := a + b + c;
    assert a / t + b / t + c / t == (a + b + c) / t;
  }

  /** With non-negative buckets every share lies in [0, 1]. */
  lemma {:induction false} MixIsFractional(b: Option<Bucket>)
    requires b.Some? ==> b.value.solar >= 0.0 && b.value.gridImport >= 0.0 && b.value.batteryDischarge >= 0.0
    ensures var m := SourceMix(b);
      0.0 <= m.solar <= 1.0 && 0.0 <= m.grid <= 1.0 && 0.0 <= m.battery <= 1.0
  {
    if b.Some? && Supply(b.value) > 0.0 {
      var s, t := b.value, Supply(b.value);
      ShareBounds(s.solar, t);
      ShareBounds(s.gridImport, t);
      ShareBounds(s.batteryDischarge, t);
    }
  }

  lemma {:induction false} ShareBounds(x: real, total: real)
    requires 0.0 <= x <= total && total > 0.0
    ensures 0.0 <= x / total <= 1.0
  {
  }

  /** The join key of an hour: its (date, hour) pair, i.e. its hour slot. */
  function Slot(h: HourRecord): int
  {
    Calendar.SlotOf(h.date, h.hour)
  }

  /** The bucket of an hour, if the solar data has one. */
  function Matched(h: HourRecord, sh: Buckets): Option<Bucket>
  {
    if Slot(h) in sh then Some(sh[Slot(h)]) else None
  }

  // -----------------------------------------------------------------------
  // Pass 1: battery economics
  // -----------------------------------------------------------------------

  datatype ChargeTotals = ChargeTotals(
    solarToBattery: real, gridToBattery: real, gridChargeCost: real, charge: real, discharge: real)

  const NoCharge := ChargeTotals(0.0, 0.0, 0.0, 0.0, 0.0)

  /** One hour of pass 1: matched hours add their charge and discharge, and
      hours that charged split the charge by source and pay for the grid part
      at the hour's rate. */
  function ChargeHour(t: ChargeTotals, h: HourRecord, sh: Buckets): ChargeTotals
  {
    match Matched(h, sh)
    case None => t
    case Some(s) =>
      var t' := t.(charge := t.charge + s.batteryCharge, discharge := t.discharge + s.batteryDischarge);
      if s.batteryCharge > 0.0 then
        var src := ChargeSource(s.solar, s.gridImport, s.gridExport, s.batteryCharge, s.batteryDischarge);
        t'.(solarToBattery := t'.solarToBattery + src.0,
            gridToBattery := t'.gridToBattery + src.1,
            gridChargeCost := t'.gridChargeCost + src.1 * HourRate(h))
      else t'
  }

  function ChargeFold(hourly: seq<HourRecord>, sh: Buckets): ChargeTotals
  {
    if hourly == [] then NoCharge
    else ChargeHour(ChargeFold(hourly[..|hourly| - 1], sh), hourly[|hourly| - 1], sh)
  }

  lemma {:induction false} ChargeFoldSnoc(hourly: seq<HourRecord>, h: HourRecord, sh: Buckets)
    ensures ChargeFold(hourly + [h], sh) == ChargeHour(ChargeFold(hourly, sh), h, sh)
  {
    assert (hourly + [h])[..|hourly|] == hourly;
  }

  /** With non-negative buckets every kWh charged is attributed to exactly one
      source, and no total goes negative. */
  lemma {:induction false} ChargeConservation(hourly: seq<HourRecord>, sh: Buckets)
    requires NonNegative(sh)
    ensures var t := ChargeFold(hourly, sh);
      && t.solarToBattery + t.gridToBattery == t.charge
      && t.solarToBattery >= 0.0 && t.gridToBattery >= 0.0
      && t.gridChargeCost >= 0.0 && t.discharge >= 0.0
  {
    if hourly != [] {
      var h := hourly[|hourly| - 1];
      ChargeConservation(hourly[..|hourly| - 1], sh);
      if Slot(h) in sh {
        var s := sh[Slot(h)];
        assert s.Get(BatteryCharge) >= 0.0 && s.Get(BatteryDischarge) >= 0.0;
        if s.batteryCharge > 0.0 {
          var src := ChargeSource(s.solar, s.gridImport, s.gridExport, s.batteryCharge, s.batteryDischarge);
          MulNonNegative(src.1, HourRate(h));
        }
      }
    }
  }

  lemma {:induction false} MulNonNegative(x: real, y: real)
    requires x >= 0.0 && y >= 0.0
    ensures x * y >= 0.0
  {
  }

  /** The battery figures derived from pass 1. */
  datatype Economics = Economics(
    costPerKwh: real,
    solarPct: real,
    solarChargeKwh: real,
    gridChargeKwh: real,
    gridChargeCost: real,
    measuredEfficiency: real,
    configEfficiency: real,
    charge: real,
    discharge: real,
    energyLost: real)

  /** The cost of a discharged kWh spreads the grid-charging cost over the
      energy that came back out; the measured efficiency is out over in; the
      solar share is the solar part of the charge, in percent. Each is 0 when
      its divisor is not positive. */
  function Economize(t: ChargeTotals): (e: Economics)
    ensures e.charge == t.charge && e.discharge == t.discharge && e.energyLost == t.charge - t.discharge
    ensures e.solarChargeKwh == t.solarToBattery && e.gridChargeKwh == t.gridToBattery
    ensures e.gridChargeCost == t.gridChargeCost && e.configEfficiency == BatteryEfficiency
  {
    var costPerKwh := if t.discharge > 0.0 then t.gridChargeCost / t.discharge else 0.0;
    var efficiency := if t.charge > 0.0 then t.discharge / t.charge else 0.0;
    var solarPct := if t.charge > 0.0 then t.solarToBattery / t.charge * 100.0 else 0.0;
    Economics(costPerKwh, solarPct, t.solarToBattery, t.gridToBattery, t.gridChargeCost,
              efficiency, BatteryEfficiency, t.charge, t.discharge, t.charge - t.discharge)
  }

  /** The cost of a discharged kWh recovers the grid-charging cost, the
      measured efficiency relates discharge to charge, and the solar percentage
      is the solar part of the charge; each is 0 when its divisor is not
      positive. */
  lemma {:induction false} EconomizeRatios(t: ChargeTotals)
    ensures var e := Economize(t);
      && (t.discharge > 0.0 ==> e.costPerKwh * t.discharge == t.gridChargeCost)
      && (t.discharge <= 0.0 ==> e.costPerKwh == 0.0)
      && (t.charge > 0.0 ==> e.measuredEfficiency * t.charge == t.discharge && e.solarPct * t.charge == t.solarToBattery * 100.0)
      && (t.charge <= 0.0 ==> e.measuredEfficiency == 0.0 && e.solarPct == 0.0)
  {
  }

  /** With non-negative buckets the solar share of the charge is a percentage
      and a discharged kWh never has a negative cost. */
  lemma {:induction false} EconomicsBounds(hourly: seq<HourRecord>, sh: Buckets)
    requires NonNegative(sh)
    ensures var e := Economize(ChargeFold(hourly, sh));
      0.0 <= e.solarPct <= 100.0 && e.costPerKwh >= 0.0
  {
    var t := ChargeFold(hourly, sh);
    ChargeConservation(hourly, sh);
    if t.charge > 0.0 {
      PercentBounds(t.solarToBattery, t.charge);
    }
    if t.discharge > 0.0 {
      assert t.gridChargeCost / t.discharge >= 0.0;
    }
  }

  lemma {:induction false} PercentBounds(part: real, whole: real)
    requires 0.0 <= part <= whole && whole > 0.0
    ensures 0.0 <= part / whole * 100.0 <= 100.0
  {
    assert part / whole <= 1.0;
  }

  // -----------------------------------------------------------------------
  // Pass 2: per-register attribution
  // -----------------------------------------------------------------------

  /** One TOU period of a register's blended statistics. */
  datatype BlendTou = BlendTou(
    kwh: real, gridKwh: real, solarKwh: real, batteryKwh: real,
    gridCost: real, batteryCost: real, fullCost: real)

  const ZeroBlendTou := BlendTou(0.0, 0.0, 0.0, 0.0, 0.0, 0.0, 0.0)

  /** One register's blended statistics. */
  datatype BlendStats = BlendStats(
    totalKwh: real,
    gridKwh: real,
    solarKwh: real,
    batteryKwh: real,
    gridCost: real,
    batteryCost: real,
    actualCost: real,
    fullRateCost: real,
    solarSavings: real,
    byTou: PerPeriod<BlendTou>)

  const EmptyBlend := BlendStats(0.0, 0.0, 0.0, 0.0, 0.0, 0.0, 0.0, 0.0, 0.0,
                                 PerPeriod(ZeroBlendTou, ZeroBlendTou, ZeroBlendTou))

  /** The split of `kwh` consumed at `rate` in the shares of `mix`: grid
      energy costs the rate, battery energy the battery's cost per kWh, and
      the whole is also priced at the rate for comparison. */
  function Shares(kwh: real, mix: Mix, rate: real, costPerKwh: real): (x: BlendTou)
    ensures x.kwh == kwh
  {
    var gridKwh, batteryKwh := kwh * mix.grid, kwh * mix.battery;
    BlendTou(kwh, gridKwh, kwh * mix.solar, batteryKwh, gridKwh * rate, batteryKwh * costPerKwh, kwh * rate)
  }

  /** Adds one split to a register's totals and to its period `p`. */
  function AddShares(s: BlendStats, x: BlendTou, p: Period): (r: BlendStats)
    ensures r.totalKwh == s.totalKwh + x.kwh
    ensures r.byTou.Get(p).kwh == s.byTou.Get(p).kwh + x.kwh
    ensures forall q :: q != p ==> r.byTou.Get(q) == s.byTou.Get(q)
  {
    var t := s.byTou.Get(p);
    s.(totalKwh := s.totalKwh + x.kwh,
       gridKwh := s.gridKwh + x.gridKwh,
       solarKwh := s.solarKwh + x.solarKwh,
       batteryKwh := s.batteryKwh + x.batteryKwh,
       gridCost := s.gridCost + x.gridCost,
       batteryCost := s.batteryCost + x.batteryCost,
       actualCost := s.actualCost + (x.gridCost + x.batteryCost),
       fullRateCost := s.fullRateCost + x.fullCost,
       solarSavings := s.solarSavings + (x.fullCost - (x.gridCost + x.batteryCost)),
       byTou := s.byTou.Set(p, t.(kwh := t.kwh + x.kwh,
                                  gridKwh := t.gridKwh + x.gridKwh,
                                  solarKwh := t.solarKwh + x.solarKwh,
                                  batteryKwh := t.batteryKwh + x.batteryKwh,
                                  gridCost := t.gridCost + x.gridCost,
                                  batteryCost := t.batteryCost + x.batteryCost,
                                  fullCost := t.fullCost + x.fullCost)))
  }

  /** One hour's contribution to register `key`: nothing unless the hour
      carries that energy register. */
  function BlendHour(s: BlendStats, h: HourRecord, sh: Buckets, costPerKwh: real, key: string): BlendStats
  {
    if key in h.usage && IsKwhKey(key) then
      AddShares(s, Shares(h.usage[key], SourceMix(Matched(h, sh)), HourRate(h), costPerKwh), h.tou)
    else s
  }

  /** The blended statistics of register `key` over the hours. */
  function RegisterBlend(hourly: seq<HourRecord>, sh: Buckets, costPerKwh: real, key: string): BlendStats
  {
    if hourly == [] then EmptyBlend
    else BlendHour(RegisterBlend(hourly[..|hourly| - 1], sh, costPerKwh, key), hourly[|hourly| - 1], sh, costPerKwh, key)
  }

  lemma {:induction false} RegisterBlendSnoc(hourly: seq<HourRecord>, h: HourRecord, sh: Buckets, costPerKwh: real, key: string)
    ensures RegisterBlend(hourly + [h], sh, costPerKwh, key) == BlendHour(RegisterBlend(hourly, sh, costPerKwh, key), h, sh, costPerKwh, key)
  {
    assert (hourly + [h])[..|hourly|] == hourly;
  }

  lemma {:induction false} RegisterBlendUnseen(hourly: seq<HourRecord>, sh: Buckets, costPerKwh: real, key: string)
    requires IsKwhKey(key) && key !in KwhKeysOf(hourly)
    ensures RegisterBlend(hourly, sh, costPerKwh, key) == EmptyBlend
  {
    if hourly != [] {
      RegisterBlendUnseen(hourly[..|hourly| - 1], sh, costPerKwh, key);
    }
  }

  /** The books of a register balance: the actual cost is the grid cost plus
      the battery cost, the solar savings are the full-rate cost less the
      actual cost, and each total is the sum of its TOU breakdown. */
  predicate Balanced(s: BlendStats)
  {
    && s.actualCost == s.gridCost + s.batteryCost
    && s.solarSavings == s.fullRateCost - s.actualCost
    && s.totalKwh == s.byTou.peak.kwh + s.byTou.partPeak.kwh + s.byTou.offPeak.kwh
    && s.gridKwh == s.byTou.peak.gridKwh + s.byTou.partPeak.gridKwh + s.byTou.offPeak.gridKwh
    && s.solarKwh == s.byTou.peak.solarKwh + s.byTou.partPeak.solarKwh + s.byTou.offPeak.solarKwh
    && s.batteryKwh == s.byTou.peak.batteryKwh + s.byTou.partPeak.batteryKwh + s.byTou.offPeak.batteryKwh
    && s.gridCost == s.byTou.peak.gridCost + s.byTou.partPeak.gridCost + s.byTou.offPeak.gridCost
    && s.batteryCost == s.byTou.peak.batteryCost + s.byTou.partPeak.batteryCost + s.byTou.offPeak.batteryCost
    && s.fullRateCost == s.byTou.peak.fullCost + s.byTou.partPeak.fullCost + s.byTou.offPeak.fullCost
  }

  lemma {:induction false} AddSharesBalanced(s: BlendStats, x: BlendTou, p: Period)
    requires Balanced(s)
    ensures Balanced(AddShares(s, x, p))
  {
  }

  lemma {:induction false} RegisterBlendBalanced(hourly: seq<HourRecord>, sh: Buckets, costPerKwh: real, key: string)
    ensures Balanced(RegisterBlend(hourly, sh, costPerKwh, key))
  {
    if hourly != [] {
      var prior := RegisterBlend(hourly[..|hourly| - 1], sh, costPerKwh, key);
      RegisterBlendBalanced(hourly[..|hourly| - 1], sh, costPerKwh, key);
      var h := hourly[|hourly| - 1];
      if key in h.usage && IsKwhKey(key) {
        AddSharesBalanced(prior, Shares(h.usage[key], SourceMix(Matched(h, sh)), HourRate(h), costPerKwh), h.tou);
      }
    }
  }

  /** An hour whose share of sources adds up to the whole: it has no bucket,
      or its bucket supplied something. */
  predicate Supplied(h: HourRecord, sh: Buckets)
  {
    Slot(h) in sh ==> Supply(sh[Slot(h)]) > 0.0
  }

  lemma {:induction false} SplitWhole(kwh: real, mix: Mix, rate: real, costPerKwh: real)
    requires mix.solar + mix.grid + mix.battery == 1.0
    ensures var x := Shares(kwh, mix, rate, costPerKwh);
      x.gridKwh + x.solarKwh + x.batteryKwh == kwh
  {
    assert kwh * mix.grid + kwh * mix.solar + kwh * mix.battery == kwh * (mix.solar + mix.grid + mix.battery);
  }

  lemma {:induction false} SuppliedMixWhole(h: HourRecord, sh: Buckets)
    requires Supplied(h, sh)
    ensures var m := SourceMix(Matched(h, sh));
      m.solar + m.grid + m.battery == 1.0
  {
    SourceMixShares(Matched(h, sh));
  }

  /** When every hour either has no bucket or a bucket that supplied
      something, a register's grid, solar and battery kWh add up to its total. */
  lemma {:induction false} SourcesPartitionConsumption(hourly: seq<HourRecord>, sh: Buckets, costPerKwh: real, key: string)
    requires forall i :: 0 <= i < |hourly| ==> Supplied(hourly[i], sh)
    ensures var s := RegisterBlend(hourly, sh, costPerKwh, key);
      s.gridKwh + s.solarKwh + s.batteryKwh == s.totalKwh
  {
    if hourly != [] {
      var init, h := hourly[..|hourly| - 1], hourly[|hourly| - 1];
      assert Supplied(h, sh);
      SourcesPartitionConsumption(init, sh, costPerKwh, key);
      if key in h.usage && IsKwhKey(key) {
        var m := SourceMix(Matched(h, sh));
        SuppliedMixWhole(h, sh);
        SplitWhole(h.usage[key], m, HourRate(h), costPerKwh);
        var x := Shares(h.usage[key], m, HourRate(h), costPerKwh);
        assert RegisterBlend(hourly, sh, costPerKwh, key) == AddShares(RegisterBlend(init, sh, costPerKwh, key), x, h.tou);
      }
    }
  }

  /** Without that condition the partition fails: an hour whose bucket
      supplied nothing attributes its consumption to no source at all. */
  lemma {:induction false} ZeroSupplyHourIsUnattributed(h: HourRecord, sh: Buckets, costPerKwh: real, key: string)
    requires key in h.usage && IsKwhKey(key) && h.usage[key] > 0.0
    requires Slot(h) in sh && Supply(sh[Slot(h)]) <= 0.0
    ensures var s := RegisterBlend([h], sh, costPerKwh, key);
      s.totalKwh == h.usage[key] && s.gridKwh + s.solarKwh + s.batteryKwh == 0.0
  {
    RegisterBlendSnoc([], h, sh, costPerKwh, key);
    assert [] + [h] == [h];
  }

  lemma {:induction false} GridShareCost(kwh: real, mix: Mix, rate: real, costPerKwh: real)
    requires kwh >= 0.0 && 0.0 <= mix.grid <= 1.0 && rate >= 0.0
    ensures var x := Shares(kwh, mix, rate, costPerKwh);
      0.0 <= x.gridCost <= x.fullCost
  {
    assert kwh * mix.grid <= kwh;
    MulMonotone(kwh * mix.grid, kwh, rate);
  }

  lemma {:induction false} MulMonotone(a: real, b: real, c: real)
    requires 0.0 <= a <= b && c >= 0.0
    ensures 0.0 <= a * c <= b * c
  {
  }

  /** With non-negative buckets and consumption, the grid part of a register's
      cost never exceeds what the whole would cost at the grid rate. */
  lemma {:induction false} GridCostAtMostFullRate(hourly: seq<HourRecord>, sh: Buckets, costPerKwh: real, key: string)
    requires NonNegative(sh)
    requires forall i, k :: 0 <= i < |hourly| && k in hourly[i].usage ==> hourly[i].usage[k] >= 0.0
    ensures var s := RegisterBlend(hourly, sh, costPerKwh, key);
      0.0 <= s.gridCost <= s.fullRateCost
  {
    if hourly != [] {
      var init, h := hourly[..|hourly| - 1], hourly[|hourly| - 1];
      GridCostAtMostFullRate(init, sh, costPerKwh, key);
      if key in h.usage && IsKwhKey(key) {
        var m := Matched(h, sh);
        if m.Some? {
          assert m.value.Get(Solar) >= 0.0 && m.value.Get(GridImport) >= 0.0 && m.value.Get(BatteryDischarge) >= 0.0;
        }
        MixIsFractional(m);
        var x := Shares(h.usage[key], SourceMix(m), HourRate(h), costPerKwh);
        GridShareCost(h.usage[key], SourceMix(m), HourRate(h), costPerKwh);
        var prior := RegisterBlend(init, sh, costPerKwh, key);
        assert RegisterBlend(hourly, sh, costPerKwh, key) == AddShares(prior, x, h.tou);
      }
    }
  }

  /** The actual cost, by contrast, can exceed the full-rate cost: an hour
      served only by a battery whose stored energy cost more per kWh than the
      hour's rate costs more than buying the same energy from the grid. */
  lemma {:induction false} ActualCostCanExceedFullRate(h: HourRecord, sh: Buckets, costPerKwh: real, key: string)
    requires key in h.usage && IsKwhKey(key) && h.usage[key] > 0.0
    requires Slot(h) in sh && sh[Slot(h)].solar == 0.0 && sh[Slot(h)].gridImport == 0.0
    requires sh[Slot(h)].batteryDischarge > 0.0 && costPerKwh > HourRate(h)
    ensures var s := RegisterBlend([h], sh, costPerKwh, key);
      s.actualCost > s.fullRateCost
  {
    RegisterBlendSnoc([], h, sh, costPerKwh, key);
    assert [] + [h] == [h];
    BlendHourIsShares(EmptyBlend, h, sh, costPerKwh, key);
    assert Matched(h, sh) == Some(sh[Slot(h)]);
    BatteryOnlyMix(sh[Slot(h)]);
    var kwh := h.usage[key];
    var x := Shares(kwh, Mix(0.0, 0.0, 1.0), HourRate(h), costPerKwh);
    var r := AddShares(EmptyBlend, x, h.tou);
    assert RegisterBlend([h], sh, costPerKwh, key) == r;
    BatteryOnlyCosts(kwh, HourRate(h), costPerKwh, h.tou);
  }

  lemma {:induction false} BatteryOnlyCosts(kwh: real, rate: real, costPerKwh: real, p: Period)
    requires kwh > 0.0 && costPerKwh > rate
    ensures var r := AddShares(EmptyBlend, Shares(kwh, Mix(0.0, 0.0, 1.0), rate, costPerKwh), p);
      r.actualCost > r.fullRateCost
  {
    var x := Shares(kwh, Mix(0.0, 0.0, 1.0), rate, costPerKwh);
    assert x.gridKwh == 0.0 && x.batteryKwh == kwh;
    assert x.gridCost == 0.0;
    assert x.batteryCost == kwh * costPerKwh;
    assert x.fullCost == kwh * rate;
    var r := AddShares(EmptyBlend, x, p);
    assert r.actualCost == x.gridCost + x.batteryCost;
    assert r.fullRateCost == x.fullCost;
    MulStrict(kwh, rate, costPerKwh);
    assert r.actualCost > r.fullRateCost;
  }

  lemma {:induction false} BatteryOnlyMix(b: Bucket)
    requires b.solar == 0.0 && b.gridImport == 0.0 && b.batteryDischarge > 0.0
    ensures SourceMix(Some(b)) == Mix(0.0, 0.0, 1.0)
  {
    var d := Supply(b);
    assert d == b.batteryDischarge;
    assert b.solar / d == 0.0 && b.gridImport / d == 0.0 && b.batteryDischarge / d == 1.0;
  }

  lemma {:induction false} MulStrict(x: real, a: real, b: real)
    requires x > 0.0 && a < b
    ensures x * a < x * b
  {
  }

  // -----------------------------------------------------------------------
  // Pass 2: system totals
  // -----------------------------------------------------------------------

  /** One TOU period of the system totals (its consumption is kept apart, see
      Blended). */
  datatype SystemTou = SystemTou(
    solar: real, gridImport: real, gridExport: real, batteryDischarge: real,
    gridCost: real, batteryCost: real, exportCredit: real)

  const ZeroSystemTou := SystemTou(0.0, 0.0, 0.0, 0.0, 0.0, 0.0, 0.0)

  datatype SystemTotals = SystemTotals(
    solar: real, gridImport: real, gridExport: real,
    gridCost: real, batteryCost: real, exportCredit: real,
    byTou: PerPeriod<SystemTou>)

  const NoSystem := SystemTotals(0.0, 0.0, 0.0, 0.0, 0.0, 0.0, PerPeriod(ZeroSystemTou, ZeroSystemTou, ZeroSystemTou))

  /** What one matched hour's bucket adds to the system: its energy, and
      what it cost or earned (grid import at the rate, discharge at the
      battery's cost per kWh, export at the export credit). */
  function Flows(s: Bucket, rate: real, credit: real, costPerKwh: real): SystemTou
  {
    SystemTou(s.solar, s.gridImport, s.gridExport, s.batteryDischarge,
              s.gridImport * rate, s.batteryDischarge * costPerKwh, s.gridExport * credit)
  }

  /** Adds one hour's flows to the totals and to its period `p`. */
  function AddFlows(sys: SystemTotals, x: SystemTou, p: Period): SystemTotals
  {
    var t := sys.byTou.Get(p);
    sys.(solar := sys.solar + x.solar,
         gridImport := sys.gridImport + x.gridImport,
         gridExport := sys.gridExport + x.gridExport,
         gridCost := sys.gridCost + x.gridCost,
         batteryCost := sys.batteryCost + x.batteryCost,
         exportCredit := sys.exportCredit + x.exportCredit,
         byTou := sys.byTou.Set(p, t.(solar := t.solar + x.solar,
                                      gridImport := t.gridImport + x.gridImport,
                                      gridExport := t.gridExport + x.gridExport,
                                      batteryDischarge := t.batteryDischarge + x.batteryDischarge,
                                      gridCost := t.gridCost + x.gridCost,
                                      batteryCost := t.batteryCost + x.batteryCost,
                                      exportCredit := t.exportCredit + x.exportCredit)))
  }

  /** A matched hour adds its flows; an unmatched hour adds nothing. */
  function SystemHour(sys: SystemTotals, h: HourRecord, sh: Buckets, costPerKwh: real): SystemTotals
  {
    match Matched(h, sh)
    case None => sys
    case Some(s) =>
      AddFlows(sys, Flows(s, HourRate(h), ExportCredit(Calendar.DateOf(h.datetime), h.tou), costPerKwh), h.tou)
  }

  function SystemFold(hourly: seq<HourRecord>, sh: Buckets, costPerKwh: real): SystemTotals
  {
    if hourly == [] then NoSystem
    else SystemHour(SystemFold(hourly[..|hourly| - 1], sh, costPerKwh), hourly[|hourly| - 1], sh, costPerKwh)
  }

  lemma {:induction false} SystemFoldSnoc(hourly: seq<HourRecord>, h: HourRecord, sh: Buckets, costPerKwh: real)
    ensures SystemFold(hourly + [h], sh, costPerKwh) == SystemHour(SystemFold(hourly, sh, costPerKwh), h, sh, costPerKwh)
  {
    assert (hourly + [h])[..|hourly|] == hourly;
  }

  /** Every system total is the sum of its TOU breakdown. */
  predicate SystemBalanced(sys: SystemTotals)
  {
    && sys.solar == sys.byTou.peak.solar + sys.byTou.partPeak.solar + sys.byTou.offPeak.solar
    && sys.gridImport == sys.byTou.peak.gridImport + sys.byTou.partPeak.gridImport + sys.byTou.offPeak.gridImport
    && sys.gridExport == sys.byTou.peak.gridExport + sys.byTou.partPeak.gridExport + sys.byTou.offPeak.gridExport
    && sys.gridCost == sys.byTou.peak.gridCost + sys.byTou.partPeak.gridCost + sys.byTou.offPeak.gridCost
    && sys.batteryCost == sys.byTou.peak.batteryCost + sys.byTou.partPeak.batteryCost + sys.byTou.offPeak.batteryCost
    && sys.exportCredit == sys.byTou.peak.exportCredit + sys.byTou.partPeak.exportCredit + sys.byTou.offPeak.exportCredit
  }

  lemma {:induction false} SystemHourBalanced(sys: SystemTotals, h: HourRecord, sh: Buckets, costPerKwh: real)
    requires SystemBalanced(sys)
    ensures SystemBalanced(SystemHour(sys, h, sh, costPerKwh))
  {
    if Slot(h) in sh {
      var x := Flows(sh[Slot(h)], HourRate(h), ExportCredit(Calendar.DateOf(h.datetime), h.tou), costPerKwh);
      AddFlowsBalanced(sys, x, h.tou);
    }
  }

  lemma {:induction false} AddFlowsBalanced(sys: SystemTotals, x: SystemTou, p: Period)
    requires SystemBalanced(sys)
    ensures SystemBalanced(AddFlows(sys, x, p))
  {
  }

  lemma {:induction false} SystemFoldBalanced(hourly: seq<HourRecord>, sh: Buckets, costPerKwh: real)
    ensures SystemBalanced(SystemFold(hourly, sh, costPerKwh))
  {
    if hourly != [] {
      SystemFoldBalanced(hourly[..|hourly| - 1], sh, costPerKwh);
      SystemHourBalanced(SystemFold(hourly[..|hourly| - 1], sh, costPerKwh), hourly[|hourly| - 1], sh, costPerKwh);
    }
  }

  lemma {:induction false} CostStep(cost: real, discharge: real, d: real, c: real, cost': real, discharge': real)
    requires cost == discharge * c && cost' == cost + d * c && discharge' == discharge + d
    ensures cost' == discharge' * c
  {
  }

  /** The battery discharge of an hour's bucket, or 0 when it has none. */
  function DischargeOf(h: HourRecord, sh: Buckets): real
  {
    if Slot(h) in sh then sh[Slot(h)].batteryDischarge else 0.0
  }

  function DischargeSum(hourly: seq<HourRecord>, sh: Buckets): real
  {
    if hourly == [] then 0.0 else DischargeSum(hourly[..|hourly| - 1], sh) + DischargeOf(hourly[|hourly| - 1], sh)
  }

  lemma {:induction false} ChargeFoldDischarge(hourly: seq<HourRecord>, sh: Buckets)
    ensures ChargeFold(hourly, sh).discharge == DischargeSum(hourly, sh)
  {
    if hourly != [] {
      ChargeFoldDischarge(hourly[..|hourly| - 1], sh);
      var h := hourly[|hourly| - 1];
      ChargeHourDischarge(ChargeFold(hourly[..|hourly| - 1], sh), h, sh);
    }
  }

  lemma {:induction false} ChargeHourDischarge(t: ChargeTotals, h: HourRecord, sh: Buckets)
    ensures ChargeHour(t, h, sh).discharge == t.discharge + DischargeOf(h, sh)
  {
  }

  lemma {:induction false} SystemFoldBatteryCost(hourly: seq<HourRecord>, sh: Buckets, costPerKwh: real)
    ensures SystemFold(hourly, sh, costPerKwh).batteryCost == DischargeSum(hourly, sh) * costPerKwh
  {
    if hourly != [] {
      var init, h := hourly[..|hourly| - 1], hourly[|hourly| - 1];
      SystemFoldBatteryCost(init, sh, costPerKwh);
      BatteryCostStep(SystemFold(init, sh, costPerKwh), SystemFold(hourly, sh, costPerKwh), h, sh, costPerKwh,
                      DischargeSum(init, sh), DischargeSum(hourly, sh));
    }
  }

  lemma {:induction false} BatteryCostStep(prev: SystemTotals, next: SystemTotals, h: HourRecord, sh: Buckets, costPerKwh: real,
                                           discharge: real, discharge': real)
    requires next == SystemHour(prev, h, sh, costPerKwh) && prev.batteryCost == discharge * costPerKwh
    requires discharge' == discharge + DischargeOf(h, sh)
    ensures next.batteryCost == discharge' * costPerKwh
  {
    SystemHourBatteryCost(prev, h, sh, costPerKwh);
    CostStep(prev.batteryCost, discharge, DischargeOf(h, sh), costPerKwh, next.batteryCost, discharge');
  }

  lemma {:induction false} SystemHourBatteryCost(sys: SystemTotals, h: HourRecord, sh: Buckets, costPerKwh: real)
    ensures SystemHour(sys, h, sh, costPerKwh).batteryCost == sys.batteryCost + DischargeOf(h, sh) * costPerKwh
  {
    if Slot(h) in sh {
      var x := Flows(sh[Slot(h)], HourRate(h), ExportCredit(Calendar.DateOf(h.datetime), h.tou), costPerKwh);
      assert SystemHour(sys, h, sh, costPerKwh) == AddFlows(sys, x, h.tou);
    }
  }

  /** Pass 2 charges matched hours for exactly the discharge pass 1 counted:
      the system's battery cost is the total discharge times the cost per
      kWh. */
  lemma {:induction false} BatteryCostIsDischargeTimesRate(hourly: seq<HourRecord>, sh: Buckets, costPerKwh: real)
    ensures SystemFold(hourly, sh, costPerKwh).batteryCost == ChargeFold(hourly, sh).discharge * costPerKwh
  {
    ChargeFoldDischarge(hourly, sh);
    SystemFoldBatteryCost(hourly, sh, costPerKwh);
  }

  /** So whenever the battery discharged, the grid-charging cost of pass 1 is
      passed on in full to the hours that drew on the battery, and when it did
      not the battery costs nothing. */
  lemma {:induction false} BatteryChargeCostPassedOn(hourly: seq<HourRecord>, sh: Buckets, t: ChargeTotals, c: real)
    requires t == ChargeFold(hourly, sh) && c == Economize(t).costPerKwh
    ensures t.discharge > 0.0 ==> SystemFold(hourly, sh, c).batteryCost == t.gridChargeCost
    ensures t.discharge <= 0.0 ==> SystemFold(hourly, sh, c).batteryCost == 0.0
  {
    BatteryCostIsDischargeTimesRate(hourly, sh, c);
    Recovered(t, SystemFold(hourly, sh, c).batteryCost);
  }

  lemma {:induction false} Recovered(t: ChargeTotals, cost: real)
    requires cost == t.discharge * Economize(t).costPerKwh
    ensures t.discharge > 0.0 ==> cost == t.gridChargeCost
    ensures t.discharge <= 0.0 ==> cost == 0.0
  {
  }

  // -----------------------------------------------------------------------
  // The blend itself
  // -----------------------------------------------------------------------

  /** The outcome of `blend_egauge_with_solar`: the registers' statistics,
      the system totals with the battery economics, and the consumption the
      system tracks (overall and per period), which the program keeps inside
      its system dictionary. */
  datatype Blended = Blended(
    registers: map<string, BlendStats>,
    system: SystemTotals,
    consumption: real,
    consumptionByTou: PerPeriod<real>,
    economics: Economics,
    netCost: real)

  /** A register's total kWh (`p` None) or its kWh in period `p`. */
  function Pick(s: BlendStats, p: Option<Period>): real
  {
    match p
    case None => s.totalKwh
    case Some(q) => s.byTou.Get(q).kwh
  }

  /** The sum of one kWh column over all registers. */
  ghost function Column(regs: map<string, BlendStats>, p: Option<Period>): real
  {
    SumValues(map k | k in regs :: Pick(regs[k], p))
  }

  lemma {:induction false} ColumnUpdate(regs: map<string, BlendStats>, key: string, s: BlendStats, p: Option<Period>)
    ensures Column(regs[key := s], p) == Column(regs, p) + Pick(s, p) - (if key in regs then Pick(regs[key], p) else 0.0)
  {
    var m := map k | k in regs :: Pick(regs[k], p);
    var regs' := regs[key := s];
    assert (map k | k in regs' :: Pick(regs'[k], p)) == m[key := Pick(s, p)];
    SumValuesUpdate(m, key, Pick(s, p));
  }

  lemma {:induction false} ColumnEmpty(p: Option<Period>)
    ensures Column(map[], p) == 0.0
  {
    ColumnKeys(map[], p);
  }

  lemma {:induction false} ColumnKeys(regs: map<string, BlendStats>, p: Option<Period>)
    ensures (map k | k in regs :: Pick(regs[k], p)).Keys == regs.Keys
  {
  }

  /** The consumption kept alongside the registers is the sum of their
      totals, overall and per period. */
  ghost predicate ConsumptionMatches(regs: map<string, BlendStats>, consumption: real, byTou: PerPeriod<real>)
  {
    && consumption == Column(regs, None)
    && byTou.peak == Column(regs, Some(Peak))
    && byTou.partPeak == Column(regs, Some(PartPeak))
    && byTou.offPeak == Column(regs, Some(OffPeak))
  }

  /** Adding `kwh` to one register's total and to its period `p` adds it to
      the columns too. */
  lemma {:induction false} ConsumptionStep(regs: map<string, BlendStats>, consumption: real, byTou: PerPeriod<real>,
                        key: string, s: BlendStats, s': BlendStats, kwh: real, p: Period)
    requires ConsumptionMatches(regs, consumption, byTou)
    requires key in regs ==> regs[key] == s
    requires key !in regs ==> s == EmptyBlend
    requires s'.totalKwh == s.totalKwh + kwh && s'.byTou.Get(p).kwh == s.byTou.Get(p).kwh + kwh
    requires forall q :: q != p ==> s'.byTou.Get(q) == s.byTou.Get(q)
    ensures ConsumptionMatches(regs[key := s'], consumption + kwh, byTou.Set(p, byTou.Get(p) + kwh))
  {
    var t := byTou.Set(p, byTou.Get(p) + kwh);
    assert t.peak == byTou.peak + (if p == Peak then kwh else 0.0);
    assert t.partPeak == byTou.partPeak + (if p == PartPeak then kwh else 0.0);
    assert t.offPeak == byTou.offPeak + (if p == OffPeak then kwh else 0.0);
    ColumnStep(regs, key, s, s', kwh, p, None);
    ColumnStep(regs, key, s, s', kwh, p, Some(Peak));
    ColumnStep(regs, key, s, s', kwh, p, Some(PartPeak));
    ColumnStep(regs, key, s, s', kwh, p, Some(OffPeak));
  }

  /** One column after the update: the total column and period `p`'s column
      grow by `kwh`, the other periods' columns stay. */
  lemma {:induction false} ColumnStep(regs: map<string, BlendStats>, key: string, s: BlendStats, s': BlendStats,
                                      kwh: real, p: Period, c: Option<Period>)
    requires key in regs ==> regs[key] == s
    requires key !in regs ==> s == EmptyBlend
    requires s'.totalKwh == s.totalKwh + kwh && s'.byTou.Get(p).kwh == s.byTou.Get(p).kwh + kwh
    requires forall q :: q != p ==> s'.byTou.Get(q) == s.byTou.Get(q)
    ensures Column(regs[key := s'], c) == Column(regs, c) + (if c == None || c == Some(p) then kwh else 0.0)
  {
    ColumnUpdate(regs, key, s', c);
    if key !in regs {
      assert Pick(s, c) == 0.0;
    }
  }

  /** When every register's books balance, the total column is the sum of
      the three period columns. */
  lemma {:induction false} ColumnsBalance(regs: map<string, BlendStats>)
    requires forall k :: k in regs ==> Balanced(regs[k])
    ensures Column(regs, None) == Column(regs, Some(Peak)) + Column(regs, Some(PartPeak)) + Column(regs, Some(OffPeak))
  {
    SumValuesAdd3(map k | k in regs :: Pick(regs[k], None),
                  map k | k in regs :: Pick(regs[k], Some(Peak)),
                  map k | k in regs :: Pick(regs[k], Some(PartPeak)),
                  map k | k in regs :: Pick(regs[k], Some(OffPeak)));
  }

  ghost predicate RegistersMatch(regs: map<string, BlendStats>, hourly: seq<HourRecord>, sh: Buckets, costPerKwh: real)
  {
    && regs.Keys == KwhKeysOf(hourly)
    && forall k :: k in regs ==> regs[k] == RegisterBlend(hourly, sh, costPerKwh, k)
  }

  /** Part way through one hour's registers: those already visited carry
      the hour, the rest are as before it. */
  ghost predicate Visited(regs: map<string, BlendStats>, prior: seq<HourRecord>, h: HourRecord, keys: set<string>,
                          sh: Buckets, costPerKwh: real)
  {
    && keys <= h.usage.Keys
    && (forall k :: k in regs ==> IsKwhKey(k))
    && (forall k :: k in regs <==> k in KwhKeysOf(prior) || (k in h.usage && k !in keys && IsKwhKey(k)))
    && forall k :: k in regs ==>
      regs[k] == if k in keys then RegisterBlend(prior, sh, costPerKwh, k)
                 else BlendHour(RegisterBlend(prior, sh, costPerKwh, k), h, sh, costPerKwh, k)
  }

  /** A register not yet visited still has its statistics before the hour. */
  lemma {:induction false} VisitedBefore(regs: map<string, BlendStats>, prior: seq<HourRecord>, h: HourRecord, keys: set<string>,
                      sh: Buckets, costPerKwh: real, key: string)
    requires Visited(regs, prior, h, keys, sh, costPerKwh) && key in keys && IsKwhKey(key)
    ensures (if key in regs then regs[key] else EmptyBlend) == RegisterBlend(prior, sh, costPerKwh, key)
  {
    if key !in regs {
      RegisterBlendUnseen(prior, sh, costPerKwh, key);
    }
  }

  lemma {:induction false} VisitStep(regs: map<string, BlendStats>, prior: seq<HourRecord>, h: HourRecord, keys: set<string>,
                  sh: Buckets, costPerKwh: real, key: string, s': BlendStats)
    requires Visited(regs, prior, h, keys, sh, costPerKwh) && key in keys
    requires IsKwhKey(key) ==> s' == BlendHour(RegisterBlend(prior, sh, costPerKwh, key), h, sh, costPerKwh, key)
    ensures Visited(if IsKwhKey(key) then regs[key := s'] else regs, prior, h, keys - {key}, sh, costPerKwh)
  {
  }

  lemma {:induction false} BlendHourIsShares(s: BlendStats, h: HourRecord, sh: Buckets, costPerKwh: real, key: string)
    requires key in h.usage && IsKwhKey(key)
    ensures BlendHour(s, h, sh, costPerKwh, key)
      == AddShares(s, Shares(h.usage[key], SourceMix(Matched(h, sh)), HourRate(h), costPerKwh), h.tou)
  {
  }

  lemma {:induction false} VisitedStart(regs: map<string, BlendStats>, prior: seq<HourRecord>, h: HourRecord, sh: Buckets, costPerKwh: real)
    requires RegistersMatch(regs, prior, sh, costPerKwh)
    ensures Visited(regs, prior, h, h.usage.Keys, sh, costPerKwh)
  {
    KwhKeysOfAreKwh(prior);
  }

  lemma {:induction false} VisitedAll(regs: map<string, BlendStats>, prior: seq<HourRecord>, h: HourRecord, sh: Buckets, costPerKwh: real)
    requires Visited(regs, prior, h, {}, sh, costPerKwh)
    ensures RegistersMatch(regs, prior + [h], sh, costPerKwh)
  {
    KwhKeysOfSnoc(prior, h);
    forall k | k in regs ensures regs[k] == RegisterBlend(prior + [h], sh, costPerKwh, k) {
      RegisterBlendSnoc(prior, h, sh, costPerKwh, k);
    }
  }

  /** The loop over one hour's registers: each energy register gets its share
      of the hour's sources (its statistics created on first use), and the
      system's consumption grows by the register's kWh. */
  method BlendRegisters(regs: map<string, BlendStats>, consumption: real, byTou: PerPeriod<real>,
                        ghost prior: seq<HourRecord>, h: HourRecord, sh: Buckets, costPerKwh: real)
    returns (regs': map<string, BlendStats>, consumption': real, byTou': PerPeriod<real>)
    requires RegistersMatch(regs, prior, sh, costPerKwh)
    requires ConsumptionMatches(regs, consumption, byTou)
    ensures RegistersMatch(regs', prior + [h], sh, costPerKwh)
    ensures ConsumptionMatches(regs', consumption', byTou')
  {
    var mix := SourceMix(Matched(h, sh));
    var rate := HourRate(h);
    regs', consumption', byTou' := regs, consumption, byTou;
    var keys := h.usage.Keys;
    VisitedStart(regs', prior, h, sh, costPerKwh);
    while keys != {}
      invariant Visited(regs', prior, h, keys, sh, costPerKwh)
      invariant ConsumptionMatches(regs', consumption', byTou')
      decreases keys
    {
      var k :| k in keys;
      regs', consumption', byTou' := BlendRegister(regs', consumption', byTou', prior, h, keys, sh, costPerKwh, mix, rate, k);
      keys := keys - {k};
    }
    VisitedAll(regs', prior, h, sh, costPerKwh);
  }

  /** The body of that loop, for register `key`. */
  method BlendRegister(regs: map<string, BlendStats>, consumption: real, byTou: PerPeriod<real>,
                       ghost prior: seq<HourRecord>, h: HourRecord, ghost keys: set<string>, sh: Buckets,
                       costPerKwh: real, mix: Mix, rate: real, key: string)
    returns (regs': map<string, BlendStats>, consumption': real, byTou': PerPeriod<real>)
    requires Visited(regs, prior, h, keys, sh, costPerKwh) && key in keys
    requires ConsumptionMatches(regs, consumption, byTou)
    requires mix == SourceMix(Matched(h, sh)) && rate == HourRate(h)
    ensures Visited(regs', prior, h, keys - {key}, sh, costPerKwh)
    ensures ConsumptionMatches(regs', consumption', byTou')
  {
    if !IsKwhKey(key) {
      VisitStep(regs, prior, h, keys, sh, costPerKwh, key, EmptyBlend);
      return regs, consumption, byTou;
    }
    var kwh := h.usage[key];
    var s := if key in regs then regs[key] else EmptyBlend;
    var x := Shares(kwh, mix, rate, costPerKwh);
    var s' := AddShares(s, x, h.tou);
    regs' := regs[key := s'];
    consumption' := consumption + kwh;
    byTou' := byTou.Set(h.tou, byTou.Get(h.tou) + kwh);
    BlendStep(regs, consumption, byTou, prior, h, keys, sh, costPerKwh, mix, rate, key, kwh, x, s, s', regs', consumption', byTou');
  }

  /** One step of that loop keeps both of its invariants. */
  lemma {:induction false} BlendStep(regs: map<string, BlendStats>, consumption: real, byTou: PerPeriod<real>,
                     prior: seq<HourRecord>, h: HourRecord, keys: set<string>, sh: Buckets,
                     costPerKwh: real, mix: Mix, rate: real, key: string, kwh: real, x: BlendTou, s: BlendStats, s': BlendStats,
                     regs': map<string, BlendStats>, consumption': real, byTou': PerPeriod<real>)
    requires Visited(regs, prior, h, keys, sh, costPerKwh) && key in keys && IsKwhKey(key)
    requires ConsumptionMatches(regs, consumption, byTou)
    requires mix == SourceMix(Matched(h, sh)) && rate == HourRate(h)
    requires kwh == h.usage[key] && x == Shares(kwh, mix, rate, costPerKwh)
    requires s == (if key in regs then regs[key] else EmptyBlend)
    requires s' == AddShares(s, x, h.tou) && regs' == regs[key := s']
    requires consumption' == consumption + kwh
    requires byTou' == byTou.Set(h.tou, byTou.Get(h.tou) + kwh)
    ensures Visited(regs', prior, h, keys - {key}, sh, costPerKwh)
    ensures ConsumptionMatches(regs', consumption', byTou')
  {
    ConsumptionAdd(regs, consumption, byTou, key, kwh, x, h.tou, s, s', regs', consumption', byTou');
    RegisterStep(regs, prior, h, keys, sh, costPerKwh, mix, rate, key, kwh, s, s', regs');
  }

  /** The register half of one step of that loop. */
  lemma {:induction false} RegisterStep(regs: map<string, BlendStats>, prior: seq<HourRecord>, h: HourRecord, keys: set<string>,
                     sh: Buckets, costPerKwh: real, mix: Mix, rate: real, key: string, kwh: real,
                     s: BlendStats, s': BlendStats, regs': map<string, BlendStats>)
    requires Visited(regs, prior, h, keys, sh, costPerKwh) && key in keys && IsKwhKey(key)
    requires mix == SourceMix(Matched(h, sh)) && rate == HourRate(h)
    requires kwh == h.usage[key] && s == (if key in regs then regs[key] else EmptyBlend)
    requires s' == AddShares(s, Shares(kwh, mix, rate, costPerKwh), h.tou) && regs' == regs[key := s']
    ensures Visited(regs', prior, h, keys - {key}, sh, costPerKwh)
  {
    VisitRegister(regs, prior, h, keys, sh, costPerKwh, key);
  }

  /** The consumption half of one step of that loop. */
  lemma {:induction false} ConsumptionAdd(regs: map<string, BlendStats>, consumption: real, byTou: PerPeriod<real>,
                     key: string, kwh: real, x: BlendTou, p: Period, s: BlendStats, s': BlendStats,
                     regs': map<string, BlendStats>, consumption': real, byTou': PerPeriod<real>)
    requires ConsumptionMatches(regs, consumption, byTou)
    requires s == (if key in regs then regs[key] else EmptyBlend)
    requires x.kwh == kwh && s' == AddShares(s, x, p) && regs' == regs[key := s']
    requires consumption' == consumption + kwh
    requires byTou' == byTou.Set(p, byTou.Get(p) + kwh)
    ensures ConsumptionMatches(regs', consumption', byTou')
  {
    ConsumptionStep(regs, consumption, byTou, key, s, s', kwh, p);
  }

  /** Visiting energy register `key` gives it its blend after the hour. */
  lemma {:induction false} VisitRegister(regs: map<string, BlendStats>, prior: seq<HourRecord>, h: HourRecord, keys: set<string>,
                      sh: Buckets, costPerKwh: real, key: string)
    requires Visited(regs, prior, h, keys, sh, costPerKwh) && key in keys && IsKwhKey(key)
    ensures var s := if key in regs then regs[key] else EmptyBlend;
      Visited(regs[key := AddShares(s, Shares(h.usage[key], SourceMix(Matched(h, sh)), HourRate(h), costPerKwh), h.tou)],
              prior, h, keys - {key}, sh, costPerKwh)
  {
    VisitedBefore(regs, prior, h, keys, sh, costPerKwh, key);
    var s := if key in regs then regs[key] else EmptyBlend;
    BlendHourIsShares(s, h, sh, costPerKwh, key);
    VisitStep(regs, prior, h, keys, sh, costPerKwh, key, BlendHour(s, h, sh, costPerKwh, key));
  }

  /** `blend_egauge_with_solar`: None when there is no solar data; otherwise
      pass 1 prices the battery's stored energy, and pass 2 attributes every
      hour's consumption to its sources and totals up the system. */
  method BlendEgaugeWithSolar(hourly: seq<HourRecord>, solar: Option<Buckets>) returns (r: Option<Blended>)
    ensures r.None? <==> solar.None? || solar.value == map[]
    ensures r.Some? ==>
      var sh, b := solar.value, r.value;
      && b.economics == Economize(ChargeFold(hourly, sh))
      && b.system == SystemFold(hourly, sh, b.economics.costPerKwh)
      && RegistersMatch(b.registers, hourly, sh, b.economics.costPerKwh)
      && ConsumptionMatches(b.registers, b.consumption, b.consumptionByTou)
      && b.netCost == b.system.gridCost + b.system.batteryCost - b.system.exportCredit
  {
    if solar.None? || solar.value == map[] {
      return None;
    }
    var sh := solar.value;
    // Pass 1: battery economics.
    var totals := NoCharge;
    var i := 0;
    while i < |hourly|
      invariant 0 <= i <= |hourly|
      invariant totals == ChargeFold(hourly[..i], sh)
    {
      assert hourly[..i + 1] == hourly[..i] + [hourly[i]];
      ChargeFoldSnoc(hourly[..i], hourly[i], sh);
      totals := ChargeHour(totals, hourly[i], sh);
      i := i + 1;
    }
    assert hourly[..i] == hourly;
    var economics := Economize(totals);
    var costPerKwh := economics.costPerKwh;
    // Pass 2: per-register attribution and system totals.
    var regs: map<string, BlendStats> := map[];
    var system := NoSystem;
    var consumption := 0.0;
    var byTou := PerPeriod(0.0, 0.0, 0.0);
    ColumnEmpty(None);
    ColumnEmpty(Some(Peak));
    ColumnEmpty(Some(PartPeak));
    ColumnEmpty(Some(OffPeak));
    i := 0;
    while i < |hourly|
      invariant 0 <= i <= |hourly|
      invariant system == SystemFold(hourly[..i], sh, costPerKwh)
      invariant RegistersMatch(regs, hourly[..i], sh, costPerKwh)
      invariant ConsumptionMatches(regs, consumption, byTou)
    {
      var h := hourly[i];
      assert hourly[..i + 1] == hourly[..i] + [h];
      SystemFoldSnoc(hourly[..i], h, sh, costPerKwh);
      system := SystemHour(system, h, sh, costPerKwh);
      regs, consumption, byTou := BlendRegisters(regs, consumption, byTou, hourly[..i], h, sh, costPerKwh);
      i := i + 1;
    }
    assert hourly[..i] == hourly;
    r := Some(Blended(regs, system, consumption, byTou, economics,
                      system.gridCost + system.batteryCost - system.exportCredit));
  }

  /** The consumption the system tracks is the sum of its TOU breakdown. */
  lemma {:induction false} ConsumptionByPeriod(b: Blended, hourly: seq<HourRecord>, sh: Buckets, costPerKwh: real)
    requires RegistersMatch(b.registers, hourly, sh, costPerKwh)
    requires ConsumptionMatches(b.registers, b.consumption, b.consumptionByTou)
    ensures b.consumption == b.consumptionByTou.peak + b.consumptionByTou.partPeak + b.consumptionByTou.offPeak
  {
    RegistersBalanced(b.registers, hourly, sh, costPerKwh);
    ColumnsBalance(b.registers);
  }

  lemma {:induction false} RegistersBalanced(regs: map<string, BlendStats>, hourly: seq<HourRecord>, sh: Buckets, costPerKwh: real)
    requires RegistersMatch(regs, hourly, sh, costPerKwh)
    ensures forall k :: k in regs ==> Balanced(regs[k])
  {
    forall k | k in regs ensures Balanced(regs[k]) {
      RegisterBlendBalanced(hourly, sh, costPerKwh, k);
    }
  }
}
