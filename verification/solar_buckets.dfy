/** The hourly solar, grid and battery energy of `build_hourly_solar_data`
    (solar_integration.py): five cumulative Powerwall counters are turned into
    per-hour deltas, a positive counter step being spread over the hours it
    spans in proportion to the time spent in each. */
module SolarBuckets {
  import opened Util
  import Calendar

  /** The five counters and the bucket field each one feeds. */
  datatype Field = Solar | GridImport | GridExport | BatteryCharge | BatteryDischarge

  /** One hour's energy per counter, in kWh. */
  datatype Bucket = Bucket(solar: real, gridImport: real, gridExport: real, batteryCharge: real, batteryDischarge: real)
  {
    function Get(f: Field): real
    {
      match f
      case Solar => solar
      case GridImport => gridImport
      case GridExport => gridExport
      case BatteryCharge => batteryCharge
      case BatteryDischarge => batteryDischarge
    }

    /** `hourly[key][field_name] += x`. */
    function Add(f: Field, x: real): (r: Bucket)
      ensures r.Get(f) == Get(f) + x
      ensures forall g :: g != f ==> r.Get(g) == Get(g)
    {
      match f
      case Solar => this.(solar := solar + x)
      case GridImport => this.(gridImport := gridImport + x)
      case GridExport => this.(gridExport := gridExport + x)
      case BatteryCharge => this.(batteryCharge := batteryCharge + x)
      case BatteryDischarge => this.(batteryDischarge := batteryDischarge + x)
    }
  }

  /** The bucket `ensure_bucket` creates. */
  const ZeroBucket := Bucket(0.0, 0.0, 0.0, 0.0, 0.0)

  /** The buckets, keyed by hour slot (the program's (date, hour) key). */
  type Buckets = map<int, Bucket>

  /** One history entry as fetched: its `state` read as a number (None when
      `float()` rejects it) and its `last_changed`/`last_updated` time (None
      when absent or unparseable). */
  datatype HistoryEntry = HistoryEntry(state: Option<real>, time: Option<int>)

  /** A valid reading of a counter. */
  datatype Sample = Sample(time: int, value: real)

  function SampleTime(s: Sample): real
  {
    s.time as real
  }

  /** The valid readings of a history, in history order: entries with a
      numeric state and a timestamp. */
  function Samples(history: seq<HistoryEntry>): (rs: seq<Sample>)
    ensures |rs| <= |history|
    ensures forall i :: 0 <= i < |rs| ==>
      exists j :: 0 <= j < |history| && history[j].state == Some(rs[i].value) && history[j].time == Some(rs[i].time)
  {
    if history == [] then []
    else
      var init := Samples(history[..|history| - 1]);
      var e := history[|history| - 1];
      if e.state.Some? && e.time.Some? then init + [Sample(e.time.value, e.state.value)] else init
  }

  /** The bucket of a slot, or the zero bucket `ensure_bucket` would create. */
  function BucketOf(b: Buckets, slot: int): Bucket
  {
    if slot in b then b[slot] else ZeroBucket
  }

  /** `hourly[ensure_bucket(slot)][field] += x`. */
  function AddAt(b: Buckets, slot: int, f: Field, x: real): (r: Buckets)
    ensures r.Keys == b.Keys + {slot}
    ensures r[slot] == BucketOf(b, slot).Add(f, x)
    ensures forall s :: s in b && s != slot ==> r[s] == b[s]
  {
    b[slot := BucketOf(b, slot).Add(f, x)]
  }

  /** The share of `delta` that the walk gives to the interval [from, to)
      out of a step lasting `total` seconds. */
  function Portion(delta: real, from: int, to: int, total: int): real
    requires total > 0
  {
    delta * ((to - from) as real / total as real)
  }

  /** The hour walk from `t` to `curr`: each hour slot gets the portion of
      `delta` for the time from `t` to the end of that hour (or to `curr`). */
  function Walk(b: Buckets, t: int, curr: int, f: Field, delta: real, total: int): Buckets
    requires total > 0
    decreases curr - t
  {
    if t >= curr then b
    else
      var e := NextCut(t, curr);
      Walk(AddAt(b, Calendar.HourSlot(t), f, Portion(delta, t, e, total)), e, curr, f, delta, total)
  }

  /** Where the walk cuts next: the end of `t`'s hour, or `curr` if sooner. */
  function NextCut(t: int, curr: int): (e: int)
    requires t < curr
    ensures t < e <= curr && Calendar.HourSlot(e - 1) == Calendar.HourSlot(t)
    ensures e < curr ==> Calendar.HourSlot(e) == Calendar.HourSlot(t) + 1
  {
    if Calendar.HourEnd(t) > curr then curr else Calendar.HourEnd(t)
  }

  lemma {:induction false} WalkStep(b: Buckets, t: int, curr: int, f: Field, delta: real, total: int)
    requires total > 0 && t < curr
    ensures Walk(b, t, curr, f, delta, total) ==
      Walk(AddAt(b, Calendar.HourSlot(t), f, Portion(delta, t, NextCut(t, curr), total)), NextCut(t, curr), curr, f, delta, total)
  {
  }

  /** One step between consecutive readings: nothing for a drop or no change,
      all of it to the hour when both readings fall in the same hour, else the
      hour walk. */
  function ApplyPair(b: Buckets, prev: Sample, curr: Sample, f: Field): Buckets
  {
    var delta := curr.value - prev.value;
    if delta <= 0.0 then b
    else if Calendar.HourSlot(prev.time) == Calendar.HourSlot(curr.time) then AddAt(b, Calendar.HourSlot(curr.time), f, delta)
    else if curr.time - prev.time <= 0 then b
    else Walk(b, prev.time, curr.time, f, delta, curr.time - prev.time)
  }

  lemma {:induction false} ApplyPairCases(b: Buckets, prev: Sample, curr: Sample, f: Field)
    ensures curr.value - prev.value <= 0.0 ==> ApplyPair(b, prev, curr, f) == b
    ensures curr.value - prev.value > 0.0 && Calendar.HourSlot(prev.time) == Calendar.HourSlot(curr.time) ==>
      ApplyPair(b, prev, curr, f) == AddAt(b, Calendar.HourSlot(curr.time), f, curr.value - prev.value)
    ensures curr.value - prev.value > 0.0 && Calendar.HourSlot(prev.time) != Calendar.HourSlot(curr.time) && prev.time < curr.time ==>
      ApplyPair(b, prev, curr, f) == Walk(b, prev.time, curr.time, f, curr.value - prev.value, curr.time - prev.time)
  {
  }

  /** Once the readings are in time order, the `total_seconds <= 0` guard
      never fires: readings in different hour slots are strictly apart, so a
      rise goes either to its one hour or to the walk. */
  lemma {:induction false} OrderedPairNeverEmpty(b: Buckets, prev: Sample, curr: Sample, f: Field)
    requires prev.time <= curr.time
    ensures Calendar.HourSlot(prev.time) != Calendar.HourSlot(curr.time) ==> prev.time < curr.time
    ensures curr.value - prev.value > 0.0 ==>
      ApplyPair(b, prev, curr, f) ==
        if Calendar.HourSlot(prev.time) == Calendar.HourSlot(curr.time)
        then AddAt(b, Calendar.HourSlot(curr.time), f, curr.value - prev.value)
        else Walk(b, prev.time, curr.time, f, curr.value - prev.value, curr.time - prev.time)
  {
  }

  /** All consecutive pairs of the readings, oldest first. */
  function ApplyAll(b: Buckets, rs: seq<Sample>, f: Field): Buckets
  {
    if |rs| < 2 then b
    else ApplyPair(ApplyAll(b, rs[..|rs| - 1], f), rs[|rs| - 2], rs[|rs| - 1], f)
  }

  lemma {:induction false} ApplyAllSnoc(b: Buckets, rs: seq<Sample>, r: Sample, f: Field)
    requires |rs| >= 1
    ensures ApplyAll(b, rs + [r], f) == ApplyPair(ApplyAll(b, rs, f), rs[|rs| - 1], r, f)
  {
    assert (rs + [r])[..|rs|] == rs;
  }

  lemma {:induction false} ApplyAllNext(b: Buckets, rs: seq<Sample>, k: int, f: Field)
    requires 1 <= k < |rs|
    ensures ApplyAll(b, rs[..k + 1], f) == ApplyPair(ApplyAll(b, rs[..k], f), rs[k - 1], rs[k], f)
  {
    assert rs[..k + 1] == rs[..k] + [rs[k]];
    ApplyAllSnoc(b, rs[..k], rs[k], f);
  }

  lemma {:induction false} SortedNeighbours(rs: seq<Sample>, k: int)
    requires SortedBy(rs, SampleTime) && 1 <= k < |rs|
    ensures rs[k - 1].time <= rs[k].time
  {
    assert SampleTime(rs[k - 1]) <= SampleTime(rs[k]);
  }

  /** The readings of a history in time order (a stable sort). */
  function Sorted(history: seq<HistoryEntry>): seq<Sample>
  {
    SortBy(Samples(history), SampleTime)
  }

  /** `process_cumulative(history, field)` on the buckets `b`. */
  function Spread(b: Buckets, history: seq<HistoryEntry>, f: Field): Buckets
  {
    ApplyAll(b, Sorted(history), f)
  }

  // -----------------------------------------------------------------------
  // The shared `hourly` dictionary, updated in place
  // -----------------------------------------------------------------------

  class HourlySolar {
    var buckets: Buckets

    constructor ()
      ensures buckets == map[]
    {
      buckets := map[];
    }

    /** `ensure_bucket`: creates a zero bucket for the slot if there is none. */
    method EnsureBucket(slot: int)
      modifies this
      ensures buckets == old(buckets)[slot := BucketOf(old(buckets), slot)]
    {
      if slot !in buckets {
        buckets := buckets[slot := ZeroBucket];
      }
    }

    /** `hourly[key][field_name] += x` after `ensure_bucket`. */
    method Credit(slot: int, f: Field, x: real)
      modifies this
      ensures buckets == AddAt(old(buckets), slot, f, x)
    {
      EnsureBucket(slot);
      buckets := buckets[slot := buckets[slot].Add(f, x)];
    }

    /** `process_cumulative`: keeps the valid readings, returns with fewer
        than two, sorts them by time and walks consecutive pairs. */
    method ProcessCumulative(history: seq<HistoryEntry>, f: Field)
      modifies this
      ensures buckets == Spread(old(buckets), history, f)
      ensures |Samples(history)| < 2 ==> buckets == old(buckets)
    {
      var readings := ValidReadings(history);
      SortByFacts(readings, SampleTime);
      if |readings| < 2 {
        return;
      }
      readings := SortBy(readings, SampleTime);
      ghost var start := buckets;
      var k := 1;
      while k < |readings|
        invariant 1 <= k <= |readings|
        invariant buckets == ApplyAll(start, readings[..k], f)
      {
        var prev, curr := readings[k - 1], readings[k];
        ApplyAllNext(start, readings, k, f);
        SortedNeighbours(readings, k);
        Step(prev, curr, f);
        k := k + 1;
      }
      assert readings[..k] == readings;
    }

    /** The body of the loop over consecutive readings. */
    method Step(prev: Sample, curr: Sample, f: Field)
      requires prev.time <= curr.time
      modifies this
      ensures buckets == ApplyPair(old(buckets), prev, curr, f)
    {
      ApplyPairCases(buckets, prev, curr, f);
      var delta := curr.value - prev.value;
      if delta > 0.0 {
        if Calendar.HourSlot(prev.time) == Calendar.HourSlot(curr.time) {
          Credit(Calendar.HourSlot(curr.time), f, delta);
        } else {
          WalkHours(prev.time, curr.time, f, delta, curr.time - prev.time);
        }
      }
    }

    /** The `while t < curr_dt` loop: walks hour by hour from `first` to `last`,
        crediting each hour with its share of `delta`. */
    method WalkHours(first: int, last: int, f: Field, delta: real, total: int)
      requires total > 0 && first <= last
      modifies this
      ensures buckets == Walk(old(buckets), first, last, f, delta, total)
    {
      var t := first;
      while t < last
        invariant first <= t <= last
        invariant Walk(buckets, t, last, f, delta, total) == Walk(old(buckets), first, last, f, delta, total)
        decreases last - t
      {
        var hourEnd := Calendar.HourEnd(t);
        if hourEnd > last {
          hourEnd := last;
        }
        var portion := Portion(delta, t, hourEnd, total);
        assert hourEnd == NextCut(t, last);
        WalkStep(buckets, t, last, f, delta, total);
        ghost var b0 := buckets;
        Credit(Calendar.HourSlot(t), f, portion);
        assert Walk(buckets, hourEnd, last, f, delta, total) == Walk(b0, t, last, f, delta, total);
        t := hourEnd;
      }
    }
  }

  /** The filtering loop of `process_cumulative`. */
  method ValidReadings(history: seq<HistoryEntry>) returns (readings: seq<Sample>)
    ensures readings == Samples(history)
  {
    readings := [];
    var i := 0;
    while i < |history|
      invariant 0 <= i <= |history|
      invariant readings == Samples(history[..i])
    {
      assert history[..i + 1][..i] == history[..i];
      var e := history[i];
      if e.state.Some? && e.time.Some? {
        readings := readings + [Sample(e.time.value, e.state.value)];
      }
      i := i + 1;
    }
    assert history[..i] == history;
  }

  /** `build_hourly_solar_data`: None when solar is not configured (or an
      entity is missing) or when the solar or grid-import history could not
      be fetched or is empty; otherwise the five counters spread in turn into
      one shared set of buckets. */
  method BuildHourlySolarData(
    configured: bool,
    solar: Option<seq<HistoryEntry>>,
    gridImport: Option<seq<HistoryEntry>>,
    gridExport: Option<seq<HistoryEntry>>,
    batteryCharged: Option<seq<HistoryEntry>>,
    batteryDischarged: Option<seq<HistoryEntry>>) returns (r: Option<Buckets>)
    ensures r.None? <==> !configured || solar.None? || solar.value == [] || gridImport.None? || gridImport.value == []
    ensures r.Some? ==> r.value == BuildSpec(solar.value, gridImport.value, Fetched(gridExport), Fetched(batteryCharged), Fetched(batteryDischarged))
  {
    if !configured {
      return None;
    }
    if solar.None? || solar.value == [] || gridImport.None? || gridImport.value == [] {
      return None;
    }
    var hourly := new HourlySolar();
    hourly.ProcessCumulative(solar.value, Solar);
    hourly.ProcessCumulative(gridImport.value, GridImport);
    hourly.ProcessCumulative(Fetched(gridExport), GridExport);
    hourly.ProcessCumulative(Fetched(batteryCharged), BatteryCharge);
    hourly.ProcessCumulative(Fetched(batteryDischarged), BatteryDischarge);
    r := Some(hourly.buckets);
  }

  /** A failed fetch contributes nothing, like an empty history. */
  function Fetched(h: Option<seq<HistoryEntry>>): seq<HistoryEntry>
  {
    if h.None? then [] else h.value
  }

  function BuildSpec(solar: seq<HistoryEntry>, gridImport: seq<HistoryEntry>, gridExport: seq<HistoryEntry>,
                     batteryCharged: seq<HistoryEntry>, batteryDischarged: seq<HistoryEntry>): Buckets
  {
    var b1 := Spread(map[], solar, Solar);
    var b2 := Spread(b1, gridImport, GridImport);
    var b3 := Spread(b2, gridExport, GridExport);
    var b4 := Spread(b3, batteryCharged, BatteryCharge);
    Spread(b4, batteryDischarged, BatteryDischarge)
  }

  // -----------------------------------------------------------------------
  // Conservation: the energy credited is exactly the counters' rise
  // -----------------------------------------------------------------------

  /** One field across all buckets. */
  function FieldMap(b: Buckets, f: Field): (m: map<int, real>)
    ensures m.Keys == b.Keys
  {
    map s | s in b :: b[s].Get(f)
  }

  ghost function FieldTotal(b: Buckets, f: Field): real
  {
    SumValues(FieldMap(b, f))
  }

  lemma {:induction false} FieldMapAddAt(b: Buckets, slot: int, f: Field, x: real, g: Field)
    ensures FieldMap(AddAt(b, slot, f, x), g) == FieldMap(b, g)[slot := BucketOf(b, slot).Add(f, x).Get(g)]
  {
    var l, r := FieldMap(AddAt(b, slot, f, x), g), FieldMap(b, g)[slot := BucketOf(b, slot).Add(f, x).Get(g)];
    assert l.Keys == r.Keys;
    forall s | s in l ensures l[s] == r[s] {
      if s != slot {
        assert l[s] == b[s].Get(g);
      }
    }
  }

  /** Crediting `x` to one field of one bucket raises that field's total by
      `x` and leaves every other field's total as it was. */
  lemma {:induction false} AddAtTotals(b: Buckets, slot: int, f: Field, x: real)
    ensures forall g :: FieldTotal(AddAt(b, slot, f, x), g) == FieldTotal(b, g) + (if g == f then x else 0.0)
  {
    forall g ensures FieldTotal(AddAt(b, slot, f, x), g) == FieldTotal(b, g) + (if g == f then x else 0.0) {
      var m := FieldMap(b, g);
      var v := BucketOf(b, slot).Add(f, x).Get(g);
      FieldMapAddAt(b, slot, f, x, g);
      SumValuesUpdate(m, slot, v);
      if slot in b {
        assert m[slot] == BucketOf(b, slot).Get(g);
      }
    }
  }

  lemma {:induction false} PortionsAdd(delta: real, a: int, m: int, c: int, total: int)
    requires total > 0
    ensures Portion(delta, a, m, total) + Portion(delta, m, c, total) == Portion(delta, a, c, total)
  {
    var T := total as real;
    assert (m - a) as real / T + (c - m) as real / T == (c - a) as real / T;
  }

  lemma {:induction false} PortionWhole(delta: real, a: int, c: int)
    requires a < c
    ensures Portion(delta, a, c, c - a) == delta
  {
    assert (c - a) as real / (c - a) as real == 1.0;
  }

  /** The walk from `t` to `curr` credits exactly the portion of `delta` for
      that time to the walked field and nothing to the others. */
  lemma {:induction false} WalkTotals(b: Buckets, t: int, curr: int, f: Field, delta: real, total: int)
    requires total > 0 && t <= curr
    ensures forall g ::
      FieldTotal(Walk(b, t, curr, f, delta, total), g) == FieldTotal(b, g) + (if g == f then Portion(delta, t, curr, total) else 0.0)
    decreases curr - t
  {
    if t < curr {
      var e := NextCut(t, curr);
      var p := Portion(delta, t, e, total);
      AddAtTotals(b, Calendar.HourSlot(t), f, p);
      WalkTotals(AddAt(b, Calendar.HourSlot(t), f, p), e, curr, f, delta, total);
      PortionsAdd(delta, t, e, curr, total);
    } else {
      assert Portion(delta, t, curr, total) == 0.0;
    }
  }

  /** What a pair of time-ordered readings adds: the rise of the counter, or
      nothing when it did not rise. */
  function Rise(prev: Sample, curr: Sample): real
  {
    if curr.value - prev.value > 0.0 then curr.value - prev.value else 0.0
  }

  lemma {:induction false} PairTotals(b: Buckets, prev: Sample, curr: Sample, f: Field)
    requires prev.time <= curr.time
    ensures forall g :: FieldTotal(ApplyPair(b, prev, curr, f), g) == FieldTotal(b, g) + (if g == f then Rise(prev, curr) else 0.0)
  {
    if curr.value - prev.value <= 0.0 {
      PairTotalsFlat(b, prev, curr, f);
    } else if Calendar.HourSlot(prev.time) == Calendar.HourSlot(curr.time) {
      PairTotalsSameHour(b, prev, curr, f);
    } else {
      PairTotalsWalk(b, prev, curr, f);
    }
  }

  lemma {:induction false} PairTotalsFlat(b: Buckets, prev: Sample, curr: Sample, f: Field)
    requires curr.value - prev.value <= 0.0
    ensures forall g :: FieldTotal(ApplyPair(b, prev, curr, f), g) == FieldTotal(b, g) + (if g == f then Rise(prev, curr) else 0.0)
  {
    ApplyPairCases(b, prev, curr, f);
  }

  lemma {:induction false} PairTotalsSameHour(b: Buckets, prev: Sample, curr: Sample, f: Field)
    requires curr.value - prev.value > 0.0 && Calendar.HourSlot(prev.time) == Calendar.HourSlot(curr.time)
    ensures forall g :: FieldTotal(ApplyPair(b, prev, curr, f), g) == FieldTotal(b, g) + (if g == f then Rise(prev, curr) else 0.0)
  {
    ApplyPairCases(b, prev, curr, f);
    AddAtTotals(b, Calendar.HourSlot(curr.time), f, curr.value - prev.value);
  }

  lemma {:induction false} PairTotalsWalk(b: Buckets, prev: Sample, curr: Sample, f: Field)
    requires prev.time <= curr.time
    requires curr.value - prev.value > 0.0 && Calendar.HourSlot(prev.time) != Calendar.HourSlot(curr.time)
    ensures forall g :: FieldTotal(ApplyPair(b, prev, curr, f), g) == FieldTotal(b, g) + (if g == f then Rise(prev, curr) else 0.0)
  {
    var delta := curr.value - prev.value;
    assert prev.time < curr.time;
    var total := curr.time - prev.time;
    ApplyPairCases(b, prev, curr, f);
    var w := Walk(b, prev.time, curr.time, f, delta, total);
    assert ApplyPair(b, prev, curr, f) == w;
    WalkTotals(b, prev.time, curr.time, f, delta, total);
    PortionWhole(delta, prev.time, curr.time);
    assert Rise(prev, curr) == Portion(delta, prev.time, curr.time, total);
    forall g ensures FieldTotal(w, g) == FieldTotal(b, g) + (if g == f then Rise(prev, curr) else 0.0) {
    }
  }

  /** The sum of the rises between consecutive readings. */
  function Rises(rs: seq<Sample>): real
  {
    if |rs| < 2 then 0.0 else Rises(rs[..|rs| - 1]) + Rise(rs[|rs| - 2], rs[|rs| - 1])
  }

  /** On time-ordered readings, the field's total grows by exactly the sum of
      the counter's rises; the other fields' totals do not change. */
  lemma {:induction false} ApplyAllTotals(b: Buckets, rs: seq<Sample>, f: Field)
    requires SortedBy(rs, SampleTime)
    ensures forall g :: FieldTotal(ApplyAll(b, rs, f), g) == FieldTotal(b, g) + (if g == f then Rises(rs) else 0.0)
  {
    if |rs| >= 2 {
      var init := rs[..|rs| - 1];
      assert SortedBy(init, SampleTime) by {
        forall i, j | 0 <= i < j < |init| ensures SampleTime(init[i]) <= SampleTime(init[j]) {
          assert init[i] == rs[i] && init[j] == rs[j];
        }
      }
      ApplyAllTotals(b, init, f);
      assert SampleTime(rs[|rs| - 2]) <= SampleTime(rs[|rs| - 1]);
      PairTotals(ApplyAll(b, init, f), rs[|rs| - 2], rs[|rs| - 1], f);
    }
  }

  /** `process_cumulative` credits each field with exactly the rises of its
      own counter, read in time order, and leaves the other fields' totals. */
  lemma {:induction false} SpreadTotals(b: Buckets, history: seq<HistoryEntry>, f: Field)
    ensures forall g :: FieldTotal(Spread(b, history, f), g) == FieldTotal(b, g) + (if g == f then Rises(Sorted(history)) else 0.0)
  {
    SortByFacts(Samples(history), SampleTime);
    ApplyAllTotals(b, Sorted(history), f);
  }

  /** Every field of the built buckets holds exactly the rises of its own
      counter. */
  lemma {:induction false} BuildTotals(solar: seq<HistoryEntry>, gridImport: seq<HistoryEntry>, gridExport: seq<HistoryEntry>,
                    batteryCharged: seq<HistoryEntry>, batteryDischarged: seq<HistoryEntry>)
    ensures var b := BuildSpec(solar, gridImport, gridExport, batteryCharged, batteryDischarged);
      && FieldTotal(b, Solar) == Rises(Sorted(solar))
      && FieldTotal(b, GridImport) == Rises(Sorted(gridImport))
      && FieldTotal(b, GridExport) == Rises(Sorted(gridExport))
      && FieldTotal(b, BatteryCharge) == Rises(Sorted(batteryCharged))
      && FieldTotal(b, BatteryDischarge) == Rises(Sorted(batteryDischarged))
  {
    var b0: Buckets := map[];
    assert forall g :: FieldMap(b0, g) == map[];
    assert forall g :: FieldTotal(b0, g) == 0.0;
    var b1 := Spread(b0, solar, Solar);
    SpreadTotals(b0, solar, Solar);
    var b2 := Spread(b1, gridImport, GridImport);
    SpreadTotals(b1, gridImport, GridImport);
    var b3 := Spread(b2, gridExport, GridExport);
    SpreadTotals(b2, gridExport, GridExport);
    var b4 := Spread(b3, batteryCharged, BatteryCharge);
    SpreadTotals(b3, batteryCharged, BatteryCharge);
    SpreadTotals(b4, batteryDischarged, BatteryDischarge);
  }

  // -----------------------------------------------------------------------
  // Each step only adds, and only to the hours it spans
  // -----------------------------------------------------------------------

  /** `b'` has every bucket of `b`; in each bucket the field `f` did not
      decrease and every other field is unchanged (a new bucket counts as
      starting from zero). */
  ghost predicate Grows(b: Buckets, b': Buckets, f: Field)
  {
    && b.Keys <= b'.Keys
    && (forall s :: s in b' ==> b'[s].Get(f) >= BucketOf(b, s).Get(f))
    && (forall s, g :: s in b' && g != f ==> b'[s].Get(g) == BucketOf(b, s).Get(g))
  }

  /** Only the slots lo..hi may have been created or changed. */
  ghost predicate OnlyIn(b: Buckets, b': Buckets, lo: int, hi: int)
  {
    forall s :: s < lo || s > hi ==> (s in b' <==> s in b) && (s in b ==> b'[s] == b[s])
  }

  lemma {:induction false} WalkGrows(b: Buckets, t: int, curr: int, f: Field, delta: real, total: int)
    requires total > 0 && delta > 0.0 && t < curr
    ensures Grows(b, Walk(b, t, curr, f, delta, total), f)
    ensures OnlyIn(b, Walk(b, t, curr, f, delta, total), Calendar.HourSlot(t), Calendar.HourSlot(curr))
    decreases curr - t
  {
    var e := NextCut(t, curr);
    var slot := Calendar.HourSlot(t);
    var p := Portion(delta, t, e, total);
    assert p > 0.0 by {
      assert (e - t) as real / total as real > 0.0;
    }
    var b1 := AddAt(b, slot, f, p);
    AddAtGrows(b, slot, f, p);
    Calendar.HourSlotMonotone(t, curr);
    assert Walk(b, t, curr, f, delta, total) == Walk(b1, e, curr, f, delta, total);
    if e < curr {
      var w := Walk(b1, e, curr, f, delta, total);
      WalkGrows(b1, e, curr, f, delta, total);
      Calendar.HourSlotMonotone(e, curr);
      GrowsTransitive(b, b1, w, f);
      OnlyInTransitive(b, b1, w, slot, Calendar.HourSlot(curr));
    } else {
      assert Walk(b1, e, curr, f, delta, total) == b1;
    }
  }

  /** Adding a positive amount at `slot` grows that field there and nowhere else. */
  lemma {:induction false} AddAtGrows(b: Buckets, slot: int, f: Field, x: real)
    requires x > 0.0
    ensures Grows(b, AddAt(b, slot, f, x), f)
    ensures OnlyIn(b, AddAt(b, slot, f, x), slot, slot)
  {
  }

  lemma {:induction false} OnlyInTransitive(b1: Buckets, b2: Buckets, b3: Buckets, lo: int, hi: int)
    requires lo <= hi && OnlyIn(b1, b2, lo, lo) && OnlyIn(b2, b3, lo, hi)
    ensures OnlyIn(b1, b3, lo, hi)
  {
  }

  /** A step between two time-ordered readings only adds to its field, and
      only in the hours from the earlier reading's to the later one's; a
      same-hour rise lands wholly in that hour. */
  lemma {:induction false} PairGrows(b: Buckets, prev: Sample, curr: Sample, f: Field)
    requires prev.time <= curr.time
    ensures Grows(b, ApplyPair(b, prev, curr, f), f)
    ensures OnlyIn(b, ApplyPair(b, prev, curr, f), Calendar.HourSlot(prev.time), Calendar.HourSlot(curr.time))
    ensures curr.value - prev.value <= 0.0 ==> ApplyPair(b, prev, curr, f) == b
    ensures curr.value - prev.value > 0.0 && Calendar.HourSlot(prev.time) == Calendar.HourSlot(curr.time) ==>
      ApplyPair(b, prev, curr, f)[Calendar.HourSlot(curr.time)].Get(f) == BucketOf(b, Calendar.HourSlot(curr.time)).Get(f) + (curr.value - prev.value)
  {
    var delta := curr.value - prev.value;
    Calendar.HourSlotMonotone(prev.time, curr.time);
    if delta > 0.0 && Calendar.HourSlot(prev.time) != Calendar.HourSlot(curr.time) {
      WalkGrows(b, prev.time, curr.time, f, delta, curr.time - prev.time);
    }
  }

  lemma {:induction false} GrowsTransitive(b1: Buckets, b2: Buckets, b3: Buckets, f: Field)
    requires Grows(b1, b2, f) && Grows(b2, b3, f)
    ensures Grows(b1, b3, f)
  {
    forall s | s in b3 ensures b3[s].Get(f) >= BucketOf(b1, s).Get(f) {
      assert BucketOf(b2, s).Get(f) >= BucketOf(b1, s).Get(f);
    }
    forall s, g | s in b3 && g != f ensures b3[s].Get(g) == BucketOf(b1, s).Get(g) {
      assert BucketOf(b2, s).Get(g) == BucketOf(b1, s).Get(g);
    }
  }

  /** `process_cumulative` only ever adds to its own field. */
  lemma {:induction false} ApplyAllGrows(b: Buckets, rs: seq<Sample>, f: Field)
    requires SortedBy(rs, SampleTime)
    ensures Grows(b, ApplyAll(b, rs, f), f)
  {
    if |rs| >= 2 {
      var init := rs[..|rs| - 1];
      assert SortedBy(init, SampleTime) by {
        forall i, j | 0 <= i < j < |init| ensures SampleTime(init[i]) <= SampleTime(init[j]) {
          assert init[i] == rs[i] && init[j] == rs[j];
        }
      }
      ApplyAllGrows(b, init, f);
      assert SampleTime(rs[|rs| - 2]) <= SampleTime(rs[|rs| - 1]);
      PairGrows(ApplyAll(b, init, f), rs[|rs| - 2], rs[|rs| - 1], f);
      GrowsTransitive(b, ApplyAll(b, init, f), ApplyAll(b, rs, f), f);
    }
  }

  ghost predicate NonNegative(b: Buckets)
  {
    forall s, g :: s in b ==> b[s].Get(g) >= 0.0
  }

  /** Buckets built from nothing never hold a negative amount. */
  lemma {:induction false} BuildNonNegative(solar: seq<HistoryEntry>, gridImport: seq<HistoryEntry>, gridExport: seq<HistoryEntry>,
                         batteryCharged: seq<HistoryEntry>, batteryDischarged: seq<HistoryEntry>)
    ensures NonNegative(BuildSpec(solar, gridImport, gridExport, batteryCharged, batteryDischarged))
  {
    var b0: Buckets := map[];
    var b1 := Spread(b0, solar, Solar);
    SpreadNonNegative(b0, solar, Solar);
    var b2 := Spread(b1, gridImport, GridImport);
    SpreadNonNegative(b1, gridImport, GridImport);
    var b3 := Spread(b2, gridExport, GridExport);
    SpreadNonNegative(b2, gridExport, GridExport);
    var b4 := Spread(b3, batteryCharged, BatteryCharge);
    SpreadNonNegative(b3, batteryCharged, BatteryCharge);
    SpreadNonNegative(b4, batteryDischarged, BatteryDischarge);
  }

  lemma {:induction false} SpreadNonNegative(b: Buckets, history: seq<HistoryEntry>, f: Field)
    requires NonNegative(b)
    ensures NonNegative(Spread(b, history, f))
  {
    SortByFacts(Samples(history), SampleTime);
    ApplyAllGrows(b, Sorted(history), f);
    var b' := Spread(b, history, f);
    forall s, g | s in b' ensures b'[s].Get(g) >= 0.0 {
      assert BucketOf(b, s).Get(g) >= 0.0;
    }
  }
}
