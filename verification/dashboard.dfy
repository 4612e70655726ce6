/** The numeric pieces of the dashboard server (app.py): the TTL cache, the
    "today" view built from eGauge readings (row count, partial-hour append,
    earlier-labelled differencing, date filter, per-hour and per-circuit
    totals), the ranked shift-to-off-peak opportunities and the live
    supply-side source mix. */
module Dashboard {
  import opened Util
  import opened Config
  import Calendar
  import opened Readings
  import Aggregates

  // -----------------------------------------------------------------------
  // The TTL cache
  // -----------------------------------------------------------------------

  /** `DataCache`: a value and the clock reading it was stored at, per key.
      The clock is passed in as `now` (seconds). */
  class DataCache<V> {
    var data: map<string, V>
    var stamps: map<string, real>

    constructor()
      ensures data == map[] && stamps == map[]
    {
      data := map[];
      stamps := map[];
    }

    /** `get(key, ttl_seconds)`: the stored value while it is younger than
        the TTL, else nothing. */
    function Get(key: string, ttl: real, now: real): (r: Option<V>)
      reads this
      ensures r.Some? <==> key in data && key in stamps && now - stamps[key] < ttl
      ensures r.Some? ==> r.value == data[key]
    {
      if key in data && key in stamps && now - stamps[key] < ttl then Some(data[key]) else None
    }

    /** `set(key, value)`: overwrites that key's value and stamp. Right after,
        any positive TTL serves the new value, and what every other key
        serves is unchanged. */
    method Set(key: string, value: V, now: real)
      modifies this
      ensures data == old(data)[key := value] && stamps == old(stamps)[key := now]
      ensures forall ttl :: ttl > 0.0 ==> Get(key, ttl, now) == Some(value)
      ensures forall k, ttl, t :: k != key ==> Get(k, ttl, t) == old(Get(k, ttl, t))
    {
      data := data[key := value];
      stamps := stamps[key := now];
    }
  }

  /** A stored entry expires exactly when its age reaches the TTL, whatever
      else the cache holds. */
  lemma {:induction false} CacheExpiry<V>(c: DataCache<V>, key: string, value: V, storedAt: real, ttl: real, now: real)
    requires key in c.data && key in c.stamps && c.data[key] == value && c.stamps[key] == storedAt
    ensures c.Get(key, ttl, now) == Some(value) <==> now - storedAt < ttl
    ensures now - storedAt >= ttl ==> c.Get(key, ttl, now) == None
  {
  }

  // -----------------------------------------------------------------------
  // How many rows to request
  // -----------------------------------------------------------------------

  /** `n_rows` of the hourly request: today the hours so far plus two,
      for a past day one day more than the days back plus today's hours
      plus three. */
  function RowCount(isToday: bool, daysAgo: int, nowHour: int): int
  {
    if isToday then (nowHour + 1) + 2 else (daysAgo + 1) * 24 + nowHour + 3
  }

  /** eGauge answers a request for n rows with the n - 1 most recent hourly
      readings, the newest at the start of the current hour (hour slot
      `last`). Today those readings start one slot before midnight, so every
      hour of the day has its earlier reading; for a past day they start
      before its midnight and reach past its end. */
  lemma {:induction false} RowsCoverTargetDay(nowDate: int, nowHour: int, target: int)
    requires 0 <= nowHour < 24 && target <= nowDate
    ensures var n := RowCount(target == nowDate, nowDate - target, nowHour);
            var last := Calendar.SlotOf(nowDate, nowHour);
            var first := last - (n - 2);
            && n >= 3
            && (target == nowDate ==> first == Calendar.SlotOf(target, 0) - 1)
            && (target < nowDate ==> first < Calendar.SlotOf(target, 0) && Calendar.SlotOf(target + 1, 0) <= last)
  {
  }

  // -----------------------------------------------------------------------
  // Circuit names
  // -----------------------------------------------------------------------

  const UnitSuffix: string := " [kWh]"

  /** `s.replace(pat, "")`: every non-overlapping occurrence, scanning left
      to right, is removed. */
  function RemoveAll(s: string, pat: string): string
    requires |pat| > 0
    decreases |s|
  {
    if |s| < |pat| then s
    else if s[..|pat|] == pat then RemoveAll(s[|pat|..], pat)
    else [s[0]] + RemoveAll(s[1..], pat)
  }

  /** The display name of a register: `key.replace(" [kWh]", "")`. */
  function CircuitName(key: string): string
  {
    RemoveAll(key, UnitSuffix)
  }

  /** `pat` starts at position `i` of `s`. */
  predicate OccursAt(s: string, i: int, pat: string)
  {
    0 <= i && i + |pat| <= |s| && s[i..i + |pat|] == pat
  }

  ghost predicate Occurs(s: string, pat: string)
  {
    exists i :: OccursAt(s, i, pat)
  }

  /** Only the first character of " [kWh]" is a blank, so no proper suffix of
      it is also a prefix of it. */
  lemma {:induction false} SuffixHasOneBlank()
    ensures UnitSuffix[0] == ' '
    ensures forall j :: 1 <= j < |UnitSuffix| ==> UnitSuffix[j] != ' '
  {
    assert UnitSuffix == [' ', '[', 'k', 'W', 'h', ']'];
  }

  /** " [kWh]" cannot start inside a shorter name and run on into the
      suffix itself. */
  lemma {:induction false} NoSelfOverlap(name: string)
    requires 0 < |name| < |UnitSuffix|
    ensures (name + UnitSuffix)[..|UnitSuffix|] != UnitSuffix
  {
    SuffixHasOneBlank();
    var s := name + UnitSuffix;
    var j := |name|;
    assert s[j] == ' ';
    assert UnitSuffix[j] != ' ';
    assert s[..|UnitSuffix|][j] == s[j];
  }

  lemma {:induction false} OccursAtStart(name: string)
    requires |name| >= |UnitSuffix| && (name + UnitSuffix)[..|UnitSuffix|] == UnitSuffix
    ensures Occurs(name, UnitSuffix)
  {
    assert name[0..|UnitSuffix|] == (name + UnitSuffix)[..|UnitSuffix|];
    assert OccursAt(name, 0, UnitSuffix);
  }

  lemma {:induction false} OccursInTail(name: string)
    requires |name| > 0 && Occurs(name[1..], UnitSuffix)
    ensures Occurs(name, UnitSuffix)
  {
    var rest := name[1..];
    var i :| OccursAt(rest, i, UnitSuffix);
    assert name[i + 1..i + 1 + |UnitSuffix|] == rest[i..i + |UnitSuffix|];
    assert OccursAt(name, i + 1, UnitSuffix);
  }

  /** A register named "<name> [kWh]" is shown as "<name>" whenever the name
      itself does not contain " [kWh]". */
  lemma {:induction false} NameOfRegister(name: string)
    requires !Occurs(name, UnitSuffix)
    ensures CircuitName(name + UnitSuffix) == name
    decreases |name|
  {
    var s := name + UnitSuffix;
    if s[..|UnitSuffix|] == UnitSuffix {
      if |name| >= |UnitSuffix| {
        OccursAtStart(name);
        assert false;
      } else if |name| > 0 {
        NoSelfOverlap(name);
        assert false;
      } else {
        assert name == [] && s[|UnitSuffix|..] == [];
        assert RemoveAll(s, UnitSuffix) == RemoveAll([], UnitSuffix) == [];
      }
    } else {
      assert |name| > 0;
      var rest := name[1..];
      if Occurs(rest, UnitSuffix) {
        OccursInTail(name);
        assert false;
      }
      NameOfRegister(rest);
      assert s[1..] == rest + UnitSuffix;
    }
  }

  // -----------------------------------------------------------------------
  // The partial hour
  // -----------------------------------------------------------------------

  /** The minute-resolution reading is strictly newer than the newest hourly
      row. */
  predicate NewerReading(rows: seq<Reading>, current: seq<Reading>)
  {
    |rows| > 0 && |current| > 0 && current[|current| - 1].timestamp > rows[|rows| - 1].timestamp
  }

  /** Today only, the last row of the minute response (in response order) is
      appended when it is newer than the last hourly row. `current` is None
      when there is no such response or it failed to parse. */
  function AppendPartial(rows: seq<Reading>, isToday: bool, current: Option<seq<Reading>>): seq<Reading>
  {
    if isToday && current.Some? && NewerReading(rows, current.value)
    then rows + [current.value[|current.value| - 1]]
    else rows
  }

  /** The rows grow by exactly the newer minute reading or stay as they are,
      and oldest-first order is kept. */
  lemma {:induction false} AppendPartialKeepsOrder(rows: seq<Reading>, isToday: bool, current: Option<seq<Reading>>)
    requires Chronological(rows)
    ensures var r := AppendPartial(rows, isToday, current);
      && Chronological(r)
      && (|r| == |rows| + 1 <==> isToday && current.Some? && NewerReading(rows, current.value))
      && r[..|rows|] == rows
      && (|r| == |rows| + 1 ==> r[|rows|] == current.value[|current.value| - 1])
      && (|r| != |rows| + 1 ==> r == rows)
  {
    var r := AppendPartial(rows, isToday, current);
    if |r| == |rows| + 1 {
      forall i, j | 0 <= i < j < |r| ensures TimeKey(r[i]) <= TimeKey(r[j]) {
        if j == |rows| {
          assert TimeKey(r[i]) <= TimeKey(rows[|rows| - 1]);
        }
      }
    }
  }

  // -----------------------------------------------------------------------
  // Earlier-labelled differencing
  // -----------------------------------------------------------------------

  datatype CircuitUse = CircuitUse(kwh: real, cost: real)

  /** One entry of `hourly` in `fetch_egauge_today`, keyed by register. */
  datatype DayEntry = DayEntry(
    hour: int,
    date: int,
    tou: Period,
    circuits: map<string, CircuitUse>,
    totalKwh: real,
    totalCost: real)

  datatype Measure = Energy | Money

  function Amount(u: CircuitUse, f: Measure): real
  {
    match f
    case Energy => u.kwh
    case Money => u.cost
  }

  /** One column (kWh or $) of a circuit map. */
  function Amounts(m: map<string, CircuitUse>, f: Measure): (a: map<string, real>)
    ensures a.Keys == m.Keys
  {
    map k | k in m :: Amount(m[k], f)
  }

  lemma {:induction false} AmountsUpdate(m: map<string, CircuitUse>, k: string, u: CircuitUse, f: Measure)
    ensures Amounts(m[k := u], f) == Amounts(m, f)[k := Amount(u, f)]
  {
  }

  lemma {:induction false} AmountsRemove(m: map<string, CircuitUse>, k: string, f: Measure)
    ensures Amounts(m - {k}, f) == Amounts(m, f) - {k}
  {
  }

  /** The rate of the hour an entry is labelled with:
      `get_rate(prev["datetime"], get_tou_period(prev["hour"]))`. */
  function EntryRate(prev: Reading): real
  {
    Rate(Calendar.DateOf(prev.timestamp), TouPeriod(prev.hour))
  }

  /** One circuit of an entry: its kWh and their cost at `rate`. */
  function Costed(kwh: real, rate: real): (u: CircuitUse)
    ensures u.kwh == kwh && u.cost == kwh * rate
    ensures kwh >= 0.0 && rate >= 0.0 ==> u.cost >= 0.0
  {
    CircuitUse(kwh, kwh * rate)
  }

  /** The circuit map of one entry: |curr - prev| kWh for every circuit
      register, costed at the earlier reading's rate. */
  function Uses(prev: Reading, curr: Reading): (u: map<string, CircuitUse>)
    requires CanDiff(prev, curr)
    ensures u.Keys == CircuitKeys(curr)
  {
    map k | k in CircuitKeys(curr) :: Costed(Abs(curr.values[k] - prev.values[k]), EntryRate(prev))
  }

  /** The dashboard labels the consumption between two readings with the
      EARLIER reading's hour, date and TOU period. */
  ghost function EarlierLabelled(prev: Reading, curr: Reading): DayEntry
    requires CanDiff(prev, curr)
  {
    var u := Uses(prev, curr);
    DayEntry(prev.hour, prev.date, TouPeriod(prev.hour), u,
             SumValues(Amounts(u, Energy)), SumValues(Amounts(u, Money)))
  }

  /** Every circuit of an entry carries |curr - prev| >= 0 kWh of a circuit
      register, costed at the rate of the earlier reading; the entry is
      labelled with the earlier reading. */
  lemma {:induction false} EntryCircuits(prev: Reading, curr: Reading)
    requires CanDiff(prev, curr)
    ensures var e := EarlierLabelled(prev, curr);
      && e.hour == prev.hour && e.date == prev.date && e.tou == TouPeriod(prev.hour)
      && e.circuits.Keys == CircuitKeys(curr)
      && (forall k :: k in e.circuits ==>
            && IsKwhKey(k) && k !in ExcludeRegisters
            && e.circuits[k] == Costed(Delta(prev, curr)[k], EntryRate(prev))
            && e.circuits[k].kwh >= 0.0 && e.circuits[k].cost >= 0.0)
  {
  }

  /** Both totals of an entry are non-negative. */
  lemma {:induction false} EntryTotalsNonNegative(prev: Reading, curr: Reading)
    requires CanDiff(prev, curr)
    ensures EarlierLabelled(prev, curr).totalKwh >= 0.0
    ensures EarlierLabelled(prev, curr).totalCost >= 0.0
  {
    var u := Uses(prev, curr);
    forall k | k in u ensures Amounts(u, Energy)[k] >= 0.0 && Amounts(u, Money)[k] >= 0.0 {
    }
    SumValuesNonNegative(Amounts(u, Energy));
    SumValuesNonNegative(Amounts(u, Money));
  }

  /** Adding a new circuit adds its amount to the column sum. */
  lemma {:induction false} AddCircuit(m: map<string, CircuitUse>, k: string, u: CircuitUse, f: Measure)
    requires k !in m
    ensures SumValues(Amounts(m[k := u], f)) == SumValues(Amounts(m, f)) + Amount(u, f)
  {
    AmountsUpdate(m, k, u, f);
    SumValuesUpdate(Amounts(m, f), k, Amount(u, f));
  }

  /** `sum(c["cost"] for c in circuits.values())`. */
  method SumColumn(m: map<string, CircuitUse>, f: Measure) returns (s: real)
    ensures s == SumValues(Amounts(m, f))
  {
    s := 0.0;
    var left := m;
    while left != map[]
      invariant s + SumValues(Amounts(left, f)) == SumValues(Amounts(m, f))
      decreases |left|
    {
      var k :| k in left;
      SumValuesRemove(Amounts(left, f), k);
      AmountsRemove(left, k, f);
      s := s + Amount(left[k], f);
      left := left - {k};
    }
    assert Amounts(left, f) == map[];
  }

  /** The part of a circuit map whose keys have been visited. */
  function Visited(uses: map<string, CircuitUse>, keys: set<string>): map<string, CircuitUse>
  {
    map k | k in uses && k !in keys :: uses[k]
  }

  lemma {:induction false} VisitedNone(uses: map<string, CircuitUse>)
    ensures Visited(uses, {}) == uses
  {
  }

  lemma {:induction false} VisitOne(uses: map<string, CircuitUse>, keys: set<string>, k: string)
    requires k in keys
    ensures Visited(uses, keys - {k}) == if k in uses then Visited(uses, keys)[k := uses[k]] else Visited(uses, keys)
  {
  }

  /** One pass of the diff loop: the entry for `prev`/`curr`. The kWh total
      is kept as a running sum over the circuit registers, the cost total is
      summed over the finished circuit map. */
  method DiffEntry(prev: Reading, curr: Reading) returns (e: DayEntry)
    requires CanDiff(prev, curr)
    ensures e == EarlierLabelled(prev, curr)
  {
    var tou := TouPeriod(prev.hour);
    var rate := Rate(Calendar.DateOf(prev.timestamp), tou);
    assert rate == EntryRate(prev);
    var circuits: map<string, CircuitUse> := map[];
    var totalKwh := 0.0;
    assert Amounts(circuits, Energy) == map[];
    var keys := curr.values.Keys;
    while keys != {}
      invariant keys <= curr.values.Keys
      invariant circuits == Visited(Uses(prev, curr), keys)
      invariant totalKwh == SumValues(Amounts(circuits, Energy))
      decreases keys
    {
      var k :| k in keys;
      DiffStep(prev, curr, keys, k, circuits, totalKwh);
      if IsCircuit(k) {
        var u := Costed(Abs(curr.values[k] - prev.values[k]), rate);
        circuits := circuits[k := u];
        totalKwh := totalKwh + u.kwh;
      }
      keys := keys - {k};
    }
    VisitedNone(Uses(prev, curr));
    var totalCost := SumColumn(circuits, Money);
    e := DayEntry(prev.hour, prev.date, tou, circuits, totalKwh, totalCost);
    EntryIsEarlierLabelled(prev, curr, e);
  }

  /** Visiting register `k` in the diff loop: a circuit register is added
      with its costed difference, any other key is skipped. */
  lemma {:induction false} DiffStep(prev: Reading, curr: Reading, keys: set<string>, k: string,
                                    circuits: map<string, CircuitUse>, totalKwh: real)
    requires CanDiff(prev, curr) && k in keys && keys <= curr.values.Keys
    requires circuits == Visited(Uses(prev, curr), keys) && totalKwh == SumValues(Amounts(circuits, Energy))
    ensures IsCircuit(k) ==>
      var u := Costed(Abs(curr.values[k] - prev.values[k]), EntryRate(prev));
      && circuits[k := u] == Visited(Uses(prev, curr), keys - {k})
      && totalKwh + u.kwh == SumValues(Amounts(circuits[k := u], Energy))
    ensures !IsCircuit(k) ==> circuits == Visited(Uses(prev, curr), keys - {k})
  {
    var uses := Uses(prev, curr);
    VisitOne(uses, keys, k);
    if IsCircuit(k) {
      var u := Costed(Abs(curr.values[k] - prev.values[k]), EntryRate(prev));
      assert k in CircuitKeys(curr) && u == uses[k];
      AddCircuit(circuits, k, u, Energy);
    }
  }

  lemma {:induction false} EntryIsEarlierLabelled(prev: Reading, curr: Reading, e: DayEntry)
    requires CanDiff(prev, curr)
    requires e.hour == prev.hour && e.date == prev.date && e.tou == TouPeriod(prev.hour)
    requires e.circuits == Uses(prev, curr)
    requires e.totalKwh == SumValues(Amounts(e.circuits, Energy)) && e.totalCost == SumValues(Amounts(e.circuits, Money))
    ensures e == EarlierLabelled(prev, curr)
  {
  }

  lemma {:induction false} DifferenceablePrefix(rows: seq<Reading>, n: nat)
    requires Differenceable(rows) && n <= |rows|
    ensures Differenceable(rows[..n])
  {
    forall i | 0 < i < n ensures CanDiff(rows[..n][i - 1], rows[..n][i]) {
      assert rows[..n][i - 1] == rows[i - 1] && rows[..n][i] == rows[i];
    }
  }

  /** The entries of `fetch_egauge_today`'s diff loop: one per adjacent
      pair of rows, none for fewer than two rows. */
  ghost function Diffs(rows: seq<Reading>): seq<DayEntry>
    requires Differenceable(rows)
    decreases |rows|
  {
    if |rows| < 2 then []
    else
      var n := |rows|;
      DifferenceablePrefix(rows, n - 1);
      Diffs(rows[..n - 1]) + [EarlierLabelled(rows[n - 2], rows[n - 1])]
  }

  /** Entry i differences rows i and i + 1 and is labelled with row i. */
  lemma {:induction false} DiffsShape(rows: seq<Reading>)
    requires Differenceable(rows)
    ensures |Diffs(rows)| == if |rows| < 2 then 0 else |rows| - 1
    ensures forall i :: 0 <= i < |Diffs(rows)| ==> Diffs(rows)[i] == EarlierLabelled(rows[i], rows[i + 1])
    decreases |rows|
  {
    if |rows| >= 2 {
      var n := |rows|;
      var front := rows[..n - 1];
      DifferenceablePrefix(rows, n - 1);
      DiffsShape(front);
      forall i | 0 <= i < |Diffs(rows)| ensures Diffs(rows)[i] == EarlierLabelled(rows[i], rows[i + 1]) {
        if i < n - 2 {
          assert Diffs(rows)[i] == Diffs(front)[i];
          assert front[i] == rows[i] && front[i + 1] == rows[i + 1];
        }
      }
    }
  }

  /** The diff loop of `fetch_egauge_today`. */
  method DiffHours(rows: seq<Reading>) returns (hourly: seq<DayEntry>)
    requires Differenceable(rows)
    ensures hourly == Diffs(rows)
  {
    hourly := [];
    if |rows| == 0 {
      return;
    }
    DifferenceablePrefix(rows, 1);
    var i := 1;
    while i < |rows|
      invariant 1 <= i <= |rows|
      invariant Differenceable(rows[..i])
      invariant hourly == Diffs(rows[..i])
    {
      var e := DiffEntry(rows[i - 1], rows[i]);
      DifferenceablePrefix(rows, i + 1);
      assert rows[..i + 1][..i] == rows[..i];
      hourly := hourly + [e];
      i := i + 1;
    }
    assert rows[..i] == rows;
  }

  /** The two copies of the differencing agree on the energy of a pair of
      readings one hour apart, but the dashboard files it under the earlier
      hour and the batch tools under the later one. */
  lemma {:induction false} LabellingAcrossCopies(prev: Reading, curr: Reading)
    requires WellLabelled(prev) && WellLabelled(curr) && CanDiff(prev, curr)
    requires curr.timestamp == prev.timestamp + Calendar.SecondsPerHour
    ensures var e := EarlierLabelled(prev, curr);
      var h := LaterLabelled(prev, curr);
      && e.circuits.Keys == h.usage.Keys
      && (forall k :: k in e.circuits ==> e.circuits[k].kwh == h.usage[k])
      && h.hour == (e.hour + 1) % 24
      && h.date == (if e.hour == 23 then e.date + 1 else e.date)
  {
    Calendar.NextHour(prev.timestamp);
  }

  // -----------------------------------------------------------------------
  // The target day
  // -----------------------------------------------------------------------

  /** `[h for h in hourly if h["date"] == target_date_str]`. */
  function OnDate(hourly: seq<DayEntry>, date: int): (r: seq<DayEntry>)
    ensures |r| <= |hourly|
    ensures forall e :: e in r <==> e in hourly && e.date == date
    decreases |hourly|
  {
    if hourly == [] then []
    else
      var front, last := hourly[..|hourly| - 1], hourly[|hourly| - 1];
      assert hourly == front + [last];
      var rest := OnDate(front, date);
      if last.date == date then rest + [last] else rest
  }

  /** An entry whose totals are the sums over its circuits. */
  ghost predicate EntryConsistent(e: DayEntry)
  {
    && e.totalKwh == SumValues(Amounts(e.circuits, Energy))
    && e.totalCost == SumValues(Amounts(e.circuits, Money))
  }

  /** Every differenced entry is consistent, and so is every entry the date
      filter keeps. */
  lemma {:induction false} DiffsConsistent(rows: seq<Reading>, date: int)
    requires Differenceable(rows)
    ensures forall e :: e in OnDate(Diffs(rows), date) ==> EntryConsistent(e) && e.date == date
  {
    DiffsShape(rows);
    var d := Diffs(rows);
    forall e | e in OnDate(d, date) ensures EntryConsistent(e) && e.date == date {
      var i :| 0 <= i < |d| && d[i] == e;
      assert e == EarlierLabelled(rows[i], rows[i + 1]);
    }
  }

  // -----------------------------------------------------------------------
  // Ranked circuit lists
  // -----------------------------------------------------------------------

  /** One row of a circuit list; the register is kept beside its display
      name. */
  datatype Line = Line(register: string, name: string, kwh: real, cost: real)

  function LineOf(k: string, u: CircuitUse): Line
  {
    Line(k, CircuitName(k), u.kwh, u.cost)
  }

  function NegCost(l: Line): real
  {
    -l.cost
  }

  /** The entries of a circuit map as a list, one row per register, most
      expensive first (`sorted(..., key=cost, reverse=True)`). */
  predicate Ranking(list: seq<Line>, m: map<string, CircuitUse>)
  {
    && |list| == |m|
    && (forall i :: 0 <= i < |list| ==>
          list[i].register in m && list[i] == LineOf(list[i].register, m[list[i].register]))
    && (forall k :: k in m ==> LineOf(k, m[k]) in list)
    && SortedBy(list, NegCost)
  }

  /** Lists the map's entries and sorts them by cost, descending. */
  method Rank(m: map<string, CircuitUse>) returns (list: seq<Line>)
    ensures Ranking(list, m)
  {
    var items: seq<Line> := [];
    var left := m.Keys;
    while left != {}
      invariant left <= m.Keys
      invariant |items| + |left| == |m|
      invariant forall i :: 0 <= i < |items| ==>
        items[i].register in m && items[i] == LineOf(items[i].register, m[items[i].register])
      invariant forall k :: k in m && k !in left ==> LineOf(k, m[k]) in items
      decreases left
    {
      var k :| k in left;
      items := items + [LineOf(k, m[k])];
      left := left - {k};
    }
    list := SortBy(items, NegCost);
    SortByFacts(items, NegCost);
    forall i | 0 <= i < |list|
      ensures list[i].register in m && list[i] == LineOf(list[i].register, m[list[i].register])
    {
      assert list[i] in multiset(items);
    }
    forall k | k in m ensures LineOf(k, m[k]) in list {
      assert LineOf(k, m[k]) in multiset(list);
    }
  }

  /** Per-hour circuit lists leave out circuits of 0.001 kWh or less. */
  const MinCircuitKwh: real := 0.001

  function Shown(m: map<string, CircuitUse>): (r: map<string, CircuitUse>)
    ensures forall k :: k in r <==> k in m && m[k].kwh > MinCircuitKwh
  {
    map k | k in m && m[k].kwh > MinCircuitKwh :: m[k]
  }

  // -----------------------------------------------------------------------
  // Per-hour views and day totals
  // -----------------------------------------------------------------------

  /** One element of the result's `hourly` list. */
  datatype HourView = HourView(hour: int, tou: Period, cost: real, kwh: real, circuits: seq<Line>, partial: bool)

  /** The view of one entry: its labels and totals, its circuits above the
      threshold ranked by cost, and the partial flag, which marks the
      current hour of today only. */
  predicate ViewOf(v: HourView, e: DayEntry, isToday: bool, nowHour: int, date: int)
  {
    && v.hour == e.hour && v.tou == e.tou && v.cost == e.totalCost && v.kwh == e.totalKwh
    && Ranking(v.circuits, Shown(e.circuits))
    && (v.partial <==> isToday && e.hour == nowHour && e.date == date)
  }

  function EntryTotal(e: DayEntry, f: Measure): real
  {
    match f
    case Energy => e.totalKwh
    case Money => e.totalCost
  }

  /** The running `total_kwh` / `total_cost` over the day's entries. */
  function DayTotal(day: seq<DayEntry>, f: Measure): real
    decreases |day|
  {
    if day == [] then 0.0 else DayTotal(day[..|day| - 1], f) + EntryTotal(day[|day| - 1], f)
  }

  function Find(m: map<string, CircuitUse>, k: string): CircuitUse
  {
    if k in m then m[k] else CircuitUse(0.0, 0.0)
  }

  function AddUse(a: CircuitUse, b: CircuitUse): (r: CircuitUse)
    ensures forall f :: Amount(r, f) == Amount(a, f) + Amount(b, f)
  {
    CircuitUse(a.kwh + b.kwh, a.cost + b.cost)
  }

  /** `circuit_totals` after one more entry: every circuit of the entry is
      added to its running total, starting from zero. */
  function Merge(t: map<string, CircuitUse>, c: map<string, CircuitUse>): (r: map<string, CircuitUse>)
    ensures r.Keys == t.Keys + c.Keys
  {
    map k | k in t.Keys + c.Keys :: AddUse(Find(t, k), Find(c, k))
  }

  /** `circuit_totals` over a prefix of the day. */
  function CircuitTotals(day: seq<DayEntry>): map<string, CircuitUse>
    decreases |day|
  {
    if day == [] then map[] else Merge(CircuitTotals(day[..|day| - 1]), day[|day| - 1].circuits)
  }

  /** The totals after the keys `done` of `c` have been added. */
  function PartMerge(t: map<string, CircuitUse>, c: map<string, CircuitUse>, done: set<string>): map<string, CircuitUse>
  {
    map k | k in t.Keys + (done * c.Keys) ::
      if k in done && k in c then AddUse(Find(t, k), c[k]) else t[k]
  }

  lemma {:induction false} PartMergeStep(t: map<string, CircuitUse>, c: map<string, CircuitUse>, done: set<string>, k: string)
    requires k in c && k !in done
    ensures PartMerge(t, c, done + {k}) == PartMerge(t, c, done)[k := AddUse(Find(PartMerge(t, c, done), k), c[k])]
  {
    assert Find(PartMerge(t, c, done), k) == Find(t, k);
  }

  lemma {:induction false} PartMergeAll(t: map<string, CircuitUse>, c: map<string, CircuitUse>)
    ensures PartMerge(t, c, c.Keys) == Merge(t, c)
  {
    var a, b := PartMerge(t, c, c.Keys), Merge(t, c);
    assert a.Keys == b.Keys;
    forall k | k in a ensures a[k] == b[k] {
      if k !in c {
        assert b[k] == AddUse(t[k], CircuitUse(0.0, 0.0));
      }
    }
  }

  /** The inner loop over one entry's circuits. */
  method MergeInto(t: map<string, CircuitUse>, c: map<string, CircuitUse>) returns (r: map<string, CircuitUse>)
    ensures r == Merge(t, c)
  {
    r := t;
    var left := c.Keys;
    assert PartMerge(t, c, {}) == t;
    while left != {}
      invariant left <= c.Keys
      invariant r == PartMerge(t, c, c.Keys - left)
      decreases left
    {
      var k :| k in left;
      PartMergeStep(t, c, c.Keys - left, k);
      assert c.Keys - (left - {k}) == (c.Keys - left) + {k};
      r := r[k := AddUse(Find(r, k), c[k])];
      left := left - {k};
    }
    PartMergeAll(t, c);
  }

  /** The result of `fetch_egauge_today`, before rounding. */
  datatype DayReport = DayReport(date: int, totalCost: real, totalKwh: real, hourly: seq<HourView>, circuits: seq<Line>)

  /** What the report says about the day's entries. */
  predicate ReportOf(r: DayReport, day: seq<DayEntry>, isToday: bool, nowHour: int, date: int)
  {
    && r.date == date
    && |r.hourly| == |day|
    && (forall i :: 0 <= i < |day| ==> ViewOf(r.hourly[i], day[i], isToday, nowHour, date))
    && r.totalCost == DayTotal(day, Money) && r.totalKwh == DayTotal(day, Energy)
    && Ranking(r.circuits, CircuitTotals(day))
  }

  /** The per-hour list: one view per entry, in order. */
  method ViewHours(day: seq<DayEntry>, isToday: bool, nowHour: int, date: int) returns (views: seq<HourView>)
    ensures |views| == |day|
    ensures forall j :: 0 <= j < |day| ==> ViewOf(views[j], day[j], isToday, nowHour, date)
  {
    views := [];
    for i := 0 to |day|
      invariant |views| == i
      invariant forall j :: 0 <= j < i ==> ViewOf(views[j], day[j], isToday, nowHour, date)
    {
      var h := day[i];
      var list := Rank(Shown(h.circuits));
      var partial := isToday && h.hour == nowHour && h.date == date;
      views := views + [HourView(h.hour, h.tou, h.totalCost, h.totalKwh, list, partial)];
    }
  }

  lemma {:induction false} DayStep(day: seq<DayEntry>, i: nat)
    requires i < |day|
    ensures DayTotal(day[..i + 1], Money) == DayTotal(day[..i], Money) + day[i].totalCost
    ensures DayTotal(day[..i + 1], Energy) == DayTotal(day[..i], Energy) + day[i].totalKwh
    ensures CircuitTotals(day[..i + 1]) == Merge(CircuitTotals(day[..i]), day[i].circuits)
  {
    assert day[..i + 1][..i] == day[..i];
  }

  /** The running day and circuit totals. */
  method AddUpDay(day: seq<DayEntry>) returns (totalCost: real, totalKwh: real, totals: map<string, CircuitUse>)
    ensures totalCost == DayTotal(day, Money) && totalKwh == DayTotal(day, Energy)
    ensures totals == CircuitTotals(day)
  {
    totalCost, totalKwh := 0.0, 0.0;
    totals := map[];
    for i := 0 to |day|
      invariant totalCost == DayTotal(day[..i], Money) && totalKwh == DayTotal(day[..i], Energy)
      invariant totals == CircuitTotals(day[..i])
    {
      DayStep(day, i);
      totalCost := totalCost + day[i].totalCost;
      totalKwh := totalKwh + day[i].totalKwh;
      totals := MergeInto(totals, day[i].circuits);
    }
    assert day[..|day|] == day;
  }

  /** The loop over `day_hours` and the result assembly. */
  method SummarizeDay(day: seq<DayEntry>, isToday: bool, nowHour: int, date: int) returns (r: DayReport)
    ensures ReportOf(r, day, isToday, nowHour, date)
  {
    var views := ViewHours(day, isToday, nowHour, date);
    var totalCost, totalKwh, totals := AddUpDay(day);
    var ranked := Rank(totals);
    r := DayReport(date, totalCost, totalKwh, views, ranked);
  }

  lemma {:induction false} MergeSplit(t: map<string, CircuitUse>, c: map<string, CircuitUse>, k: string)
    requires k in c
    ensures Merge(t, c) == Merge(t, c - {k})[k := AddUse(Find(t, k), c[k])]
    ensures Find(Merge(t, c - {k}), k) == AddUse(Find(t, k), CircuitUse(0.0, 0.0))
  {
  }

  /** Adding one circuit of an entry to the totals adds its amount. */
  lemma {:induction false} MergeOne(t: map<string, CircuitUse>, c: map<string, CircuitUse>, k: string, f: Measure)
    requires k in c
    ensures SumValues(Amounts(Merge(t, c), f)) == SumValues(Amounts(Merge(t, c - {k}), f)) + Amount(c[k], f)
  {
    var m' := Merge(t, c - {k});
    var u := AddUse(Find(t, k), c[k]);
    MergeSplit(t, c, k);
    AmountsUpdate(m', k, u, f);
    SumValuesUpdate(Amounts(m', f), k, Amount(u, f));
    assert Amount(u, f) == Amount(Find(t, k), f) + Amount(c[k], f);
    assert k in m' ==> Amounts(m', f)[k] == Amount(Find(t, k), f);
    assert k !in m' ==> Amount(Find(t, k), f) == 0.0;
  }

  lemma {:induction false} MergeNone(t: map<string, CircuitUse>)
    ensures Merge(t, map[]) == t
  {
    forall k | k in t ensures Merge(t, map[])[k] == t[k] {
    }
  }

  /** Adding one entry's circuits adds their column sums. */
  lemma {:induction false} MergeSums(t: map<string, CircuitUse>, c: map<string, CircuitUse>, f: Measure)
    ensures SumValues(Amounts(Merge(t, c), f)) == SumValues(Amounts(t, f)) + SumValues(Amounts(c, f))
    decreases |c|
  {
    if |c| == 0 {
      assert c == map[];
      MergeNone(t);
      assert Amounts(c, f) == map[];
    } else {
      var k :| k in c;
      MergeOne(t, c, k, f);
      MergeSums(t, c - {k}, f);
      SumValuesRemove(Amounts(c, f), k);
      AmountsRemove(c, k, f);
    }
  }

  /** The day's total equals the sum of the per-circuit totals, for kWh and
      for cost alike: summing by hour and summing by circuit agree. */
  lemma {:induction false} DayTotalsAgree(day: seq<DayEntry>, f: Measure)
    requires forall e :: e in day ==> EntryConsistent(e)
    ensures SumValues(Amounts(CircuitTotals(day), f)) == DayTotal(day, f)
    decreases |day|
  {
    if day == [] {
      assert Amounts(CircuitTotals(day), f) == map[];
    } else {
      var front, last := day[..|day| - 1], day[|day| - 1];
      assert forall e :: e in front ==> e in day;
      DayTotalsAgree(front, f);
      MergeSums(CircuitTotals(front), last.circuits, f);
      assert EntryConsistent(last);
    }
  }

  // -----------------------------------------------------------------------
  // fetch_egauge_today
  // -----------------------------------------------------------------------

  /** Today is shown when no date is asked for or today's date is. */
  predicate IsToday(now: int, target: Option<int>)
  {
    target.None? || target.value == Calendar.DateOf(now)
  }

  function ShownDate(now: int, target: Option<int>): int
  {
    if target.Some? then target.value else Calendar.DateOf(now)
  }

  /** The minute response is requested for today only, and a row whose
      timestamp does not parse makes the partial hour be skipped. */
  function CurrentReadings(isToday: bool, current: Option<seq<RawRow>>): Option<seq<Reading>>
  {
    if isToday && current.Some? && AllStamped(current.value) then Some(ParseAll(current.value)) else None
  }

  function AllRows(hourlyRows: seq<RawRow>, current: Option<seq<RawRow>>): seq<RawRow>
  {
    hourlyRows + (if current.Some? then current.value else [])
  }

  /** The hourly rows sorted oldest first, with the partial reading appended. */
  ghost function PreparedRows(hourlyRows: seq<RawRow>, current: Option<seq<RawRow>>, isToday: bool): seq<Reading>
    requires AllStamped(hourlyRows)
  {
    AppendPartial(SortBy(ParseAll(hourlyRows), TimeKey), isToday, CurrentReadings(isToday, current))
  }

  /** Rows from responses that share one header can be differenced. */
  lemma {:induction false} PreparedRowsDifferenceable(hourlyRows: seq<RawRow>, current: Option<seq<RawRow>>, isToday: bool)
    requires AllStamped(hourlyRows) && SameColumns(AllRows(hourlyRows, current))
    ensures Differenceable(PreparedRows(hourlyRows, current, isToday))
  {
    var all := AllRows(hourlyRows, current);
    var ps := ParseAll(hourlyRows);
    var sorted := SortBy(ps, TimeKey);
    SortByFacts(ps, TimeKey);
    var rows := PreparedRows(hourlyRows, current, isToday);
    if |hourlyRows| > 0 {
      var cols := hourlyRows[0].cells.Keys;
      forall r | r in rows ensures r.values.Keys == cols {
        if r in sorted {
          assert r in multiset(ps);
          var a :| 0 <= a < |ps| && ps[a] == r;
          assert all[a] == hourlyRows[a] && all[0] == hourlyRows[0];
        } else {
          var cur := CurrentReadings(isToday, current).value;
          assert r == cur[|cur| - 1];
          var j := |hourlyRows| + |cur| - 1;
          assert all[j] == current.value[|cur| - 1] && all[0] == hourlyRows[0];
        }
      }
      forall i | 0 < i < |rows| ensures CanDiff(rows[i - 1], rows[i]) {
        assert rows[i - 1] in rows && rows[i] in rows;
      }
    } else {
      assert rows == [];
    }
  }

  /** `fetch_egauge_today` after the responses have arrived: a row of the
      hourly response whose timestamp does not parse aborts (the program
      raises); otherwise the report describes the target day's entries of
      the earlier-labelled differences of the prepared rows. */
  method FetchEgaugeToday(hourlyRows: seq<RawRow>, current: Option<seq<RawRow>>, now: int, target: Option<int>)
    returns (res: Result<DayReport, ParseError>)
    requires SameColumns(AllRows(hourlyRows, current))
    ensures res.Err? <==> !AllStamped(hourlyRows)
    ensures res.Ok? ==>
      && AllStamped(hourlyRows)
      && var rows := PreparedRows(hourlyRows, current, IsToday(now, target));
         && Differenceable(rows)
         && ReportOf(res.value, OnDate(Diffs(rows), ShownDate(now, target)),
                     IsToday(now, target), Calendar.HourOf(now), ShownDate(now, target))
  {
    var isToday := IsToday(now, target);
    var date := ShownDate(now, target);
    var parsed := ParseCsvData(hourlyRows);
    if parsed.Err? {
      return Err(parsed.error);
    }
    var cur: Option<seq<Reading>> := None;
    if isToday && current.Some? {
      var ok := true;
      var j := 0;
      while j < |current.value|
        invariant 0 <= j <= |current.value|
        invariant ok <==> forall i :: 0 <= i < j ==> current.value[i].stamp.Some?
      {
        ok := ok && current.value[j].stamp.Some?;
        j := j + 1;
      }
      if ok {
        cur := Some(ParseAll(current.value));
      }
    }
    assert cur == CurrentReadings(isToday, current);
    var rows := AppendPartial(parsed.value, isToday, cur);
    PreparedRowsDifferenceable(hourlyRows, current, isToday);
    var hourly := DiffHours(rows);
    var day := OnDate(hourly, date);
    var report := SummarizeDay(day, isToday, Calendar.HourOf(now), date);
    res := Ok(report);
  }

  // -----------------------------------------------------------------------
  // Shift-to-off-peak opportunities (_build_history)
  // -----------------------------------------------------------------------

  /** One element of the `circuits` list: a display name and its register's
      statistics as the list carries them, that is with each period's cost
      already rounded to 2 decimals and its percent to 1; the thresholds
      below apply to those figures. */
  datatype Circuit = Circuit(name: string, stats: Aggregates.RegisterStats)

  datatype Opportunity = Opportunity(
    circuit: string, peakPct: real, peakCost: real, savings: real, totalCost: real, avgDailyCost: real)

  /** More than 20 % of the circuit's kWh fall in peak hours, and its peak
      cost exceeds 1.0. */
  predicate Qualifies(s: Aggregates.RegisterStats)
  {
    s.byTou.peak.percent > 20.0 && s.byTou.peak.cost > 1.0
  }

  /** What moving the peak usage to off-peak hours would save at the rates of
      `date`. */
  function ShiftSavings(peakCost: real, date: int): real
  {
    peakCost * (1.0 - Rate(date, OffPeak) / Rate(date, Peak))
  }

  function OpportunityOf(c: Circuit, date: int): Opportunity
  {
    Opportunity(c.name, c.stats.byTou.peak.percent, c.stats.byTou.peak.cost,
                RoundCents(ShiftSavings(c.stats.byTou.peak.cost, date)), c.stats.totalCost, c.stats.avgDailyCost)
  }

  function NegSavings(o: Opportunity): real
  {
    -o.savings
  }

  /** The opportunities in list order, before sorting. */
  function Candidates(circuits: seq<Circuit>, date: int): (r: seq<Opportunity>)
    ensures |r| <= |circuits|
    decreases |circuits|
  {
    if circuits == [] then []
    else
      var rest := Candidates(circuits[..|circuits| - 1], date);
      var c := circuits[|circuits| - 1];
      if Qualifies(c.stats) then rest + [OpportunityOf(c, date)] else rest
  }

  /** A circuit yields an opportunity exactly when it qualifies. */
  lemma {:induction false} CandidatesExact(circuits: seq<Circuit>, date: int)
    ensures forall i :: 0 <= i < |circuits| && Qualifies(circuits[i].stats) ==>
      OpportunityOf(circuits[i], date) in Candidates(circuits, date)
    ensures forall o :: o in Candidates(circuits, date) ==>
      exists i :: 0 <= i < |circuits| && Qualifies(circuits[i].stats) && o == OpportunityOf(circuits[i], date)
    decreases |circuits|
  {
    if circuits != [] {
      var front := circuits[..|circuits| - 1];
      CandidatesExact(front, date);
      forall o | o in Candidates(circuits, date)
        ensures exists i :: 0 <= i < |circuits| && Qualifies(circuits[i].stats) && o == OpportunityOf(circuits[i], date)
      {
        if o in Candidates(front, date) {
          var i :| 0 <= i < |front| && Qualifies(front[i].stats) && o == OpportunityOf(front[i], date);
          assert circuits[i] == front[i];
        } else {
          assert o == OpportunityOf(circuits[|circuits| - 1], date);
        }
      }
      forall i | 0 <= i < |circuits| && Qualifies(circuits[i].stats)
        ensures OpportunityOf(circuits[i], date) in Candidates(circuits, date)
      {
        if i < |front| {
          assert circuits[i] == front[i];
        }
      }
    }
  }

  /** Removing a share strictly between 0 and 1 of a positive amount. */
  lemma {:induction false} ShrinkBy(c: real, lo: real, hi: real)
    requires c > 0.0 && 0.0 < lo < hi
    ensures 0.0 < c * (1.0 - lo / hi) < c
  {
    var q := lo / hi;
    assert q * hi == lo;
    assert q > 0.0;
    var r := 1.0 - q;
    assert r * hi == hi - lo;
    assert r > 0.0;
    assert c * r > 0.0;
    assert c * r == c - c * q;
    assert c * q > 0.0;
  }

  /** Shifting a positive peak cost saves something, and less than the whole
      of it, because the off-peak rate is positive and below the peak rate. */
  lemma {:induction false} SavingsBounds(peakCost: real, date: int)
    requires peakCost > 0.0
    ensures 0.0 < ShiftSavings(peakCost, date) < peakCost
  {
    PeakAboveOffPeak(date);
    ShrinkBy(peakCost, Rate(date, OffPeak), Rate(date, Peak));
  }

  /** The saving is between 40 % and 60 % of the peak cost, whatever the
      season. */
  lemma {:induction false} SavingsShare(peakCost: real, date: int)
    requires peakCost > 0.0
    ensures 0.4 * peakCost <= ShiftSavings(peakCost, date) <= 0.6 * peakCost
  {
    var q := 1.0 - Rate(date, OffPeak) / Rate(date, Peak);
    if IsSummer(date) {
      assert q == 1.0 - 0.29780 / 0.64639;
    } else {
      assert q == 1.0 - 0.29780 / 0.51928;
    }
    assert 0.4 <= q <= 0.6;
    assert peakCost * q - 0.4 * peakCost == peakCost * (q - 0.4);
    assert 0.6 * peakCost - peakCost * q == peakCost * (0.6 - q);
  }

  /** Rounded to cents, the saving of a peak cost above 1.0 is still positive
      and below the peak cost. */
  lemma {:induction false} RoundedSavingsBounds(peakCost: real, date: int)
    requires peakCost > 1.0
    ensures 0.0 < RoundCents(ShiftSavings(peakCost, date)) < peakCost
  {
    SavingsShare(peakCost, date);
    RoundCentsNearest(ShiftSavings(peakCost, date));
  }

  /** Every opportunity passes both thresholds and promises a saving, in
      whole cents, within half a cent of the exact one and below its peak
      cost. */
  lemma {:induction false} OpportunitiesQualify(circuits: seq<Circuit>, date: int)
    ensures forall o :: o in Candidates(circuits, date) ==>
      && o.peakPct > 20.0 && o.peakCost > 1.0 && 0.0 < o.savings < o.peakCost
      && -0.005 <= o.savings - ShiftSavings(o.peakCost, date) <= 0.005
  {
    CandidatesExact(circuits, date);
    forall o | o in Candidates(circuits, date)
      ensures && o.peakPct > 20.0 && o.peakCost > 1.0 && 0.0 < o.savings < o.peakCost
              && -0.005 <= o.savings - ShiftSavings(o.peakCost, date) <= 0.005
    {
      var i :| 0 <= i < |circuits| && Qualifies(circuits[i].stats) && o == OpportunityOf(circuits[i], date);
      RoundedSavingsBounds(o.peakCost, date);
      RoundCentsNearest(ShiftSavings(o.peakCost, date));
    }
  }

  /** The opportunities loop, each saving rounded to cents, followed by the
      stable sort by those rounded savings, descending. */
  method RankOpportunities(circuits: seq<Circuit>, date: int) returns (ops: seq<Opportunity>)
    ensures ops == SortBy(Candidates(circuits, date), NegSavings)
    ensures SortedBy(ops, NegSavings)
    ensures multiset(ops) == multiset(Candidates(circuits, date))
  {
    var found: seq<Opportunity> := [];
    for i := 0 to |circuits|
      invariant found == Candidates(circuits[..i], date)
    {
      assert circuits[..i + 1][..i] == circuits[..i];
      var c := circuits[i];
      if c.stats.byTou.peak.percent > 20.0 && c.stats.byTou.peak.cost > 1.0 {
        var peakRate := Rate(date, Peak);
        var offPeakRate := Rate(date, OffPeak);
        var savings := RoundCents(c.stats.byTou.peak.cost * (1.0 - offPeakRate / peakRate));
        found := found + [Opportunity(c.name, c.stats.byTou.peak.percent, c.stats.byTou.peak.cost,
                                      savings, c.stats.totalCost, c.stats.avgDailyCost)];
      }
    }
    assert circuits[..|circuits|] == circuits;
    ops := SortBy(found, NegSavings);
    SortByFacts(found, NegSavings);
  }

  /** A circuit with `peakCost` of its cost, and 30 % of its kWh, at peak. */
  function PeakCircuit(name: string, peakCost: real): Circuit
  {
    var peak := Aggregates.TouStats(1.0, peakCost, 30.0);
    Circuit(name, Aggregates.EmptyStats.(byTou := PerPeriod(peak, Aggregates.ZeroTou, Aggregates.ZeroTou)))
  }

  /** Savings are compared in whole cents: on a winter day, peak costs of
      1.99 and 2.00 both save 0.85, so the sort keeps the circuits' list
      order although the exact savings differ. */
  lemma {:induction false} RoundedTiesKeepListOrder()
    ensures var a, b := PeakCircuit("A", 1.99), PeakCircuit("B", 2.00);
      && ShiftSavings(1.99, 0) < ShiftSavings(2.00, 0)
      && SortBy(Candidates([a, b], 0), NegSavings) == [OpportunityOf(a, 0), OpportunityOf(b, 0)]
  {
    var a, b := PeakCircuit("A", 1.99), PeakCircuit("B", 2.00);
    TieSavings();
    assert OpportunityOf(a, 0).savings == OpportunityOf(b, 0).savings;
    assert [a, b][..1] == [a];
    assert Candidates([a, b], 0) == [OpportunityOf(a, 0), OpportunityOf(b, 0)];
    SortBySortedIdentity([OpportunityOf(a, 0), OpportunityOf(b, 0)], NegSavings);
  }

  /** On day 0, a winter day, the saving is the peak cost times the winter
      off-peak discount. */
  lemma {:induction false} WinterDaySavings(peakCost: real)
    ensures ShiftSavings(peakCost, 0) == peakCost * (1.0 - 0.29780 / 0.51928)
  {
    Calendar.MonthOfEpoch();
    assert !IsSummer(0);
    assert Rate(0, OffPeak) == 0.29780 && Rate(0, Peak) == 0.51928;
  }

  lemma {:induction false} TieSavings()
    ensures ShiftSavings(1.99, 0) < ShiftSavings(2.00, 0)
    ensures RoundCents(ShiftSavings(1.99, 0)) == 0.85 && RoundCents(ShiftSavings(2.00, 0)) == 0.85
  {
    WinterDaySavings(1.99);
    WinterDaySavings(2.00);
    var q := 1.0 - 0.29780 / 0.51928;
    assert (1.99 * q * 100.0).Floor == 84;
    assert (2.00 * q * 100.0).Floor == 85;
  }

  // -----------------------------------------------------------------------
  // Live source mix (build_live_payload)
  // -----------------------------------------------------------------------

  /** Percentages of the home's supply coming from each source. */
  datatype SourceMix = SourceMix(solar: real, battery: real, grid: real)

  /** Only a positive flow supplies the home: solar generating, the battery
      discharging, the grid importing. */
  function Supply(watts: int): (s: real)
    ensures s >= 0.0
    ensures watts > 0 ==> s == watts as real
    ensures watts <= 0 ==> s == 0.0
  {
    Max(0.0, watts as real)
  }

  function Percent(part: real, total: real): real
    requires total > 0.0
  {
    part / total * 100.0
  }

  lemma {:induction false} PercentsOfTotal(a: real, b: real, c: real)
    requires a >= 0.0 && b >= 0.0 && c >= 0.0 && a + b + c > 0.0
    ensures Percent(a, a + b + c) + Percent(b, a + b + c) + Percent(c, a + b + c) == 100.0
    ensures 0.0 <= Percent(a, a + b + c) <= 100.0
  {
    var t := a + b + c;
    assert a / t + b / t + c / t == t / t;
    assert a / t <= 1.0 by {
      assert a / t * t == a;
    }
  }

  function LiveSourceMix(solarW: int, batteryW: int, gridW: int): SourceMix
  {
    var s, b, g := Supply(solarW), Supply(batteryW), Supply(gridW);
    var total := s + b + g;
    if total > 0.0 then SourceMix(Percent(s, total), Percent(b, total), Percent(g, total))
    else SourceMix(0.0, 0.0, 0.0)
  }

  /** With some supply, each source's percentage is its part of the supply
      and the three add up to 100; with none, all three are 0. */
  lemma {:induction false} LiveSourceMixShares(solarW: int, batteryW: int, gridW: int)
    ensures var m := LiveSourceMix(solarW, batteryW, gridW);
      var s, b, g := Supply(solarW), Supply(batteryW), Supply(gridW);
      && (s + b + g > 0.0 ==>
            && m.solar + m.battery + m.grid == 100.0
            && m.solar * (s + b + g) == 100.0 * s
            && m.battery * (s + b + g) == 100.0 * b
            && m.grid * (s + b + g) == 100.0 * g)
      && (s + b + g == 0.0 ==> m == SourceMix(0.0, 0.0, 0.0))
      && 0.0 <= m.solar <= 100.0 && 0.0 <= m.battery <= 100.0 && 0.0 <= m.grid <= 100.0
  {
    var s, b, g := Supply(solarW), Supply(batteryW), Supply(gridW);
    var t := s + b + g;
    if t > 0.0 {
      assert LiveSourceMix(solarW, batteryW, gridW) == SourceMix(Percent(s, t), Percent(b, t), Percent(g, t));
      PercentMix(s, b, g);
    } else {
      assert LiveSourceMix(solarW, batteryW, gridW) == SourceMix(0.0, 0.0, 0.0);
    }
  }

  lemma {:induction false} PercentMix(s: real, b: real, g: real)
    requires s >= 0.0 && b >= 0.0 && g >= 0.0 && s + b + g > 0.0
    ensures var t := s + b + g;
      var m := SourceMix(Percent(s, t), Percent(b, t), Percent(g, t));
      && m.solar + m.battery + m.grid == 100.0
      && m.solar * t == 100.0 * s && m.battery * t == 100.0 * b && m.grid * t == 100.0 * g
      && 0.0 <= m.solar <= 100.0 && 0.0 <= m.battery <= 100.0 && 0.0 <= m.grid <= 100.0
  {
    var t := s + b + g;
    PercentsOfTotal(s, b, g);
    PercentsOfTotal(b, s, g);
    PercentsOfTotal(g, s, b);
    assert b + s + g == t && g + s + b == t;
    PercentTimes(s, t);
    PercentTimes(b, t);
    PercentTimes(g, t);
  }

  lemma {:induction false} PercentTimes(part: real, total: real)
    requires total > 0.0
    ensures Percent(part, total) * total == 100.0 * part
  {
    assert part / total * total == part;
  }

  /** A charging battery or an exporting grid takes nothing from the mix:
      the remaining sources share the whole 100 %. */
  lemma {:induction false} OutflowsAreNotSources(solarW: int, batteryW: int, gridW: int)
    requires batteryW <= 0 && gridW <= 0 && solarW > 0
    ensures LiveSourceMix(solarW, batteryW, gridW) == SourceMix(100.0, 0.0, 0.0)
  {
    LiveSourceMixShares(solarW, batteryW, gridW);
    var m := LiveSourceMix(solarW, batteryW, gridW);
    assert m.solar * (solarW as real) == 100.0 * (solarW as real);
  }
}
