/** Wall-clock time as the pipeline sees it. A timestamp is a whole number of
    seconds since the epoch; local time is taken to be UTC, so a date is a day
    number and an hour slot is a whole number of hours since the epoch. */
module Calendar {

  const SecondsPerHour: int := 3600
  const SecondsPerDay: int := 86400

  /** `datetime.fromtimestamp(t).date()` as a day number. Day numbers order
      exactly as the program's "YYYY-MM-DD" strings do. */
  function DateOf(t: int): int
  {
    t / SecondsPerDay
  }

  /** `datetime.fromtimestamp(t).hour`. */
  function HourOf(t: int): (h: int)
    ensures 0 <= h < 24
  {
    (t % SecondsPerDay) / SecondsPerHour
  }

  /** An hour later the clock shows the next hour, and the date moves on
      exactly when that passes midnight. */
  lemma {:induction false} NextHour(t: int)
    ensures HourOf(t + SecondsPerHour) == (HourOf(t) + 1) % 24
    ensures DateOf(t + SecondsPerHour) == if HourOf(t) == 23 then DateOf(t) + 1 else DateOf(t)
  {
    var s := t % SecondsPerDay;
    if s < SecondsPerDay - SecondsPerHour {
      assert (t + SecondsPerHour) / SecondsPerDay == t / SecondsPerDay;
      assert (t + SecondsPerHour) % SecondsPerDay == s + SecondsPerHour;
    } else {
      assert (t + SecondsPerHour) / SecondsPerDay == t / SecondsPerDay + 1;
      assert (t + SecondsPerHour) % SecondsPerDay == s + SecondsPerHour - SecondsPerDay;
    }
  }

  /** The hour slot of a timestamp: the key of the solar hour buckets. */
  function HourSlot(t: int): int
  {
    t / SecondsPerHour
  }

  /** The slot of (date, hour): how an hourly consumption record is joined
      to a solar bucket. */
  function SlotOf(date: int, hour: int): int
  {
    date * 24 + hour
  }

  /** The (date, hour) key and the hour slot of a timestamp agree. */
  lemma {:induction false} SlotOfTimestamp(t: int)
    ensures SlotOf(DateOf(t), HourOf(t)) == HourSlot(t)
  {
    var q, r := t / SecondsPerDay, t % SecondsPerDay;
    assert t == SecondsPerDay * q + r;
    var h, r2 := r / SecondsPerHour, r % SecondsPerHour;
    assert r == SecondsPerHour * h + r2 && 0 <= r2 < SecondsPerHour;
    assert t == SecondsPerHour * (24 * q + h) + r2;
  }

  /** The first second of an hour slot, and the slot of that second. */
  function SlotStart(slot: int): int
  {
    slot * SecondsPerHour
  }

  lemma {:induction false} SlotStartBounds(t: int)
    ensures SlotStart(HourSlot(t)) <= t < SlotStart(HourSlot(t)) + SecondsPerHour
  {
  }

  /** The first second of the next hour slot: where the hour walk of the
      solar counters cuts an interval. */
  function HourEnd(t: int): (e: int)
    ensures t < e <= t + SecondsPerHour
    ensures HourSlot(e) == HourSlot(t) + 1 && HourSlot(e - 1) == HourSlot(t)
  {
    SlotStartBounds(t);
    SlotStart(HourSlot(t)) + SecondsPerHour
  }

  lemma {:induction false} HourSlotMonotone(a: int, b: int)
    requires a <= b
    ensures HourSlot(a) <= HourSlot(b)
  {
    SlotStartBounds(a);
    SlotStartBounds(b);
  }

  /** The civil (proleptic Gregorian) month, 1..12, of a day number. */
  function MonthOf(day: int): (m: int)
    ensures 1 <= m <= 12
  {
    var z := day + 719468;
    var era := z / 146097;
    var doe := z - era * 146097;
    var yoe := (doe - doe / 1460 + doe / 36524 - doe / 146096) / 365;
    var doy := doe - (365 * yoe + yoe / 4 - yoe / 100);
    var mp := (5 * doy + 2) / 153;
    if mp < 10 then mp + 3 else mp - 9
  }

  /** Day 0, 1970-01-01, is in January. */
  lemma {:induction false} MonthOfEpoch()
    ensures MonthOf(0) == 1
  {
    assert 719468 / 146097 == 4;
    assert 719468 - 4 * 146097 == 135080;
    assert 135080 / 1460 == 92 && 135080 / 36524 == 3 && 135080 / 146096 == 0;
    assert 134991 / 365 == 369;
    assert 369 / 4 == 92 && 369 / 100 == 3;
    assert (5 * 306 + 2) / 153 == 10;
  }
}
