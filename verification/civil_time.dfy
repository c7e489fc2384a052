/** Local wall-clock time without time zones or daylight-saving shifts: every
    day has exactly 24 hours. An instant is a day number plus the fields a
    calendar exposes (hour of day, minute, second, millisecond), and it maps
    one-to-one onto milliseconds since the epoch. */
module CivilTime {

  const MillisPerSecond: int := 1000
  const MillisPerMinute: int := 60_000
  const MillisPerHour: int := 3_600_000
  const MillisPerDay: int := 86_400_000

  datatype LocalTime = LocalTime(day: int, hour: int, minute: int, second: int, milli: int)
  {
    /** Every field is inside its calendar range. */
    predicate Valid() {
      && 0 <= hour < 24
      && 0 <= minute < 60
      && 0 <= second < 60
      && 0 <= milli < 1000
    }
  }

  /** Milliseconds elapsed since the start of `t`'s day. */
  function MillisOfDay(t: LocalTime): (ms: int)
    requires t.Valid()
    ensures 0 <= ms < MillisPerDay
    ensures t.hour * MillisPerHour <= ms < (t.hour + 1) * MillisPerHour
  {
    t.hour * MillisPerHour + t.minute * MillisPerMinute + t.second * MillisPerSecond + t.milli
  }

  /** Milliseconds since the epoch, as `Calendar.getTimeInMillis` reports it. */
  function ToMillis(t: LocalTime): (ms: int)
    requires t.Valid()
    ensures t.day * MillisPerDay <= ms < t.day * MillisPerDay + MillisPerDay
  {
    t.day * MillisPerDay + MillisOfDay(t)
  }

  /** The calendar fields of an epoch instant; inverse of `ToMillis`. */
  function FromMillis(ms: int): (t: LocalTime)
    ensures t.Valid()
    ensures ToMillis(t) == ms
  {
    var d := ms / MillisPerDay;
    var r := ms % MillisPerDay;
    var h := r / MillisPerHour;
    var rh := r % MillisPerHour;
    var m := rh / MillisPerMinute;
    var rm := rh % MillisPerMinute;
    var s := rm / MillisPerSecond;
    var rs := rm % MillisPerSecond;
    DivMod(ms, MillisPerDay);
    DivMod(r, MillisPerHour);
    DivMod(rh, MillisPerMinute);
    DivMod(rm, MillisPerSecond);
    LocalTime(d, h, m, s, rs)
  }

  /** Euclidean division by a positive divisor splits `x` into quotient and remainder. */
  lemma DivMod(x: int, k: int)
    requires 0 < k
    ensures x == (x / k) * k + x % k
    ensures 0 <= x % k < k
  {
  }

  /** `t` moved by `n` whole days, the other fields untouched
      (`Calendar.add(DAY_OF_MONTH, n)` without daylight-saving shifts). */
  function AddDays(t: LocalTime, n: int): (u: LocalTime)
    requires t.Valid()
    ensures u.Valid()
    ensures ToMillis(u) == ToMillis(t) + n * MillisPerDay
    ensures u.hour == t.hour && u.minute == t.minute && u.second == t.second && u.milli == t.milli
  {
    t.(day := t.day + n)
  }

  /** Distinct valid calendar readings denote distinct instants. */
  lemma ToMillisInjective(a: LocalTime, b: LocalTime)
    requires a.Valid() && b.Valid()
    requires ToMillis(a) == ToMillis(b)
    ensures a == b
  {
    // The day is fixed by the one-day window each reading occupies, the hour
    // by the one-hour window inside the day, and so on down to the second.
    assert a.day == b.day;
    assert a.hour == b.hour;
    assert a.minute == b.minute;
    assert a.second == b.second;
  }

  /** Round trip: reading the calendar fields of an instant gives back the fields. */
  lemma FromMillisToMillis(t: LocalTime)
    requires t.Valid()
    ensures FromMillis(ToMillis(t)) == t
  {
    ToMillisInjective(FromMillis(ToMillis(t)), t);
  }
}
