/** Local dates as milliseconds since the epoch, with every day exactly
    MsPerDay long; day numbers count days from the epoch. */
module Calendar {
  import opened Results

  const MsPerDay: int := 86_400_000

  function DayOf(t: int): int {
    t / MsPerDay
  }

  /** `setHours(0, 0, 0, 0)`: the first millisecond of t's day. */
  function StartOfDay(t: int): (r: int)
    ensures r <= t < r + MsPerDay
    ensures DayOf(r) == DayOf(t)
  {
    DayOf(t) * MsPerDay
  }

  /** `setHours(23, 59, 59, 999)`: the last millisecond of t's day. */
  function EndOfDay(t: int): (r: int)
    ensures StartOfDay(t) <= t <= r
    ensures DayOf(r) == DayOf(t) && DayOf(r + 1) == DayOf(t) + 1
  {
    StartOfDay(t) + MsPerDay - 1
  }

  /** date-fns addDays (subDays with a negative count), same time of day. */
  function AddDays(t: int, n: int): int {
    t + n * MsPerDay
  }

  lemma {:induction false} AddDaysMovesDay(t: int, n: int)
    ensures DayOf(AddDays(t, n)) == DayOf(t) + n
    ensures AddDays(t, n) - StartOfDay(AddDays(t, n)) == t - StartOfDay(t)
  {
    var q := DayOf(t);
    assert q * MsPerDay <= t < q * MsPerDay + MsPerDay;
    assert AddDays(t, n) == t + n * MsPerDay;
    assert (q + n) * MsPerDay <= AddDays(t, n) < (q + n) * MsPerDay + MsPerDay;
  }

  /** An instant lies in [StartOfDay(d), EndOfDay(d)] exactly when it is on d's day. */
  lemma {:induction false} DayWindowIsTheDay(d: int, t: int)
    ensures StartOfDay(d) <= t <= EndOfDay(d) <==> DayOf(t) == DayOf(d)
  {
    var s := StartOfDay(d);
    assert StartOfDay(t) <= t < StartOfDay(t) + MsPerDay;
    if DayOf(t) == DayOf(d) {
      assert StartOfDay(t) == s;
    }
    if s <= t <= s + MsPerDay - 1 {
      assert DayOf(d) * MsPerDay <= t < (DayOf(d) + 1) * MsPerDay;
    }
  }

  /** A timestamp query: a lower bound and an optional upper bound, both inclusive. */
  datatype TimeRange = TimeRange(from: int, until: Option<int>)

  predicate Admits(range: TimeRange, t: int) {
    range.from <= t && (range.until.None? || t <= range.until.value)
  }
}
