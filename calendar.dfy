/**
 * Gregorian calendar days and the monthly chunk schedule of the backfill
 * driver: `pd.date_range(..., freq="MS")` yields month starts, and the ends
 * are the month starts of the following months shifted back by one day.
 */
module Calendar {

  datatype Date = Date(year: int, month: int, day: int)

  /** The Gregorian leap-year rule. */
  predicate IsLeapYear(y: int) {
    y % 4 == 0 && (y % 100 != 0 || y % 400 == 0)
  }

  function DaysInMonth(y: int, m: int): (n: int)
    requires 1 <= m <= 12
    ensures 28 <= n <= 31
  {
    if m == 2 then (if IsLeapYear(y) then 29 else 28)
    else if m == 4 || m == 6 || m == 9 || m == 11 then 30
    else 31
  }

  predicate Valid(d: Date) {
    1 <= d.month <= 12 && 1 <= d.day <= DaysInMonth(d.year, d.month)
  }

  /** Strict chronological order. */
  predicate Before(a: Date, b: Date) {
    a.year < b.year
    || (a.year == b.year && (a.month < b.month || (a.month == b.month && a.day < b.day)))
  }

  predicate NotAfter(a: Date, b: Date) {
    a == b || Before(a, b)
  }

  /** `d + timedelta(days=1)`. */
  function NextDay(d: Date): (r: Date)
    requires Valid(d)
    ensures Valid(r) && Before(d, r)
  {
    if d.day < DaysInMonth(d.year, d.month) then Date(d.year, d.month, d.day + 1)
    else if d.month < 12 then Date(d.year, d.month + 1, 1)
    else Date(d.year + 1, 1, 1)
  }

  /** `d - timedelta(days=1)`: the valid day whose next day is `d`. */
  function PrevDay(d: Date): (r: Date)
    requires Valid(d)
    ensures Valid(r) && Before(r, d) && NextDay(r) == d
  {
    if d.day > 1 then Date(d.year, d.month, d.day - 1)
    else if d.month > 1 then Date(d.year, d.month - 1, DaysInMonth(d.year, d.month - 1))
    else Date(d.year - 1, 12, 31)
  }

  /** Going a day forward and a day back returns to the same date. */
  lemma PrevDayOfNextDay(d: Date)
    requires Valid(d)
    ensures PrevDay(NextDay(d)) == d
  {
  }

  /** Months counted from year 0: January of year y is 12 * y. */
  function MonthIndex(d: Date): int {
    d.year * 12 + (d.month - 1)
  }

  function FirstOfMonth(k: int): (r: Date)
    ensures Valid(r) && r.day == 1 && MonthIndex(r) == k
  {
    Date(k / 12, k % 12 + 1, 1)
  }

  function LastOfMonth(k: int): (r: Date)
    ensures Valid(r) && MonthIndex(r) == k && r.day == DaysInMonth(r.year, r.month)
  {
    Date(k / 12, k % 12 + 1, DaysInMonth(k / 12, k % 12 + 1))
  }

  /** A valid date lies in the month that its month index names. */
  lemma MonthIndexOrder(a: Date, b: Date)
    requires Valid(a) && Valid(b)
    ensures MonthIndex(a) < MonthIndex(b) ==> Before(a, b)
    ensures Before(a, b) ==> MonthIndex(a) <= MonthIndex(b)
  {
  }

  lemma MonthIndexDetermines(a: Date, b: Date)
    requires Valid(a) && Valid(b) && MonthIndex(a) == MonthIndex(b) && a.day == b.day
    ensures a == b
  {
  }

  /**
   * `pd.date_range(start, end, freq="MS")`: every first of a month from
   * `start` to `end` inclusive, in order, one per month.
   */
  function MonthStarts(start: Date, end: Date): (r: seq<Date>)
    requires Valid(start) && Valid(end)
    ensures forall i :: 0 <= i < |r| ==>
      Valid(r[i]) && r[i].day == 1 && NotAfter(start, r[i]) && NotAfter(r[i], end)
    ensures forall i :: 0 <= i < |r| ==>
      MonthIndex(r[i]) == MonthIndex(start) + (if start.day == 1 then 0 else 1) + i
  {
    var lo := MonthIndex(start) + (if start.day == 1 then 0 else 1);
    var hi := MonthIndex(end);
    var starts := seq(if lo <= hi then hi - lo + 1 else 0, i => FirstOfMonth(lo + i));
    forall i | 0 <= i < |starts|
      ensures Valid(starts[i]) && starts[i].day == 1 && MonthIndex(starts[i]) == lo + i
      ensures NotAfter(start, starts[i]) && NotAfter(starts[i], end)
    {
      var f := FirstOfMonth(lo + i);
      assert starts[i] == f;
      MonthIndexOrder(start, f);
      MonthIndexOrder(f, end);
      if MonthIndex(f) == MonthIndex(start) {
        MonthIndexDetermines(start, f);
      }
    }
    starts
  }

  /** `MonthStarts` misses no first of a month in its range. */
  lemma MonthStartsComplete(start: Date, end: Date, d: Date)
    requires Valid(start) && Valid(end) && Valid(d) && d.day == 1
    requires NotAfter(start, d) && NotAfter(d, end)
    ensures d in MonthStarts(start, end)
  {
    var r := MonthStarts(start, end);
    var lo := MonthIndex(start) + (if start.day == 1 then 0 else 1);
    MonthIndexOrder(start, d);
    MonthIndexOrder(d, end);
    assert lo <= MonthIndex(d) <= MonthIndex(end);
    var i := MonthIndex(d) - lo;
    assert |r| == MonthIndex(end) - lo + 1;
    MonthIndexDetermines(r[i], d);
  }

  /** `index - timedelta(days=1)` applied to every date of an index. */
  function ShiftBackOneDay(ds: seq<Date>): (r: seq<Date>)
    requires forall i :: 0 <= i < |ds| ==> Valid(ds[i])
    ensures |r| == |ds| && forall i :: 0 <= i < |r| ==> Valid(r[i]) && NextDay(r[i]) == ds[i]
  {
    seq(|ds|, i requires 0 <= i < |ds| => PrevDay(ds[i]))
  }

  /** Python's `zip`: pairs up to the shorter length. */
  function Zip<A, B>(xs: seq<A>, ys: seq<B>): seq<(A, B)> {
    seq(if |xs| <= |ys| then |xs| else |ys|, i requires 0 <= i < |xs| && 0 <= i < |ys| => (xs[i], ys[i]))
  }

  /** The bounds of the two `date_range` calls that give the chunk starts and, shifted back a day, the ends. */
  const StartsFrom: Date := Date(2023, 1, 1)
  const StartsTo: Date := Date(2024, 11, 30)
  const EndsFrom: Date := Date(2023, 2, 1)
  const EndsTo: Date := Date(2024, 12, 1)

  /** The (start, end) pairs the driver loops over. */
  function ChunkPairs(): seq<(Date, Date)> {
    Zip(MonthStarts(StartsFrom, StartsTo), ShiftBackOneDay(MonthStarts(EndsFrom, EndsTo)))
  }

  lemma PrevDayOfFirst(k: int)
    ensures PrevDay(FirstOfMonth(k + 1)) == LastOfMonth(k)
  {
    var f := FirstOfMonth(k + 1);
    var l := LastOfMonth(k);
    assert NextDay(l).day == 1 && MonthIndex(NextDay(l)) == k + 1;
    MonthIndexDetermines(NextDay(l), f);
  }

  /** The start dates: the first of each month from January 2023 to November 2024. */
  lemma ChunkStarts(i: int)
    requires 0 <= i < 23
    ensures |MonthStarts(StartsFrom, StartsTo)| == 23
    ensures MonthStarts(StartsFrom, StartsTo)[i] == FirstOfMonth(2023 * 12 + i)
  {
    var starts := MonthStarts(StartsFrom, StartsTo);
    MonthIndexDetermines(starts[i], FirstOfMonth(2023 * 12 + i));
  }

  /** The end dates: the last day of each month from January 2023 to November 2024. */
  lemma ChunkEnds(i: int)
    requires 0 <= i < 23
    ensures |ShiftBackOneDay(MonthStarts(EndsFrom, EndsTo))| == 23
    ensures ShiftBackOneDay(MonthStarts(EndsFrom, EndsTo))[i] == LastOfMonth(2023 * 12 + i)
  {
    var nexts := MonthStarts(EndsFrom, EndsTo);
    var ends := ShiftBackOneDay(nexts);
    MonthIndexDetermines(nexts[i], FirstOfMonth(2023 * 12 + i + 1));
    PrevDayOfFirst(2023 * 12 + i);
    assert NextDay(ends[i]) == nexts[i];
    assert ends[i] == PrevDay(nexts[i]);
  }

  lemma ChunkAt(i: int)
    requires 0 <= i < 23
    ensures |ChunkPairs()| == 23
    ensures ChunkPairs()[i] == (FirstOfMonth(2023 * 12 + i), LastOfMonth(2023 * 12 + i))
  {
    ChunkStarts(i);
    ChunkEnds(i);
  }

  /** The schedule has 23 chunks, chunk i spanning month i counted from January 2023. */
  lemma ChunkSchedule()
    ensures |ChunkPairs()| == 23
    ensures forall i :: 0 <= i < 23 ==>
      ChunkPairs()[i] == (FirstOfMonth(2023 * 12 + i), LastOfMonth(2023 * 12 + i))
  {
    ChunkAt(0);
    forall i | 0 <= i < 23
      ensures ChunkPairs()[i] == (FirstOfMonth(2023 * 12 + i), LastOfMonth(2023 * 12 + i))
    {
      ChunkAt(i);
    }
  }

  /** Each chunk runs from the first to the last day of one calendar month. */
  lemma ChunkIsCalendarMonth(i: int)
    requires 0 <= i < |ChunkPairs()|
    ensures Valid(ChunkPairs()[i].0) && Valid(ChunkPairs()[i].1)
    ensures ChunkPairs()[i].0.day == 1
    ensures ChunkPairs()[i].0.year == ChunkPairs()[i].1.year
    ensures ChunkPairs()[i].0.month == ChunkPairs()[i].1.month
    ensures ChunkPairs()[i].1.day == DaysInMonth(ChunkPairs()[i].1.year, ChunkPairs()[i].1.month)
    ensures NotAfter(ChunkPairs()[i].0, ChunkPairs()[i].1)
  {
    ChunkSchedule();
    var c := ChunkPairs()[i];
    assert c == (FirstOfMonth(2023 * 12 + i), LastOfMonth(2023 * 12 + i));
    MonthIndexDetermines(c.0, Date(c.1.year, c.1.month, 1));
  }

  /** Consecutive chunks are contiguous: the day after each end is the next start. */
  lemma ChunksContiguous(i: int)
    requires 0 <= i < |ChunkPairs()| - 1
    ensures NextDay(ChunkPairs()[i].1) == ChunkPairs()[i + 1].0
  {
    ChunkSchedule();
    PrevDayOfFirst(2023 * 12 + i);
  }

  /** Chunk i runs from `first` to the day before `next`, the firsts of months i and i + 1. */
  lemma ChunkBetween(i: int, first: Date, next: Date)
    requires 0 <= i < 23
    requires Valid(first) && first.day == 1 && MonthIndex(first) == 2023 * 12 + i
    requires Valid(next) && next.day == 1 && MonthIndex(next) == 2023 * 12 + i + 1
    ensures ChunkPairs()[i] == (first, PrevDay(next))
  {
    var starts := MonthStarts(StartsFrom, StartsTo);
    var nexts := MonthStarts(EndsFrom, EndsTo);
    ChunkStarts(i);
    ChunkEnds(i);
    MonthIndexDetermines(starts[i], first);
    MonthIndexDetermines(nexts[i], next);
  }

  /** The first chunk is January 2023. */
  lemma FirstChunk()
    ensures ChunkPairs()[0] == (Date(2023, 1, 1), Date(2023, 1, 31))
  {
    ChunkBetween(0, Date(2023, 1, 1), Date(2023, 2, 1));
  }

  /** February 2024, a leap year, ends on the 29th. */
  lemma LeapFebruaryChunk()
    ensures ChunkPairs()[13] == (Date(2024, 2, 1), Date(2024, 2, 29))
  {
    ChunkBetween(13, Date(2024, 2, 1), Date(2024, 3, 1));
    assert IsLeapYear(2024);
  }

  /** The last chunk is November 2024. */
  lemma LastChunk()
    ensures ChunkPairs()[22] == (Date(2024, 11, 1), Date(2024, 11, 30))
  {
    ChunkBetween(22, Date(2024, 11, 1), Date(2024, 12, 1));
  }
}
