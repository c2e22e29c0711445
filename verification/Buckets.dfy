/**
 Calendar buckets of the dashboard: hours, days, weeks from Monday, and months of real
 length, cut out of the proleptic Gregorian calendar.
 */
module Buckets {

  const HOUR: int := 3_600_000_000
  const DAY: int := 86_400_000_000

  datatype Unit = Hour | Day | Week | Month

  // Microseconds count from midnight.
  datatype DateTime = DateTime(year: int, month: int, day: int, micro: int)

  predicate IsLeap(y: int) {
    y % 4 == 0 && (y % 100 != 0 || y % 400 == 0)
  }

  function DaysIn(y: int, m: int): int {
    if m == 2 then if IsLeap(y) then 29 else 28
    else if m == 4 || m == 6 || m == 9 || m == 11 then 30
    else 31
  }

  const MONTHS: seq<int> := [31, 28, 31, 30, 31, 30, 31, 31, 30, 31, 30, 31]

  lemma MonthTable(y: int, m: int)
    requires 1 <= m <= 12
    ensures DaysIn(y, m) == MONTHS[m - 1] + if m == 2 && IsLeap(y) then 1 else 0
  {
    hide IsLeap;
    assert MONTHS == [31, 28, 31, 30, 31, 30, 31, 31, 30, 31, 30, 31];
  }

  predicate Valid(t: DateTime) {
    && 1 <= t.month <= 12 && 1 <= t.day <= DaysIn(t.year, t.month)
    && 0 <= t.micro < DAY
  }

  // ---------- the time line ----------

  function DaysBeforeYear(y: int): int {
    (y - 1) * 365 + (y - 1) / 4 - (y - 1) / 100 + (y - 1) / 400
  }

  function DaysBeforeMonth(y: int, m: int): int
    requires 1 <= m <= 13
    decreases m
  {
    if m == 1 then 0 else DaysBeforeMonth(y, m - 1) + DaysIn(y, m - 1)
  }

  // Day 1 is the first of January of year 1, a Monday.
  function Ordinal(t: DateTime): int
    requires Valid(t)
  {
    DaysBeforeYear(t.year) + DaysBeforeMonth(t.year, t.month) + t.day
  }

  function Instant(t: DateTime): int
    requires Valid(t)
  {
    Ordinal(t) * DAY + t.micro
  }

  // The order of dates by year, month, day and time.
  predicate Earlier(a: DateTime, b: DateTime) {
    || a.year < b.year
    || (a.year == b.year && a.month < b.month)
    || (a.year == b.year && a.month == b.month && a.day < b.day)
    || (a.year == b.year && a.month == b.month && a.day == b.day && a.micro < b.micro)
  }

  lemma YearLength(y: int)
    ensures DaysBeforeYear(y + 1) == DaysBeforeYear(y) + 365 + (if IsLeap(y) then 1 else 0)
  {
    assert y / 4 == (y - 1) / 4 + (if y % 4 == 0 then 1 else 0);
    assert y / 100 == (y - 1) / 100 + (if y % 100 == 0 then 1 else 0);
    assert y / 400 == (y - 1) / 400 + (if y % 400 == 0 then 1 else 0);
    assert y % 100 == 0 ==> y % 4 == 0;
    assert y % 400 == 0 ==> y % 100 == 0;
  }

  lemma MonthsFillYear(y: int)
    ensures DaysBeforeMonth(y, 13) == 365 + (if IsLeap(y) then 1 else 0)
  {
    assert DaysBeforeMonth(y, 4) == 31 + DaysIn(y, 2) + 31;
    assert DaysBeforeMonth(y, 7) == DaysBeforeMonth(y, 4) + 91;
    assert DaysBeforeMonth(y, 10) == DaysBeforeMonth(y, 7) + 92;
    assert DaysBeforeMonth(y, 13) == DaysBeforeMonth(y, 10) + 92;
  }

  lemma {:induction false} MonthsGrow(y: int, m: int, n: int)
    requires 1 <= m < n <= 13
    ensures DaysBeforeMonth(y, m) + DaysIn(y, m) <= DaysBeforeMonth(y, n)
    decreases n
  {
    if n > m + 1 {
      MonthsGrow(y, m, n - 1);
    }
  }

  lemma {:induction false} YearsGrow(y: int, z: int)
    requires y < z
    ensures DaysBeforeYear(y + 1) <= DaysBeforeYear(z)
    decreases z - y
  {
    if z > y + 1 {
      hide DaysBeforeYear;
      YearLength(z - 1);
      YearsGrow(y, z - 1);
    }
  }

  // Time on the line and calendar order agree, so an instant has one date and time.
  lemma {:induction false} OrderIsCalendarOrder(a: DateTime, b: DateTime)
    requires Valid(a) && Valid(b)
    ensures Earlier(a, b) <==> Instant(a) < Instant(b)
    ensures Instant(a) == Instant(b) ==> a == b
  {
    if Earlier(a, b) {
      EarlierIsLess(a, b);
    } else if Earlier(b, a) {
      EarlierIsLess(b, a);
    }
  }

  lemma {:induction false} EarlierIsLess(a: DateTime, b: DateTime)
    requires Valid(a) && Valid(b) && Earlier(a, b)
    ensures Instant(a) < Instant(b)
  {
    hide DaysBeforeYear, DaysBeforeMonth, DaysIn;
    if a.year < b.year {
      YearLength(a.year);
      YearsGrow(a.year, b.year);
      MonthsFillYear(a.year);
      if a.month < 13 {
        MonthsGrow(a.year, a.month, 13);
      }
      MonthsPositive(b.year, b.month);
    } else if a.month < b.month {
      MonthsGrow(a.year, a.month, b.month);
    }
    assert Ordinal(a) < Ordinal(b) || (Ordinal(a) == Ordinal(b) && a.micro < b.micro);
  }

  lemma {:induction false} MonthsPositive(y: int, m: int)
    requires 1 <= m <= 13
    ensures DaysBeforeMonth(y, m) >= 0
    decreases m
  {
    if m > 1 {
      MonthsPositive(y, m - 1);
    }
  }

  // ---------- date arithmetic ----------

  function NextDay(t: DateTime): (r: DateTime)
    requires Valid(t)
    ensures Valid(r)
  {
    if t.day < DaysIn(t.year, t.month) then t.(day := t.day + 1)
    else if t.month < 12 then t.(month := t.month + 1, day := 1)
    else t.(year := t.year + 1, month := 1, day := 1)
  }

  function PreviousDay(t: DateTime): (r: DateTime)
    requires Valid(t)
    ensures Valid(r)
  {
    if t.day > 1 then t.(day := t.day - 1)
    else if t.month > 1 then t.(month := t.month - 1, day := DaysIn(t.year, t.month - 1))
    else t.(year := t.year - 1, month := 12, day := 31)
  }

  function AddDays(t: DateTime, n: int): (r: DateTime)
    requires Valid(t)
    ensures Valid(r) && r.micro == t.micro
    decreases if n < 0 then -n else n
  {
    if n == 0 then t else if n > 0 then AddDays(NextDay(t), n - 1) else AddDays(PreviousDay(t), n + 1)
  }

  function AddHour(t: DateTime): (r: DateTime)
    requires Valid(t)
    ensures Valid(r)
  {
    if t.micro + HOUR < DAY then t.(micro := t.micro + HOUR) else NextDay(t).(micro := t.micro + HOUR - DAY)
  }

  lemma NextDayIsNext(t: DateTime)
    requires Valid(t)
    ensures Ordinal(NextDay(t)) == Ordinal(t) + 1
  {
    hide DaysBeforeYear;
    YearLength(t.year);
    MonthsFillYear(t.year);
  }

  lemma PreviousDayIsPrevious(t: DateTime)
    requires Valid(t)
    ensures Ordinal(PreviousDay(t)) == Ordinal(t) - 1
  {
    hide DaysBeforeYear;
    YearLength(t.year - 1);
    MonthsFillYear(t.year - 1);
  }

  lemma {:induction false} AddDaysAdds(t: DateTime, n: int)
    requires Valid(t)
    ensures Ordinal(AddDays(t, n)) == Ordinal(t) + n
    decreases if n < 0 then -n else n
  {
    hide Ordinal;
    if n > 0 {
      NextDayIsNext(t);
      AddDaysAdds(NextDay(t), n - 1);
    } else if n < 0 {
      PreviousDayIsPrevious(t);
      AddDaysAdds(PreviousDay(t), n + 1);
    }
  }

  // ---------- buckets ----------

  // Monday is 0.
  function Weekday(t: DateTime): (r: int)
    requires Valid(t)
    ensures 0 <= r < 7
  {
    (Ordinal(t) + 6) % 7
  }

  // A known date: the first of January 1970 was a Thursday, 719162 days after that of year 1.
  lemma EpochIsThursday()
    ensures Valid(DateTime(1970, 1, 1, 0))
    ensures Ordinal(DateTime(1970, 1, 1, 0)) == 719_163 && Weekday(DateTime(1970, 1, 1, 0)) == 3
  {
  }

  // The start of the bucket that holds an instant.
  function BucketStart(t: DateTime, unit: Unit): (r: DateTime)
    requires Valid(t)
    ensures Valid(r)
  {
    var normalized := t.(micro := 0);
    match unit
    case Month => normalized.(day := 1)
    case Week => AddDays(normalized, -Weekday(normalized))
    case Day => normalized
    case Hour => t.(micro := t.micro - t.micro % HOUR)
  }

  function NextBucket(cursor: DateTime, unit: Unit): (r: DateTime)
    requires Valid(cursor)
    ensures Valid(r)
  {
    match unit
    case Hour => AddHour(cursor)
    case Day => AddDays(cursor, 1)
    case Week => AddDays(cursor, 7)
    case Month =>
      if cursor.month + 1 > 12 then cursor.(year := cursor.year + 1, month := 1, day := 1)
      else cursor.(month := cursor.month + 1, day := 1)
  }

  predicate Aligned(t: DateTime, unit: Unit)
    requires Valid(t)
  {
    BucketStart(t, unit) == t
  }

  // Hours, days and weeks have a fixed length, and start at multiples of it from a base.
  function Length(unit: Unit): int
    requires !unit.Month?
  {
    match unit
    case Hour => HOUR
    case Day => DAY
    case Week => 7 * DAY
  }

  function Base(unit: Unit): int {
    if unit.Week? then DAY else 0
  }

  lemma {:induction false} FixedStart(t: DateTime, unit: Unit)
    requires Valid(t) && !unit.Month?
    ensures Instant(BucketStart(t, unit)) == Instant(t) - (Instant(t) - Base(unit)) % Length(unit)
  {
    var normalized := t.(micro := 0);
    assert Ordinal(normalized) == Ordinal(t);
    hide DaysBeforeYear, DaysBeforeMonth, DaysIn;
    match unit {
      case Hour =>
        assert BucketStart(t, Hour) == t.(micro := t.micro - t.micro % HOUR);
        assert Ordinal(BucketStart(t, Hour)) == Ordinal(t);
        HourRemainder(Ordinal(t), t.micro);
      case Day => DayRemainder(Ordinal(t), t.micro);
      case Week =>
        AddDaysAdds(normalized, -Weekday(normalized));
        WeekRemainder(Ordinal(t), t.micro);
    }
  }

  lemma HourRemainder(n: int, micro: int)
    requires 0 <= micro < DAY
    ensures (n * DAY + micro) % HOUR == micro % HOUR
  {
    assert n * DAY + micro == (n * 24) * HOUR + micro;
    Remainder(n * 24, HOUR, micro);
  }

  lemma DayRemainder(n: int, micro: int)
    requires 0 <= micro < DAY
    ensures (n * DAY + micro) % DAY == micro
  {
    Remainder(n, DAY, micro);
  }

  lemma WeekRemainder(n: int, micro: int)
    requires 0 <= micro < DAY
    ensures (n * DAY + micro - DAY) % (7 * DAY) == ((n + 6) % 7) * DAY + micro
  {
    var weeks, days := (n - 1) / 7, (n - 1) % 7;
    assert (n + 6) % 7 == days;
    assert n - 1 == 7 * weeks + days;
    assert n * DAY + micro - DAY == weeks * (7 * DAY) + (days * DAY + micro);
    Remainder(weeks, 7 * DAY, days * DAY + micro);
  }

  lemma Remainder(q: int, unit: int, rest: int)
    requires unit > 0
    ensures (q * unit + rest) % unit == rest % unit
    ensures 0 <= rest < unit ==> rest % unit == rest
  {
    var d, r := rest / unit, rest % unit;
    assert q * unit + rest == (q + d) * unit + r;
    Quotient(q + d, unit, r);
    if 0 <= rest < unit {
      Quotient(0, unit, rest);
    }
  }

  lemma Quotient(q: int, unit: int, r: int)
    requires 0 <= r < unit
    ensures (q * unit + r) % unit == r
  {
    var x := q * unit + r;
    var p, s := x / unit, x % unit;
    assert x == unit * p + s;
    assert (p - q) * unit == r - s && (q - p) * unit == s - r;
    AtLeastOnce(p - q, unit);
    AtLeastOnce(q - p, unit);
  }

  lemma AtLeastOnce(k: int, unit: int)
    requires unit > 0
    ensures k >= 1 ==> k * unit >= unit
  {
  }

  lemma {:induction false} FixedNext(t: DateTime, unit: Unit)
    requires Valid(t) && !unit.Month?
    ensures Instant(NextBucket(t, unit)) == Instant(t) + Length(unit)
  {
    hide DaysBeforeYear, DaysBeforeMonth, DaysIn, NextDay, AddDays;
    match unit {
      case Hour =>
        NextDayIsNext(t);
        if t.micro + HOUR < DAY {
          SameDay(t, t.micro + HOUR);
        } else {
          SameDay(NextDay(t), t.micro + HOUR - DAY);
        }
      case Day => AddDaysAdds(t, 1);
      case Week => AddDaysAdds(t, 7);
    }
  }

  lemma SameDay(t: DateTime, micro: int)
    requires Valid(t) && 0 <= micro < DAY
    ensures Valid(t.(micro := micro)) && Ordinal(t.(micro := micro)) == Ordinal(t)
  {
  }

  // ---------- the bucket an instant is in ----------

  // A month starts on its first day; the months before and after end and start beside it.
  lemma {:induction false} MonthHolds(c: DateTime, t: DateTime)
    requires Valid(c) && Valid(t) && c.day == 1 && c.micro == 0
    ensures Instant(c) <= Instant(t) < Instant(NextBucket(c, Month)) <==> t.year == c.year && t.month == c.month
    ensures Instant(c) < Instant(NextBucket(c, Month))
  {
    hide Instant;
    var next := NextBucket(c, Month);
    OrderIsCalendarOrder(t, c);
    OrderIsCalendarOrder(t, next);
    OrderIsCalendarOrder(c, next);
  }

  // Buckets are intervals: an instant is in the bucket that starts at an aligned time
  // exactly when it lies between that start and the next.
  lemma {:induction false} InBucketIff(c: DateTime, t: DateTime, unit: Unit)
    requires Valid(c) && Valid(t) && Aligned(c, unit)
    ensures BucketStart(t, unit) == c <==> Instant(c) <= Instant(t) < Instant(NextBucket(c, unit))
    ensures Instant(c) < Instant(NextBucket(c, unit)) && Aligned(NextBucket(c, unit), unit)
  {
    hide Instant;
    if unit.Month? {
      MonthHolds(c, t);
    } else {
      FixedInBucket(c, t, unit);
    }
  }

  lemma {:induction false} FixedInBucket(c: DateTime, t: DateTime, unit: Unit)
    requires Valid(c) && Valid(t) && !unit.Month? && Aligned(c, unit)
    ensures BucketStart(t, unit) == c <==> Instant(c) <= Instant(t) < Instant(NextBucket(c, unit))
    ensures Instant(c) < Instant(NextBucket(c, unit)) && Aligned(NextBucket(c, unit), unit)
  {
    hide Instant, BucketStart, NextBucket, Length, Base;
    var next := NextBucket(c, unit);
    FixedStart(t, unit);
    FixedStart(c, unit);
    FixedNext(c, unit);
    FixedStart(next, unit);
    LengthPositive(unit);
    var offset, length := Instant(c) - Base(unit), Length(unit);
    IntervalIff(offset, Instant(t) - Base(unit), length);
    Multiple(offset, length);
    OrderIsCalendarOrder(BucketStart(t, unit), c);
    OrderIsCalendarOrder(BucketStart(next, unit), next);
  }

  lemma LengthPositive(unit: Unit)
    requires !unit.Month?
    ensures Length(unit) > 0
  {
  }

  lemma Multiple(x: int, length: int)
    requires length > 0 && x % length == 0
    ensures (x + length) % length == 0
  {
    assert x == (x / length) * length;
    assert x + length == (x / length + 1) * length + 0;
    Quotient(x / length + 1, length, 0);
  }

  lemma IntervalIff(c: int, t: int, length: int)
    requires length > 0
    ensures c % length == 0 ==> (t - t % length == c <==> c <= t < c + length)
  {
    if c % length == 0 && c <= t < c + length {
      assert c == (c / length) * length;
      assert t == (c / length) * length + (t - c);
      Quotient(c / length, length, t - c);
    }
  }

  // Truncation gives an aligned start at or before the instant, with the next start after it.
  lemma {:induction false} StartHolds(t: DateTime, unit: Unit)
    requires Valid(t)
    ensures var c := BucketStart(t, unit);
            Aligned(c, unit) && Instant(c) <= Instant(t) < Instant(NextBucket(c, unit))
  {
    hide Instant;
    var c := BucketStart(t, unit);
    if !unit.Month? {
      FixedStartAligned(t, unit);
    }
    InBucketIff(c, t, unit);
  }

  lemma {:induction false} FixedStartAligned(t: DateTime, unit: Unit)
    requires Valid(t) && !unit.Month?
    ensures Aligned(BucketStart(t, unit), unit)
  {
    hide Instant, BucketStart, Length, Base;
    var c := BucketStart(t, unit);
    FixedStart(t, unit);
    FixedStart(c, unit);
    LengthPositive(unit);
    var x, length := Instant(t) - Base(unit), Length(unit);
    assert x == (x / length) * length + x % length;
    Quotient(x / length, length, 0);
    assert x - x % length == (x / length) * length + 0;
    OrderIsCalendarOrder(BucketStart(c, unit), c);
  }

  // ---------- the list of buckets ----------

  function BucketsFrom(cursor: DateTime, end: DateTime, unit: Unit): seq<DateTime>
    requires Valid(cursor) && Valid(end) && Aligned(cursor, unit)
    decreases Instant(end) - Instant(cursor) + 1
  {
    InBucketIff(cursor, cursor, unit);
    if Instant(cursor) > Instant(end) then []
    else [cursor] + BucketsFrom(NextBucket(cursor, unit), end, unit)
  }

  function BucketList(start: DateTime, end: DateTime, unit: Unit): seq<DateTime>
    requires Valid(start) && Valid(end)
  {
    StartHolds(start, unit);
    BucketsFrom(BucketStart(start, unit), end, unit)
  }

  method BuildBuckets(start: DateTime, end: DateTime, unit: Unit) returns (buckets: seq<DateTime>)
    requires Valid(start) && Valid(end)
    ensures buckets == BucketList(start, end, unit)
  {
    hide Instant, BucketStart, NextBucket, Earlier;
    var cursor := BucketStart(start, unit);
    StartHolds(start, unit);
    buckets := [];
    while !Earlier(end, cursor)
      invariant Valid(cursor) && Aligned(cursor, unit)
      invariant BucketList(start, end, unit) == buckets + BucketsFrom(cursor, end, unit)
      decreases Instant(end) - Instant(cursor) + 1
    {
      OrderIsCalendarOrder(end, cursor);
      InBucketIff(cursor, cursor, unit);
      buckets := buckets + [cursor];
      cursor := NextBucket(cursor, unit);
    }
    OrderIsCalendarOrder(end, cursor);
  }

  ghost predicate Increasing(ts: seq<DateTime>) {
    && (forall t :: t in ts ==> Valid(t))
    && (forall i, j :: 0 <= i < j < |ts| ==> Instant(ts[i]) < Instant(ts[j]))
  }

  lemma {:induction false} FromIsIncreasing(cursor: DateTime, end: DateTime, unit: Unit)
    requires Valid(cursor) && Valid(end) && Aligned(cursor, unit)
    ensures Increasing(BucketsFrom(cursor, end, unit))
    ensures forall t :: t in BucketsFrom(cursor, end, unit) ==>
              Valid(t) && Aligned(t, unit) && Instant(cursor) <= Instant(t) <= Instant(end)
    decreases Instant(end) - Instant(cursor) + 1
  {
    hide Instant, BucketStart, NextBucket;
    InBucketIff(cursor, cursor, unit);
    if Instant(cursor) <= Instant(end) {
      FromIsIncreasing(NextBucket(cursor, unit), end, unit);
      var rest := BucketsFrom(NextBucket(cursor, unit), end, unit);
      assert forall i :: 0 <= i < |rest| ==> rest[i] in rest;
    }
  }

  lemma {:induction false} FromHolds(cursor: DateTime, end: DateTime, unit: Unit, t: DateTime)
    requires Valid(cursor) && Valid(end) && Valid(t) && Aligned(cursor, unit) && Instant(cursor) <= Instant(t) <= Instant(end)
    ensures BucketStart(t, unit) in BucketsFrom(cursor, end, unit)
    decreases Instant(end) - Instant(cursor) + 1
  {
    hide Instant, BucketStart, NextBucket;
    InBucketIff(cursor, t, unit);
    if Instant(NextBucket(cursor, unit)) <= Instant(t) {
      FromHolds(NextBucket(cursor, unit), end, unit, t);
    }
  }

  // The list tiles the range: it is strictly increasing and aligned, and its members are
  // exactly the buckets of the instants from start to end.
  lemma {:induction false} BucketsTile(start: DateTime, end: DateTime, unit: Unit, c: DateTime)
    requires Valid(start) && Valid(end) && Instant(start) <= Instant(end)
    ensures Increasing(BucketList(start, end, unit))
    ensures c in BucketList(start, end, unit) <==>
              exists t :: Valid(t) && Instant(start) <= Instant(t) <= Instant(end) && BucketStart(t, unit) == c
  {
    hide Instant, BucketStart, NextBucket;
    var first, list := BucketStart(start, unit), BucketList(start, end, unit);
    StartHolds(start, unit);
    FromIsIncreasing(first, end, unit);
    if t :| Valid(t) && Instant(start) <= Instant(t) <= Instant(end) && BucketStart(t, unit) == c {
      FromHolds(first, end, unit, t);
    }
    if c in list {
      InBucketIff(c, c, unit);
      if c != first {
        LaterThanStart(start, end, unit, c);
        assert BucketStart(c, unit) == c;
      }
    }
  }

  lemma {:induction false} LaterThanStart(start: DateTime, end: DateTime, unit: Unit, c: DateTime)
    requires Valid(start) && Valid(end) && Valid(c) && c in BucketList(start, end, unit) && c != BucketStart(start, unit)
    ensures Instant(start) < Instant(c) <= Instant(end)
  {
    hide Instant, BucketStart, NextBucket;
    var first := BucketStart(start, unit);
    StartHolds(start, unit);
    InBucketIff(first, first, unit);
    FromIsIncreasing(NextBucket(first, unit), end, unit);
    FromIsIncreasing(first, end, unit);
    assert c in BucketsFrom(NextBucket(first, unit), end, unit);
  }

  // ---------- throughput ----------

  datatype Row = Row(updatedAt: DateTime, done: bool, board: nat)

  predicate Counted(row: Row, start: DateTime, end: DateTime, boards: set<nat>)
    requires Valid(row.updatedAt) && Valid(start) && Valid(end)
  {
    row.done && row.board in boards && Instant(start) <= Instant(row.updatedAt) <= Instant(end)
  }

  predicate RowsValid(rows: seq<Row>) {
    forall i :: 0 <= i < |rows| ==> Valid(rows[i].updatedAt)
  }

  // The rows the query counts, in all and by bucket.
  function CountAll(rows: seq<Row>, start: DateTime, end: DateTime, boards: set<nat>): nat
    requires RowsValid(rows) && Valid(start) && Valid(end)
  {
    if rows == [] then 0
    else (if Counted(rows[0], start, end, boards) then 1 else 0) + CountAll(rows[1..], start, end, boards)
  }

  function CountIn(rows: seq<Row>, start: DateTime, end: DateTime, boards: set<nat>, unit: Unit, c: DateTime): nat
    requires RowsValid(rows) && Valid(start) && Valid(end)
  {
    if rows == [] then 0
    else (if Counted(rows[0], start, end, boards) && BucketStart(rows[0].updatedAt, unit) == c then 1 else 0)
         + CountIn(rows[1..], start, end, boards, unit, c)
  }

  // A finished task of the boards, updated within the range and within the bucket.
  predicate Within(row: Row, start: DateTime, end: DateTime, boards: set<nat>, unit: Unit, c: DateTime)
    requires Valid(row.updatedAt) && Valid(start) && Valid(end) && Valid(c)
  {
    && row.done && row.board in boards && Instant(start) <= Instant(row.updatedAt) <= Instant(end)
    && Instant(c) <= Instant(row.updatedAt) < Instant(NextBucket(c, unit))
  }

  ghost function RowsOf(rows: seq<Row>, start: DateTime, end: DateTime, boards: set<nat>, unit: Unit, c: DateTime): set<nat>
    requires RowsValid(rows) && Valid(start) && Valid(end) && Valid(c)
  {
    set i: nat | i < |rows| && Within(rows[i], start, end, boards, unit, c)
  }

  lemma {:induction false} CountOneMore(rows: seq<Row>, row: Row, start: DateTime, end: DateTime, boards: set<nat>, unit: Unit,
                                        c: DateTime)
    requires RowsValid(rows) && Valid(row.updatedAt) && Valid(start) && Valid(end)
    ensures RowsValid(rows + [row])
    ensures CountIn(rows + [row], start, end, boards, unit, c)
            == CountIn(rows, start, end, boards, unit, c) + CountIn([row], start, end, boards, unit, c)
  {
    hide Instant, BucketStart, Counted;
    if rows == [] {
      assert rows + [row] == [row];
    } else {
      CountOneMore(rows[1..], row, start, end, boards, unit, c);
      assert (rows + [row])[1..] == rows[1..] + [row];
    }
  }

  // A point of the chart is the number of those rows.
  lemma {:induction false} PointCountsRows(rows: seq<Row>, start: DateTime, end: DateTime, boards: set<nat>, unit: Unit, c: DateTime)
    requires RowsValid(rows) && Valid(start) && Valid(end) && Valid(c) && Aligned(c, unit)
    ensures CountIn(rows, start, end, boards, unit, c) == |RowsOf(rows, start, end, boards, unit, c)|
    decreases |rows|
  {
    hide Instant, BucketStart, NextBucket, Aligned;
    if rows == [] {
      assert RowsOf(rows, start, end, boards, unit, c) == {};
    } else {
      var init, row := rows[..|rows| - 1], rows[|rows| - 1];
      PointCountsRows(init, start, end, boards, unit, c);
      OneRow(row, start, end, boards, unit, c);
      CountOneMore(init, row, start, end, boards, unit, c);
      RowsOneMore(init, row, start, end, boards, unit, c);
      assert rows == init + [row];
      hide CountIn, Within, RowsOf;
    }
  }

  lemma RowsOneMore(rows: seq<Row>, row: Row, start: DateTime, end: DateTime, boards: set<nat>, unit: Unit, c: DateTime)
    requires RowsValid(rows) && Valid(row.updatedAt) && Valid(start) && Valid(end) && Valid(c)
    ensures RowsValid(rows + [row])
    ensures |RowsOf(rows + [row], start, end, boards, unit, c)|
            == |RowsOf(rows, start, end, boards, unit, c)| + if Within(row, start, end, boards, unit, c) then 1 else 0
  {
    hide Within, Valid;
    var more: set<nat> := if Within(row, start, end, boards, unit, c) then {|rows|} else {};
    assert RowsOf(rows + [row], start, end, boards, unit, c) == RowsOf(rows, start, end, boards, unit, c) + more;
  }

  lemma OneRow(row: Row, start: DateTime, end: DateTime, boards: set<nat>, unit: Unit, c: DateTime)
    requires Valid(row.updatedAt) && Valid(start) && Valid(end) && Valid(c) && Aligned(c, unit)
    ensures CountIn([row], start, end, boards, unit, c) == if Within(row, start, end, boards, unit, c) then 1 else 0
  {
    InBucketIff(c, row.updatedAt, unit);
    hide Instant, BucketStart, NextBucket, Aligned;
    assert [row][1..] == [];
  }

  function Sum(values: seq<nat>): nat {
    if values == [] then 0 else values[0] + Sum(values[1..])
  }

  // The grouped query: its keys are the buckets of the rows it counts.
  function Grouped(rows: seq<Row>, start: DateTime, end: DateTime, boards: set<nat>, unit: Unit): map<DateTime, nat>
    requires RowsValid(rows) && Valid(start) && Valid(end)
  {
    map c | c in (set i | 0 <= i < |rows| && Counted(rows[i], start, end, boards) :: BucketStart(rows[i].updatedAt, unit))
      :: CountIn(rows, start, end, boards, unit, c)
  }

  function Points(rows: seq<Row>, start: DateTime, end: DateTime, boards: set<nat>, unit: Unit,
                  list: seq<DateTime>): seq<nat>
    requires RowsValid(rows) && Valid(start) && Valid(end)
  {
    seq(|list|, i requires 0 <= i < |list| => CountIn(rows, start, end, boards, unit, list[i]))
  }

  lemma {:induction false} SumOfOneMore(list: seq<DateTime>, values: seq<nat>, more: seq<nat>, c: DateTime)
    requires |values| == |more| == |list| && c in list && forall i, j :: 0 <= i < j < |list| ==> list[i] != list[j]
    requires forall i :: 0 <= i < |list| ==> more[i] == values[i] + (if list[i] == c then 1 else 0)
    ensures Sum(more) == Sum(values) + 1
  {
    if list[0] == c {
      assert more[1..] == values[1..];
    } else {
      assert c in list[1..];
      SumOfOneMore(list[1..], values[1..], more[1..], c);
    }
  }

  lemma {:induction false} SumOfNone(values: seq<nat>)
    requires forall i :: 0 <= i < |values| ==> values[i] == 0
    ensures Sum(values) == 0
  {
    if values != [] {
      SumOfNone(values[1..]);
    }
  }

  // No row is lost and none is counted twice.
  lemma {:induction false} PointsAddUp(rows: seq<Row>, start: DateTime, end: DateTime, boards: set<nat>, unit: Unit)
    requires RowsValid(rows) && Valid(start) && Valid(end)
    ensures Sum(Points(rows, start, end, boards, unit, BucketList(start, end, unit))) == CountAll(rows, start, end, boards)
  {
    hide Instant, BucketStart, NextBucket, BucketList;
    var list := BucketList(start, end, unit);
    var points := Points(rows, start, end, boards, unit, list);
    if rows == [] {
      SumOfNone(points);
    } else {
      PointsAddUp(rows[1..], start, end, boards, unit);
      var rest := Points(rows[1..], start, end, boards, unit, list);
      if Counted(rows[0], start, end, boards) {
        var c := BucketStart(rows[0].updatedAt, unit);
        BucketsTile(start, end, unit, c);
        SumOfOneMore(list, rest, points, c);
      } else {
        assert points == rest;
      }
    }
  }

  method QueryThroughput(rows: seq<Row>, start: DateTime, end: DateTime, boards: set<nat>,
                         unit: Unit) returns (points: seq<nat>)
    requires RowsValid(rows) && Valid(start) && Valid(end)
    ensures points == Points(rows, start, end, boards, unit, BucketList(start, end, unit))
    ensures Sum(points) == CountAll(rows, start, end, boards)
  {
    hide Instant, BucketStart, NextBucket, BucketList;
    var mapping := if boards == {} then map[] else Grouped(rows, start, end, boards, unit);
    var buckets := BuildBuckets(start, end, unit);
    points := [];
    for i := 0 to |buckets|
      invariant |points| == i
      invariant forall k :: 0 <= k < i ==> points[k] == CountIn(rows, start, end, boards, unit, buckets[k])
    {
      MissingIsZero(rows, start, end, boards, unit, buckets[i]);
      points := points + [if buckets[i] in mapping then mapping[buckets[i]] else 0];
    }
    PointsAddUp(rows, start, end, boards, unit);
    assert points == Points(rows, start, end, boards, unit, BucketList(start, end, unit));
  }

  lemma {:induction false} MissingIsZero(rows: seq<Row>, start: DateTime, end: DateTime, boards: set<nat>,
                                         unit: Unit, c: DateTime)
    requires RowsValid(rows) && Valid(start) && Valid(end)
    ensures c !in Grouped(rows, start, end, boards, unit) || boards == {} ==> CountIn(rows, start, end, boards, unit, c) == 0
  {
    hide Instant, BucketStart;
    if rows != [] && (c !in Grouped(rows, start, end, boards, unit) || boards == {}) {
      var rest := rows[1..];
      forall i | 0 <= i < |rest| && Counted(rest[i], start, end, boards)
        ensures BucketStart(rest[i].updatedAt, unit) != c
      {
        assert rows[i + 1] == rest[i];
      }
      MissingIsZero(rest, start, end, boards, unit, c);
      assert Counted(rows[0], start, end, boards) ==> BucketStart(rows[0].updatedAt, unit) != c;
    }
  }
}
