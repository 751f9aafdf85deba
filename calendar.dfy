/** The slice of chrono's proleptic Gregorian calendar the crate uses: `NaiveDate` (with its
    year range), `NaiveTime` at whole seconds, and `DateTime<FixedOffset>` as local fields plus
    a fixed offset in minutes east of UTC. */
module Calendar {
  import opened Wrappers

  /** chrono's representable years (`(i32::MIN >> 13) + 1` through `(i32::MAX >> 13) - 1`):
      `NaiveDate::MIN` is -262143-01-01 and `NaiveDate::MAX` is 262142-12-31. */
  const MinYear: int := -262143
  const MaxYear: int := 262142

  datatype Date = Date(year: int, month: int, day: int)

  datatype Time = Time(hour: int, minute: int, second: int)

  /** A date-time with a fixed offset: local calendar fields and the offset, in minutes east of
      UTC, that they are expressed in. */
  datatype DateTime = DateTime(date: Date, time: Time, offset: int)

  const MaxDate: Date := Date(MaxYear, 12, 31)

  /** The fixed offset of Japan Standard Time, +09:00. */
  const JstOffset: int := 9 * 60

  predicate IsLeapYear(y: int) {
    y % 4 == 0 && (y % 100 != 0 || y % 400 == 0)
  }

  function DaysInMonth(y: int, m: int): (n: int)
    requires 1 <= m <= 12
    ensures 28 <= n <= 31
  {
    if m == 2 then (if IsLeapYear(y) then 29 else 28)
    else if m == 4 || m == 6 || m == 9 || m == 11 then 30
    else 31
  }

  /** `NaiveDate::from_ymd_opt(y, m, d).is_some()`. */
  predicate ValidDate(d: Date) {
    MinYear <= d.year <= MaxYear && 1 <= d.month <= 12 && 1 <= d.day <= DaysInMonth(d.year, d.month)
  }

  /** `NaiveTime::from_hms_opt(h, m, s).is_some()`. */
  predicate ValidTime(t: Time) {
    0 <= t.hour < 24 && 0 <= t.minute < 60 && 0 <= t.second < 60
  }

  /** `FixedOffset::east_opt` accepts strictly less than a day either way. */
  predicate ValidOffset(offset: int) {
    -24 * 60 < offset < 24 * 60
  }

  predicate ValidDateTime(dt: DateTime) {
    ValidDate(dt.date) && ValidTime(dt.time) && ValidOffset(dt.offset)
  }

  function SecondOfDay(t: Time): int {
    t.hour * 3600 + t.minute * 60 + t.second
  }

  /** `NaiveTime`'s order. */
  predicate TimeLess(a: Time, b: Time) {
    SecondOfDay(a) < SecondOfDay(b)
  }

  /** `NaiveDate`'s order. */
  predicate DateLess(a: Date, b: Date) {
    a.year < b.year
    || (a.year == b.year && a.month < b.month)
    || (a.year == b.year && a.month == b.month && a.day < b.day)
  }

  /** Local date-time order: by date, then by time of day. */
  predicate LocalLe(a: DateTime, b: DateTime) {
    DateLess(a.date, b.date) || (a.date == b.date && SecondOfDay(a.time) <= SecondOfDay(b.time))
  }

  /** `NaiveDate::succ_opt`: the next calendar day, or `None` past chrono's last date. */
  function Succ(d: Date): (r: Option<Date>)
    requires ValidDate(d)
    ensures r.None? <==> d == MaxDate
    ensures r.Some? ==> ValidDate(r.value) && DateLess(d, r.value)
  {
    if d.day < DaysInMonth(d.year, d.month) then Some(Date(d.year, d.month, d.day + 1))
    else if d.month < 12 then Some(Date(d.year, d.month + 1, 1))
    else if d.year < MaxYear then Some(Date(d.year + 1, 1, 1))
    else None
  }

  /** No valid date lies strictly between a date and its successor: every valid date after `d`
      is on or after `Succ(d)`. */
  lemma SuccIsNextDate(d: Date, e: Date)
    requires ValidDate(d) && ValidDate(e) && DateLess(d, e)
    ensures Succ(d).Some? && (Succ(d).value == e || DateLess(Succ(d).value, e))
  {
  }

  /** The ends of chrono's range: -262143-01-01 is the first date and 262142-12-31 the last,
      which has no successor; the years just outside are not dates. */
  lemma RangeEnds()
    ensures ValidDate(Date(-262143, 1, 1)) && !ValidDate(Date(-262144, 12, 31))
    ensures ValidDate(Date(262142, 12, 31)) && !ValidDate(Date(262143, 1, 1))
    ensures Succ(Date(262142, 12, 31)) == None
    ensures Succ(Date(262142, 12, 30)) == Some(Date(262142, 12, 31))
  {
  }

  lemma DateLessTransitive(a: Date, b: Date, c: Date)
    requires DateLess(a, b) && DateLess(b, c)
    ensures DateLess(a, c)
  {
  }

  lemma LocalLeTransitive(a: DateTime, b: DateTime, c: DateTime)
    requires LocalLe(a, b) && LocalLe(b, c)
    ensures LocalLe(a, c)
  {
  }
}
