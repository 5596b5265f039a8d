/** The crash table the dashboard loads (one row per crash, columns as in the
    source CSV) and the calendar dates it carries. */
module Records {

  datatype Date = Date(year: int, month: int, day: int)

  predicate IsLeapYear(y: int)
  {
    y % 4 == 0 && (y % 100 != 0 || y % 400 == 0)
  }

  function DaysInMonth(y: int, m: int): (n: int)
    requires 1 <= m <= 12
    ensures 28 <= n <= 31
  {
    if m == 2 then (if IsLeapYear(y) then 29 else 28)
    else if m == 4 || m == 6 || m == 9 || m == 11 then 30
    else 31
  }

  /** A date a pandas `Timestamp` can hold: a real calendar day in the years
      1677 to 2262 that `datetime64[ns]` spans. */
  predicate IsTimestamp(d: Date)
  {
    1677 <= d.year <= 2262 && 1 <= d.month <= 12 && 1 <= d.day <= DaysInMonth(d.year, d.month)
  }

  type Timestamp = d: Date | IsTimestamp(d) witness Date(1970, 1, 1)

  /** Chronological order on dates. */
  predicate Before(a: Date, b: Date)
  {
    a.year < b.year
    || (a.year == b.year && a.month < b.month)
    || (a.year == b.year && a.month == b.month && a.day < b.day)
  }

  predicate AtOrBefore(a: Date, b: Date)
  {
    Before(a, b) || a == b
  }

  /** `d - pd.DateOffset(years=n)`: the same month and day `n` years earlier,
      the day clamped to the end of that month (29 February becomes 28 February). */
  function MinusYears(d: Timestamp, n: nat): (r: Date)
    ensures r.year == d.year - n && r.month == d.month
    ensures 1 <= r.day <= DaysInMonth(r.year, r.month) && r.day <= d.day
    ensures d.day <= DaysInMonth(r.year, r.month) ==> r.day == d.day
    ensures d.day > DaysInMonth(r.year, r.month) ==> r.day == DaysInMonth(r.year, r.month)
  {
    var y := d.year - n;
    var last := DaysInMonth(y, d.month);
    Date(y, d.month, if d.day <= last then d.day else last)
  }

  lemma MinusYearsIsEarlier(d: Timestamp, n: nat)
    ensures n == 0 ==> MinusYears(d, n) == d
    ensures n > 0 ==> Before(MinusYears(d, n), d)
  {
  }

  /** One row of the crash table (`Road_Crashes_for_five_Years_Victoria.csv`). */
  datatype CrashRecord = CrashRecord(
    accidentNo: string,
    date: Timestamp,
    latitude: real,
    longitude: real,
    accidentType: string,
    rmaAll: string,
    severity: string,
    policeAttend: string,
    totalPersons: nat,
    injOrFatal: nat,
    fatality: nat,
    seriousInjury: nat,
    otherInjury: nat,
    nonInjured: nat)
}
