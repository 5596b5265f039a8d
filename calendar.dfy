/** The calendar columns both crash loaders derive from `ACCIDENT_DATE`
    (hello.py `loadData` and the environmental-factor page's `loadData`):
    `ACCIDENT_YEAR`, `ACCIDENT_YEARMONTH` (`strftime('%Y-%m')`) and
    `ACCIDENT_MONTH` (`strftime('%m')`). */
module Calendar {
  import opened Decimal
  import opened Records

  /** `dt.strftime('%Y')`. */
  function YearText(d: Timestamp): string
  {
    ZeroPad(d.year, 4)
  }

  /** `dt.strftime('%m')`. */
  function MonthText(d: Timestamp): string
  {
    ZeroPad(d.month, 2)
  }

  /** `dt.strftime('%Y-%m')`. */
  function YearMonthText(d: Timestamp): string
  {
    YearText(d) + "-" + MonthText(d)
  }

  /** `ACCIDENT_YEARMONTH` is "YYYY-MM": four digits of the year, a dash, two digits
      of the month; `ACCIDENT_MONTH` is its last two characters and reads back as a
      month 1..12, and its first four characters read back as `ACCIDENT_YEAR`. */
  lemma YearMonthLayout(d: Timestamp)
    ensures var ym := YearMonthText(d);
      && |ym| == 7 && ym[4] == '-'
      && AllDigits(ym[..4]) && AllDigits(ym[5..])
      && ParseDigits(ym[..4]) == d.year
      && ym[5..] == MonthText(d)
      && |MonthText(d)| == 2
      && ParseDigits(MonthText(d)) == d.month
      && 1 <= ParseDigits(MonthText(d)) <= 12
  {
    assert Pow10(4) == 10000 && Pow10(2) == 100;
    ZeroPadField(d.year, 4);
    ZeroPadField(d.month, 2);
    var ym := YearMonthText(d);
    assert ym[..4] == YearText(d);
    assert ym[5..] == MonthText(d);
  }

  /** Two crashes share a year-month key exactly when they fall in the same
      calendar month of the same year. */
  lemma YearMonthKeyIff(a: Timestamp, b: Timestamp)
    ensures YearMonthText(a) == YearMonthText(b) <==> a.year == b.year && a.month == b.month
  {
    var ya, yb := YearMonthText(a), YearMonthText(b);
    if ya == yb {
      YearMonthLayout(a);
      YearMonthLayout(b);
      assert ya[..4] == yb[..4];
      assert MonthText(a) == ya[5..] == yb[5..] == MonthText(b);
    }
  }

  /** The crash table with the derived calendar columns that `loadData` adds to it
      in place, one entry per row. */
  class CrashFrame {
    var rows: seq<CrashRecord>
    var accidentYear: seq<int>
    var accidentYearMonth: seq<string>
    var accidentMonth: seq<string>

    /** Derived columns are present and hold one entry per row. */
    ghost predicate HasCalendarColumns()
      reads this
    {
      |accidentYear| == |accidentYearMonth| == |accidentMonth| == |rows|
    }

    /** The frame `read_csv` returns, with `ACCIDENT_DATE` already parsed. */
    constructor (rows: seq<CrashRecord>)
      ensures this.rows == rows
      ensures accidentYear == [] && accidentYearMonth == [] && accidentMonth == []
    {
      this.rows := rows;
      accidentYear, accidentYearMonth, accidentMonth := [], [], [];
    }

    /** hello.py:10-12: the three column assignments of `loadData`. */
    method DeriveCalendarColumns()
      modifies this
      ensures rows == old(rows) && HasCalendarColumns()
      ensures forall i :: 0 <= i < |rows| ==> accidentYear[i] == rows[i].date.year
      ensures forall i :: 0 <= i < |rows| ==> accidentYearMonth[i] == YearMonthText(rows[i].date)
      ensures forall i :: 0 <= i < |rows| ==> accidentMonth[i] == MonthText(rows[i].date)
    {
      accidentYear := seq(|rows|, i requires 0 <= i < |rows| reads this => rows[i].date.year);
      accidentYearMonth := seq(|rows|, i requires 0 <= i < |rows| reads this => YearMonthText(rows[i].date));
      accidentMonth := seq(|rows|, i requires 0 <= i < |rows| reads this => MonthText(rows[i].date));
    }
  }

  /** `loadData`'s calendar columns agree row by row: the month column is the tail of
      the year-month column and the year column is its head. */
  lemma CalendarColumnsAgree(frame: CrashFrame, i: nat)
    requires frame.HasCalendarColumns() && i < |frame.rows|
    requires frame.accidentYear[i] == frame.rows[i].date.year
    requires frame.accidentYearMonth[i] == YearMonthText(frame.rows[i].date)
    requires frame.accidentMonth[i] == MonthText(frame.rows[i].date)
    ensures |frame.accidentYearMonth[i]| == 7
    ensures frame.accidentMonth[i] == frame.accidentYearMonth[i][5..]
    ensures AllDigits(frame.accidentYearMonth[i][..4])
    ensures ParseDigits(frame.accidentYearMonth[i][..4]) == frame.accidentYear[i]
  {
    YearMonthLayout(frame.rows[i].date);
  }
}
