/**
 * Date keys of the per-date table (extractDate and the copies inlined in updateDateData and the
 * worker's aggregateByDate) and the DD-MMM-YY sort key of convertDateForSorting.
 */
module DateKeys {
  import opened Wrappers
  import opened Numbers

  /**
   * new Date(s) followed by toLocaleDateString('en-GB', 2-digit day, short month, 2-digit year)
   * with spaces turned into hyphens and upper-cased; None when the date is invalid. It depends on
   * the engine, the locale and the time zone, so the model takes it as a parameter.
   */
  type DateRender = string -> Option<string>

  predicate IsUpper(c: char) {
    'A' <= c <= 'Z'
  }

  /** /^\d{2}-[A-Z]{3}-\d{2}$/ */
  predicate IsDdMmmYy(s: string) {
    |s| == 9 && IsDigit(s[0]) && IsDigit(s[1]) && s[2] == '-'
    && IsUpper(s[3]) && IsUpper(s[4]) && IsUpper(s[5]) && s[6] == '-'
    && IsDigit(s[7]) && IsDigit(s[8])
  }

  /** /^\d{4}-\d{2}-\d{2}$/ */
  predicate IsIsoDate(s: string) {
    |s| == 10 && IsDigit(s[0]) && IsDigit(s[1]) && IsDigit(s[2]) && IsDigit(s[3]) && s[4] == '-'
    && IsDigit(s[5]) && IsDigit(s[6]) && s[7] == '-' && IsDigit(s[8]) && IsDigit(s[9])
  }

  /** s.split(' ')[0]: the text before the first space, or all of `s` when it has none. */
  function BeforeSpace(s: string): (r: string)
    ensures |r| <= |s| && r == s[..|r|] && ' ' !in r
    ensures |r| < |s| ==> s[|r|] == ' '
  {
    if s == [] || s[0] == ' ' then [] else [s[0]] + BeforeSpace(s[1..])
  }

  /**
   * extractDate (tableData.js): "Unknown" for an empty value; otherwise the text before the first
   * space, kept as it is when it is a DD-MMM-YY key and rendered through the date parser otherwise
   * (the text itself when the parser rejects it).
   */
  function ExtractDate(raw: string, render: DateRender): string {
    if raw == "" then "Unknown"
    else
      var d := BeforeSpace(raw);
      if IsDdMmmYy(d) then d
      else if IsIsoDate(d) then
        match render(d)
        case Some(t) => t
        case None => d
      else
        match render(d)
        case Some(t) => t
        case None => d
  }

  /**
   * The ISO and generic branches render alike: an empty value is "Unknown", a DD-MMM-YY prefix is
   * kept, and any other prefix is rendered, or kept when the parser rejects it.
   */
  lemma ExtractDateCases(raw: string, render: DateRender)
    ensures raw == "" ==> ExtractDate(raw, render) == "Unknown"
    ensures raw != "" && IsDdMmmYy(BeforeSpace(raw)) ==> ExtractDate(raw, render) == BeforeSpace(raw)
    ensures raw != "" && !IsDdMmmYy(BeforeSpace(raw)) ==>
      ExtractDate(raw, render) == (match render(BeforeSpace(raw)) case Some(t) => t case None => BeforeSpace(raw))
  {
  }

  /**
   * The extraction written out inline in FileHandler.updateDateData and in the worker's
   * aggregateByDate: `date` starts as "Unknown"; for a non-empty value the text is cut at its first
   * space only when it holds one, then the DD-MMM-YY, ISO and generic branches assign `date`. It
   * yields extractDate's key on every value and every date parser.
   */
  method InlineDateKey(raw: string, render: DateRender) returns (date: string)
    ensures date == ExtractDate(raw, render)
  {
    date := "Unknown";
    if raw != "" {
      var dateStr := raw;
      if ' ' in dateStr {
        dateStr := BeforeSpace(dateStr);
      } else {
        BeforeSpaceNoSpace(dateStr);
      }
      if IsDdMmmYy(dateStr) {
        date := dateStr;
      } else if IsIsoDate(dateStr) {
        match render(dateStr)
        case Some(t) => date := t;
        case None => date := dateStr;
      } else {
        match render(dateStr)
        case Some(t) => date := t;
        case None => date := dateStr;
      }
    }
  }

  /** A DD-MMM-YY key, bare or followed by a time, extracts to itself. */
  lemma ExtractDateOfKey(key: string, time: string, render: DateRender)
    requires IsDdMmmYy(key)
    ensures ExtractDate(key, render) == key
    ensures ExtractDate(key + " " + time, render) == key
  {
    BeforeSpaceStops(key, time);
    assert BeforeSpace(key) == key by {
      BeforeSpaceStops(key, "");
      assert key + " " + "" == key + " ";
      assert BeforeSpace(key + " ") == key;
      BeforeSpaceNoSpace(key);
    }
  }

  lemma {:induction false} BeforeSpaceNoSpace(s: string)
    requires ' ' !in s
    ensures BeforeSpace(s) == s
  {
    if s != [] {
      assert ' ' !in s[1..];
      BeforeSpaceNoSpace(s[1..]);
    }
  }

  lemma {:induction false} BeforeSpaceStops(w: string, t: string)
    requires ' ' !in w
    ensures BeforeSpace(w + " " + t) == w
  {
    if w == [] {
      assert (w + " " + t)[0] == ' ';
    } else {
      assert (w + " " + t)[1..] == w[1..] + " " + t;
      assert ' ' !in w[1..];
      BeforeSpaceStops(w[1..], t);
    }
  }

  // ---------------------------------------------------------------------------
  // convertDateForSorting on DD-MMM-YY keys

  /** The JAN..DEC table: month index 0..11, or None for any other three letters. */
  function MonthIndex(m: string): (r: Option<nat>)
    ensures r.Some? ==> r.value < 12
  {
    if m == "JAN" then Some(0) else if m == "FEB" then Some(1) else if m == "MAR" then Some(2)
    else if m == "APR" then Some(3) else if m == "MAY" then Some(4) else if m == "JUN" then Some(5)
    else if m == "JUL" then Some(6) else if m == "AUG" then Some(7) else if m == "SEP" then Some(8)
    else if m == "OCT" then Some(9) else if m == "NOV" then Some(10) else if m == "DEC" then Some(11)
    else None
  }

  /** Two-digit years below 50 are 20yy, the rest 19yy. */
  function FullYear(yy: nat): (y: nat)
    requires yy < 100
    ensures 1950 <= y <= 2049
    ensures yy < 50 ==> y == 2000 + yy
    ensures yy >= 50 ==> y == 1900 + yy
  {
    if yy < 50 then 2000 + yy else 1900 + yy
  }

  predicate IsLeap(y: nat) {
    (y % 4 == 0 && y % 100 != 0) || y % 400 == 0
  }

  function DaysInYear(y: nat): nat {
    if IsLeap(y) then 366 else 365
  }

  function DaysInMonth(y: nat, m: nat): (r: nat)
    requires m < 12
    ensures 28 <= r <= 31
  {
    if m == 1 then (if IsLeap(y) then 29 else 28)
    else if m == 3 || m == 5 || m == 8 || m == 10 then 30
    else 31
  }

  /** Days from 1 January of year `y` to the first day of month `m`. */
  function DaysBeforeMonth(y: nat, m: nat): nat
    requires m <= 12
  {
    if m == 0 then 0 else DaysBeforeMonth(y, m - 1) + DaysInMonth(y, m - 1)
  }

  /** Days from 1 January 1900 to 1 January of year `y`. */
  function DaysBeforeYear(y: nat): nat
    requires y >= 1900
    decreases y
  {
    if y == 1900 then 0 else DaysBeforeYear(y - 1) + DaysInYear(y - 1)
  }

  /**
   * new Date(y, m, d) as a day count: linear in `d`, so a day outside the month (00 or 31-FEB)
   * rolls over into the neighbouring month exactly as the JavaScript Date constructor does.
   */
  function DayNumber(y: nat, m: nat, d: int): int
    requires y >= 1900 && m < 12
  {
    DaysBeforeYear(y) + DaysBeforeMonth(y, m) + d
  }

  function TwoDigits(a: char, b: char): (r: nat)
    requires IsDigit(a) && IsDigit(b)
    ensures r < 100
  {
    DigitValue(a) * 10 + DigitValue(b)
  }

  /**
   * convertDateForSorting: the day number of a DD-MMM-YY key, None (NaN) for a key whose month is
   * not in the table and for every key of another shape.
   */
  function SortKey(s: string): Option<int> {
    if IsDdMmmYy(s) then
      match MonthIndex(s[3..6])
      case Some(m) => Some(DayNumber(FullYear(TwoDigits(s[7], s[8])), m, TwoDigits(s[0], s[1])))
      case None => None
    else None
  }

  lemma DaysBeforeMonthStep(y: nat, m: nat)
    requires m < 12
    ensures DaysBeforeMonth(y, m + 1) == DaysBeforeMonth(y, m) + DaysInMonth(y, m)
  {
  }

  lemma {:induction false} DaysBeforeMonthMono(y: nat, m1: nat, m2: nat)
    requires m1 <= m2 <= 12
    ensures DaysBeforeMonth(y, m1) <= DaysBeforeMonth(y, m2)
    decreases m2 - m1
  {
    if m1 < m2 {
      DaysBeforeMonthMono(y, m1, m2 - 1);
    }
  }

  lemma DaysBeforeMonthYear(y: nat)
    ensures DaysBeforeMonth(y, 12) == DaysInYear(y)
  {
    var feb := if IsLeap(y) then 29 else 28;
    assert DaysBeforeMonth(y, 1) == 31;
    assert DaysBeforeMonth(y, 2) == 31 + feb;
    assert DaysBeforeMonth(y, 3) == 62 + feb;
    assert DaysBeforeMonth(y, 4) == 92 + feb;
    assert DaysBeforeMonth(y, 5) == 123 + feb;
    assert DaysBeforeMonth(y, 6) == 153 + feb;
    assert DaysBeforeMonth(y, 7) == 184 + feb;
    assert DaysBeforeMonth(y, 8) == 215 + feb;
    assert DaysBeforeMonth(y, 9) == 245 + feb;
    assert DaysBeforeMonth(y, 10) == 276 + feb;
    assert DaysBeforeMonth(y, 11) == 306 + feb;
  }

  lemma {:induction false} DaysBeforeYearMono(y1: nat, y2: nat)
    requires 1900 <= y1 <= y2
    ensures DaysBeforeYear(y1) + (if y1 < y2 then DaysInYear(y1) else 0) <= DaysBeforeYear(y2)
    decreases y2 - y1
  {
    if y1 < y2 {
      assert DaysBeforeYear(y1 + 1) == DaysBeforeYear(y1) + DaysInYear(y1);
      if y1 + 1 < y2 {
        DaysBeforeYearMono(y1 + 1, y2);
      }
    }
  }

  /** For real calendar dates the day numbers are ordered like (year, month, day) tuples. */
  lemma DayNumberOrder(y1: nat, m1: nat, d1: int, y2: nat, m2: nat, d2: int)
    requires 1900 <= y1 && 1900 <= y2 && m1 < 12 && m2 < 12
    requires 1 <= d1 <= DaysInMonth(y1, m1) && 1 <= d2 <= DaysInMonth(y2, m2)
    ensures DayNumber(y1, m1, d1) < DayNumber(y2, m2, d2) <==>
      (y1 < y2 || (y1 == y2 && (m1 < m2 || (m1 == m2 && d1 < d2))))
  {
    if y1 < y2 {
      EndOfYear(y1, m1, d1);
      DaysBeforeYearMono(y1, y2);
    } else if y2 < y1 {
      EndOfYear(y2, m2, d2);
      DaysBeforeYearMono(y2, y1);
    } else if m1 < m2 {
      DaysBeforeMonthStep(y1, m1);
      DaysBeforeMonthMono(y1, m1 + 1, m2);
    } else if m2 < m1 {
      DaysBeforeMonthStep(y1, m2);
      DaysBeforeMonthMono(y1, m2 + 1, m1);
    }
  }

  /** A real date lies before the first day of the next year. */
  lemma EndOfYear(y: nat, m: nat, d: int)
    requires 1900 <= y && m < 12 && 1 <= d <= DaysInMonth(y, m)
    ensures DayNumber(y, m, d) <= DaysBeforeYear(y) + DaysInYear(y)
  {
    DaysBeforeMonthStep(y, m);
    DaysBeforeMonthMono(y, m + 1, 12);
    DaysBeforeMonthYear(y);
  }

  /** The calendar reading of a DD-MMM-YY key with a known month and a day inside that month. */
  predicate IsCalendarKey(s: string) {
    IsDdMmmYy(s) && MonthIndex(s[3..6]).Some?
    && 1 <= TwoDigits(s[0], s[1]) <= DaysInMonth(FullYear(TwoDigits(s[7], s[8])), MonthIndex(s[3..6]).value)
  }

  /**
   * On DD-MMM-YY keys naming real dates, the sort key orders by full year (with the 50 pivot),
   * then month, then day.
   */
  lemma SortKeyOrder(a: string, b: string)
    requires IsCalendarKey(a) && IsCalendarKey(b)
    ensures SortKey(a).Some? && SortKey(b).Some?
    ensures var ya := FullYear(TwoDigits(a[7], a[8]));
            var yb := FullYear(TwoDigits(b[7], b[8]));
            var ma := MonthIndex(a[3..6]).value;
            var mb := MonthIndex(b[3..6]).value;
            var da := TwoDigits(a[0], a[1]);
            var db := TwoDigits(b[0], b[1]);
            SortKey(a).value < SortKey(b).value <==> (ya < yb || (ya == yb && (ma < mb || (ma == mb && da < db))))
  {
    var ya := FullYear(TwoDigits(a[7], a[8]));
    var yb := FullYear(TwoDigits(b[7], b[8]));
    var ma := MonthIndex(a[3..6]).value;
    var mb := MonthIndex(b[3..6]).value;
    DayNumberOrder(ya, ma, TwoDigits(a[0], a[1]), yb, mb, TwoDigits(b[0], b[1]));
  }

  /**
   * The order formatTableData sorts by: ascending sort key, with keys that have none (NaN in the
   * source) placed after all others.
   */
  predicate Before(a: string, b: string) {
    match SortKey(a)
    case None => SortKey(b).None?
    case Some(x) => SortKey(b).None? || x <= SortKey(b).value
  }

  lemma BeforeTotal(a: string, b: string)
    ensures Before(a, b) || Before(b, a)
  {
  }

  lemma BeforeTrans(a: string, b: string, c: string)
    requires Before(a, b) && Before(b, c)
    ensures Before(a, c)
  {
  }
}
