/** The parts of Go's `time` package the core relies on: `time.Parse` with
    the layouts "02-01-2006", "15:04" and "15.04", `Time.Format` with
    "02-01-2006", and `Time.Before`. */
module GoTime {
  import opened Outcomes
  import opened Text

  datatype Date = Date(year: int, month: int, day: int)

  datatype Clock = Clock(hour: int, minute: int)

  /** An absolute instant, written as its UTC calendar fields. */
  datatype Instant = Instant(year: int, month: int, day: int,
                             hour: int, minute: int, second: int, nanosecond: int)

  predicate IsLeap(year: int) {
    year % 4 == 0 && (year % 100 != 0 || year % 400 == 0)
  }

  /** Length of `month` in `year` in the proleptic Gregorian calendar. */
  function DaysIn(month: int, year: int): (n: int)
    requires 1 <= month <= 12
    ensures 28 <= n <= 31
    ensures n == 29 <==> month == 2 && IsLeap(year)
  {
    if month == 2 then (if IsLeap(year) then 29 else 28)
    else if month == 4 || month == 6 || month == 9 || month == 11 then 30
    else 31
  }

  predicate IsRealDate(d: Date) {
    1 <= d.month <= 12 && 1 <= d.day <= DaysIn(d.month, d.year)
  }

  /** The texts layout "02-01-2006" accepts: two-digit day, dash, two-digit
      month, dash, four-digit year, naming a real calendar date. */
  predicate IsDateText(s: string) {
    && |s| == 10 && DigitsAt(s, 0, 1) && s[2] == '-' && DigitsAt(s, 3, 4) && s[5] == '-'
    && AllDigits(s[6..])
    && IsRealDate(Date(DigitsValue(s[6..]), TwoDigits(s, 3), TwoDigits(s, 0)))
  }

  /** Go's `getnum(s, fixed)`: one or two leading digits; with `fixed`, exactly two. */
  function GetNum(s: string, fixed: bool): (r: Option<(nat, string)>)
    ensures r.Some? ==> r.value.0 <= 99 && |r.value.1| < |s|
  {
    if |s| == 0 || !IsDigit(s[0]) then None
    else if |s| == 1 || !IsDigit(s[1]) then
      (if fixed then None else Some((DigitValue(s[0]), s[1..])))
    else Some((DigitValue(s[0]) * 10 + DigitValue(s[1]), s[2..]))
  }

  /** Matching one literal layout character. */
  function Skip(s: string, c: char): (r: Option<string>)
    ensures r.Some? <==> |s| > 0 && s[0] == c
    ensures r.Some? ==> r.value == s[1..]
  {
    if |s| > 0 && s[0] == c then Some(s[1..]) else None
  }

  /** The "2006" element: four characters, the first a digit, read by `atoi`
      (which fails unless all four are digits). */
  function LongYear(s: string): (r: Option<(nat, string)>)
  {
    if |s| < 4 || !IsDigit(s[0]) then None
    else if !AllDigits(s[..4]) then None
    else Some((DigitsValue(s[..4]), s[4..]))
  }

  predicate DigitsAt(s: string, i: nat, j: nat) {
    i < |s| && j < |s| && IsDigit(s[i]) && IsDigit(s[j])
  }

  function TwoDigits(s: string, i: nat): (n: nat)
    requires DigitsAt(s, i, i + 1)
    ensures n <= 99
  {
    DigitValue(s[i]) * 10 + DigitValue(s[i + 1])
  }

  /** `time.Parse("02-01-2006", s)`, keeping only the calendar date. */
  function ParseDate(s: string): (r: Option<Date>)
    ensures r.Some? <==> IsDateText(s)
    ensures r.Some? ==> r.value == Date(DigitsValue(s[6..]), TwoDigits(s, 3), TwoDigits(s, 0))
  {
    match GetNum(s, true)
    case None => None
    case Some((day, afterDay)) =>
      assert afterDay == s[2..];
      match Skip(afterDay, '-')
      case None => None
      case Some(monthText) =>
        match GetNum(monthText, true)
        case None => None
        case Some((month, afterMonth)) =>
          assert afterMonth == s[5..];
          if month < 1 || month > 12 then None
          else
            match Skip(afterMonth, '-')
            case None => None
            case Some(yearText) =>
              assert yearText == s[6..];
              match LongYear(yearText)
              case None => None
              case Some((year, rest)) =>
                assert day == TwoDigits(s, 0) && month == TwoDigits(s, 3);
                if rest != "" then None
                else
                  assert yearText[..4] == s[6..];
                  if day < 1 || day > DaysIn(month, year) then None
                  else Some(Date(year, month, day))
  }

  /** `time.Parse("15" + [sep] + "04", s)`, keeping hour and minute: the hour
      takes one or two digits, the minute exactly two. */
  function ParseClock(s: string, sep: char): (r: Option<Clock>)
    ensures r.Some? ==> 0 <= r.value.hour < 24 && 0 <= r.value.minute < 60
    ensures r.Some? ==> (|s| == 4 || |s| == 5) && s[|s| - 3] == sep
    ensures r.Some? ==> forall i :: 0 <= i < |s| ==> IsDigit(s[i]) || s[i] == sep
  {
    match GetNum(s, false)
    case None => None
    case Some((hour, afterHour)) =>
      if hour >= 24 then None
      else
        match Skip(afterHour, sep)
        case None => None
        case Some(minuteText) =>
          match GetNum(minuteText, true)
          case None => None
          case Some((minute, rest)) =>
            if minute >= 60 || rest != "" then None
            else
              assert |minuteText| == 2 && |afterHour| == 3;
              assert s[|s| - 3] == afterHour[0];
              assert afterHour == s[|s| - 3..] && minuteText == s[|s| - 2..];
              Some(Clock(hour, minute))
  }

  /** On five characters the clock layout reads exactly "HH<sep>MM" with
      hour 00-23 and minute 00-59. */
  lemma ParseClockFive(s: string, sep: char)
    requires |s| == 5
    ensures ParseClock(s, sep).Some? <==>
      && DigitsAt(s, 0, 1) && s[2] == sep && DigitsAt(s, 3, 4)
      && TwoDigits(s, 0) < 24 && TwoDigits(s, 3) < 60
    ensures ParseClock(s, sep).Some? ==>
      ParseClock(s, sep).value == Clock(TwoDigits(s, 0), TwoDigits(s, 3))
  {
    if IsDigit(s[0]) && !IsDigit(s[1]) {
      assert GetNum(s, false) == Some((DigitValue(s[0]), s[1..]));
      var rest := s[1..];
      if Skip(rest, sep).Some? {
        assert Skip(rest, sep).value == s[2..];
        assert |s[2..]| == 3;
      }
    }
  }

  /** On four characters the hour has one digit: the clock layout reads
      exactly "H<sep>MM" with minute 00-59. */
  lemma ParseClockFour(s: string, sep: char)
    requires |s| == 4
    ensures ParseClock(s, sep).Some? <==>
      && IsDigit(s[0]) && !IsDigit(s[1]) && s[1] == sep && DigitsAt(s, 2, 3) && TwoDigits(s, 2) < 60
    ensures ParseClock(s, sep).Some? ==>
      ParseClock(s, sep).value == Clock(DigitValue(s[0]), TwoDigits(s, 2))
  {
    if IsDigit(s[0]) && !IsDigit(s[1]) {
      assert GetNum(s, false) == Some((DigitValue(s[0]), s[1..]));
      if s[1] == sep {
        assert Skip(s[1..], sep) == Some(s[2..]);
        if DigitsAt(s, 2, 3) {
          assert GetNum(s[2..], true) == Some((TwoDigits(s, 2), s[4..]));
        }
      }
    } else if IsDigit(s[0]) && IsDigit(s[1]) {
      var rest := s[2..];
      if Skip(rest, sep).Some? {
        assert |Skip(rest, sep).value| == 1;
      }
    }
  }

  /** `Time.Format("02-01-2006")`: zero-padded day and month, and the year
      written as `appendInt(b, year, 4)` does. */
  function FormatDate(d: Date): (s: string)
    ensures 0 <= d.day < 100 && 0 <= d.month < 100 && 0 <= d.year < 10000 ==>
      && |s| == 10 && s[2] == '-' && s[5] == '-'
      && AllDigits(s[..2]) && AllDigits(s[3..5]) && AllDigits(s[6..])
    ensures 0 <= d.day < 100 && 0 <= d.month < 100 && d.year < 0 ==> |s| > 6 && s[6] == '-'
  {
    assert Pow10(2) == 100 && Pow10(4) == 10000;
    PadDecimal(if d.day < 0 then 0 else d.day, 2) + "-"
      + PadDecimal(if d.month < 0 then 0 else d.month, 2) + "-"
      + (if d.year < 0 then "-" + PadDecimal(-d.year, 4) else PadDecimal(d.year, 4))
  }

  /** Formatting a real date with a four-digit year and parsing it back gives the date. */
  lemma ParseFormatDate(d: Date)
    requires IsRealDate(d) && 0 <= d.year <= 9999
    ensures ParseDate(FormatDate(d)) == Some(d)
  {
    var s := FormatDate(d);
    var dd, mm, yyyy := PadDecimal(d.day, 2), PadDecimal(d.month, 2), PadDecimal(d.year, 4);
    assert Pow10(2) == 100 && Pow10(4) == 10000;
    assert s == dd + "-" + mm + "-" + yyyy;
    assert s[..2] == dd && s[3..5] == mm && s[6..] == yyyy;
    PadDecimalValue(d.day, 2);
    PadDecimalValue(d.month, 2);
    PadDecimalValue(d.year, 4);
    TwoDigitsValue(dd);
    TwoDigitsValue(mm);
    assert TwoDigits(s, 0) == d.day;
    assert TwoDigits(s, 3) == d.month;
  }

  lemma TwoDigitsValue(t: string)
    requires |t| == 2 && AllDigits(t)
    ensures DigitsValue(t) == DigitValue(t[0]) * 10 + DigitValue(t[1])
  {
    assert t[..1][..0] == [];
  }

  /** Every date text that parses is the formatting of the date it names. */
  lemma FormatParsedDate(s: string)
    requires ParseDate(s).Some?
    ensures FormatDate(ParseDate(s).value) == s
  {
    var d := ParseDate(s).value;
    var dd, mm := s[..2], s[3..5];
    assert AllDigits(dd) && AllDigits(mm);
    TwoDigitsValue(dd);
    TwoDigitsValue(mm);
    PadDigitsValue(dd);
    PadDigitsValue(mm);
    PadDigitsValue(s[6..]);
    assert s == dd + "-" + mm + "-" + s[6..];
  }

  /** `a.Before(b)`: `a` is strictly earlier, comparing the fields in order.
      This agrees with Go's comparison of absolute times only when both
      instants are normalised UTC fields (month 1-12, hour 0-23, and so on). */
  predicate Before(a: Instant, b: Instant) {
    || a.year < b.year
    || (a.year == b.year && a.month < b.month)
    || (a.year == b.year && a.month == b.month && a.day < b.day)
    || (a.year == b.year && a.month == b.month && a.day == b.day && a.hour < b.hour)
    || (a.year == b.year && a.month == b.month && a.day == b.day && a.hour == b.hour
        && a.minute < b.minute)
    || (a.year == b.year && a.month == b.month && a.day == b.day && a.hour == b.hour
        && a.minute == b.minute && a.second < b.second)
    || (a.year == b.year && a.month == b.month && a.day == b.day && a.hour == b.hour
        && a.minute == b.minute && a.second == b.second && a.nanosecond < b.nanosecond)
  }

  /** `Before` is a strict total order: irreflexive, transitive, and any two
      distinct instants are ordered one way or the other; a smaller year is
      always earlier. */
  lemma BeforeIsStrictTotalOrder(a: Instant, b: Instant, c: Instant)
    ensures a.year < b.year ==> Before(a, b)
    ensures a.year > b.year ==> !Before(a, b)
    ensures !Before(a, a)
    ensures Before(a, b) && Before(b, c) ==> Before(a, c)
    ensures a != b ==> Before(a, b) || Before(b, a)
    ensures Before(a, b) ==> !Before(b, a)
  {
  }
}
