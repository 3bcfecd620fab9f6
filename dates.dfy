/** The naive timestamps of the gateway: the one wire form the upstream
    service is sent (`YYYY-MM-DDTHH:MM:SS`), the check `validate_date` applies
    to caller input, the subset of `datetime.fromisoformat` the tsunami route
    reads its start instant with, `isoformat()` and subtracting whole hours. */
module Dates {
  import opened Wrappers
  import opened Digits

  /** A proleptic Gregorian wall-clock instant to the second. */
  datatype DateTime = DateTime(year: int, month: int, day: int, hour: int, minute: int, second: int)

  predicate IsLeap(y: int) {
    y % 4 == 0 && (y % 100 != 0 || y % 400 == 0)
  }

  function DaysInMonth(y: int, m: int): int {
    if m == 2 then (if IsLeap(y) then 29 else 28)
    else if m == 4 || m == 6 || m == 9 || m == 11 then 30
    else 31
  }

  /** Python's `datetime.MINYEAR` .. `datetime.MAXYEAR` and the calendar. */
  predicate ValidDay(y: int, m: int, d: int) {
    1 <= y <= 9999 && 1 <= m <= 12 && 1 <= d <= DaysInMonth(y, m)
  }

  predicate Valid(t: DateTime) {
    ValidDay(t.year, t.month, t.day) && 0 <= t.hour < 24 && 0 <= t.minute < 60 && 0 <= t.second < 60
  }

  // ---------------------------------------------------------------------------
  // The canonical form `%Y-%m-%dT%H:%M:%S`

  /** Render an instant in the canonical 19-character form. */
  function Format(t: DateTime): (s: string)
    requires Valid(t)
    ensures |s| == 19
  {
    Pad(t.year, 4) + "-" + Pad(t.month, 2) + "-" + Pad(t.day, 2) + "T" +
    Pad(t.hour, 2) + ":" + Pad(t.minute, 2) + ":" + Pad(t.second, 2)
  }

  /** Digits and separators in the places of `YYYY-MM-DDTHH:MM:SS`. */
  predicate Shaped(s: string) {
    && |s| == 19
    && AllDigits(s[0..4]) && s[4] == '-' && AllDigits(s[5..7]) && s[7] == '-'
    && AllDigits(s[8..10]) && s[10] == 'T' && AllDigits(s[11..13]) && s[13] == ':'
    && AllDigits(s[14..16]) && s[16] == ':' && AllDigits(s[17..19])
  }

  function Fields(s: string): DateTime
    requires Shaped(s)
  {
    DateTime(Number(s[0..4]), Number(s[5..7]), Number(s[8..10]),
             Number(s[11..13]), Number(s[14..16]), Number(s[17..19]))
  }

  /** `datetime.strptime(s, '%Y-%m-%dT%H:%M:%S')` on the zero-padded form: the
      instant written by `s`, or None when the text has the wrong shape or names
      no calendar instant (month 13, 29 February of a common year, hour 24). */
  function ParseCanonical(s: string): (r: Option<DateTime>)
    ensures r.Some? ==> Valid(r.value) && Format(r.value) == s
  {
    if Shaped(s) && Valid(Fields(s)) then
      FormatOfFields(s);
      Some(Fields(s))
    else None
  }

  /** A 19-character text is its six fields and five separators laid end to end. */
  lemma Pieces19(s: string)
    requires |s| == 19
    ensures s == s[0..4] + [s[4]] + s[5..7] + [s[7]] + s[8..10] + [s[10]] +
                 s[11..13] + [s[13]] + s[14..16] + [s[16]] + s[17..19]
  {
  }

  /** A well-shaped text naming a valid instant is the canonical form of it. */
  lemma FormatOfFields(s: string)
    requires Shaped(s) && Valid(Fields(s))
    ensures Format(Fields(s)) == s
  {
    PadOfNumber(s[0..4]); PadOfNumber(s[5..7]); PadOfNumber(s[8..10]);
    PadOfNumber(s[11..13]); PadOfNumber(s[14..16]); PadOfNumber(s[17..19]);
    Pieces19(s);
  }

  /** Reading back a formatted instant gives the instant. */
  lemma ParseFormat(t: DateTime)
    requires Valid(t)
    ensures ParseCanonical(Format(t)) == Some(t)
  {
    var s := Format(t);
    assert s[0..4] == Pad(t.year, 4);
    assert s[5..7] == Pad(t.month, 2) && s[8..10] == Pad(t.day, 2);
    assert s[11..13] == Pad(t.hour, 2) && s[14..16] == Pad(t.minute, 2) && s[17..19] == Pad(t.second, 2);
    NumberOfPad(t.year, 4); NumberOfPad(t.month, 2); NumberOfPad(t.day, 2);
    NumberOfPad(t.hour, 2); NumberOfPad(t.minute, 2); NumberOfPad(t.second, 2);
  }

  /** The `detail` of the 400 that `validate_date` raises for parameter `param`. */
  function InvalidDateDetail(param: string): string {
    "Invalid " + param + ". Please use format: YYYY-MM-DDTHH:MM:SS (example: 2014-01-01T00:00:00)"
  }

  /** `validate_date(date_str, param_name)`: the input itself when it parses in
      the canonical form, otherwise a 400 naming the parameter. */
  function ValidateDate(s: string, param: string): (r: Result<string, HttpError>)
    ensures r.Ok? <==> exists t :: Valid(t) && Format(t) == s
    ensures r.Ok? ==> r.value == s
    ensures r.Err? ==> r.error == HttpError(400, InvalidDateDetail(param))
  {
    if ParseCanonical(s).Some? then Ok(s)
    else
      assert forall t :: Valid(t) ==> Format(t) != s by {
        forall t | Valid(t) ensures Format(t) != s { ParseFormat(t); }
      }
      Err(HttpError(400, InvalidDateDetail(param)))
  }

  /** The value of a one-, two- and four-digit field. */
  lemma OneDigit(s: string)
    requires |s| == 1 && AllDigits(s)
    ensures Number(s) == DigitValue(s[0])
  {
    assert s[..0] == [];
  }

  lemma TwoDigits(s: string)
    requires |s| == 2 && AllDigits(s)
    ensures Number(s) == DigitValue(s[0]) * 10 + DigitValue(s[1])
  {
    OneDigit(s[..1]);
  }

  lemma FourDigits(s: string)
    requires |s| == 4 && AllDigits(s)
    ensures Number(s) == ((DigitValue(s[0]) * 10 + DigitValue(s[1])) * 10 + DigitValue(s[2])) * 10 + DigitValue(s[3])
  {
    TwoDigits(s[..2]);
    assert s[..3][..2] == s[..2];
  }

  /** A text that is no date at all is turned down with the 400 naming the
      parameter. */
  lemma NotADateRejected()
    ensures ValidateDate("invalid-date", "Start_time") == Err(HttpError(400, InvalidDateDetail("Start_time")))
  {
  }

  /** The fields of a well-shaped text, digit by digit. */
  lemma DateFieldsOf(s: string)
    requires Shaped(s)
    ensures Fields(s).year == ((DigitValue(s[0]) * 10 + DigitValue(s[1])) * 10 + DigitValue(s[2])) * 10 + DigitValue(s[3])
    ensures Fields(s).month == DigitValue(s[5]) * 10 + DigitValue(s[6])
    ensures Fields(s).day == DigitValue(s[8]) * 10 + DigitValue(s[9])
    ensures Fields(s).hour == DigitValue(s[11]) * 10 + DigitValue(s[12])
  {
    FourDigits(s[0..4]); TwoDigits(s[5..7]); TwoDigits(s[8..10]); TwoDigits(s[11..13]);
  }

  /** Month 13 is turned down. */
  lemma MonthThirteenRejected()
    ensures ValidateDate("2023-13-01T00:00:00", "end_time").Err?
  {
    var s := "2023-13-01T00:00:00";
    assert s[5] == '1' && s[6] == '3';
    if Shaped(s) {
      assert Fields(s).month == 13 by {
        DateFieldsOf(s);
      }
    }
    assert ParseCanonical(s).None?;
  }

  /** 29 February of a common year is turned down. */
  lemma CommonYearLeapDayRejected()
    ensures ValidateDate("2023-02-29T00:00:00", "end_time").Err?
  {
    var s := "2023-02-29T00:00:00";
    assert s[0] == '2' && s[1] == '0' && s[2] == '2' && s[3] == '3';
    assert s[5] == '0' && s[6] == '2' && s[8] == '2' && s[9] == '9';
    if Shaped(s) {
      assert Fields(s).year == 2023 && Fields(s).month == 2 && Fields(s).day == 29 by {
        DateFieldsOf(s);
      }
    }
    assert ParseCanonical(s).None?;
  }

  /** Hour 24 is turned down. */
  lemma HourTwentyFourRejected()
    ensures ValidateDate("2023-01-01T24:00:00", "end_time").Err?
  {
    var s := "2023-01-01T24:00:00";
    assert s[11] == '2' && s[12] == '4';
    if Shaped(s) {
      assert Fields(s).hour == 24 by {
        DateFieldsOf(s);
      }
    }
    assert ParseCanonical(s).None?;
  }

  /** 29 February of a leap year passes and comes back unchanged. */
  lemma LeapDayAccepted()
    ensures ValidateDate("2024-02-29T12:30:59", "end_time") == Ok("2024-02-29T12:30:59")
  {
    var t := DateTime(2024, 2, 29, 12, 30, 59);
    LeapDayText(t, "2024-02-29T12:30:59");
    ParseFormat(t);
  }

  /** The canonical text of 29 February 2024, 12:30:59. */
  lemma LeapDayText(t: DateTime, s: string)
    requires t == DateTime(2024, 2, 29, 12, 30, 59) && s == "2024-02-29T12:30:59"
    ensures Valid(t) && Format(t) == s
  {
    assert Valid(t);
    assert Format(t) == s by {
      LeapDayDate(s);
      LeapDayClock(s);
      assert [s[4]] == [s[7]] == "-" && [s[10]] == "T" && [s[13]] == [s[16]] == ":";
      Pieces19(s);
    }
  }

  /** The date fields and separators of `2024-02-29T12:30:59`. */
  lemma LeapDayDate(s: string)
    requires s == "2024-02-29T12:30:59"
    ensures s[0..4] == Pad(2024, 4) && s[5..7] == Pad(2, 2) && s[8..10] == Pad(29, 2)
    ensures s[4] == '-' && s[7] == '-' && s[10] == 'T'
  {
    assert s[0..4] == "2024" by { assert s[0] == '2' && s[1] == '0' && s[2] == '2' && s[3] == '4'; }
    assert s[5..7] == "02" by { assert s[5] == '0' && s[6] == '2'; }
    assert s[8..10] == "29" by { assert s[8] == '2' && s[9] == '9'; }
  }

  /** The clock fields and separators of `2024-02-29T12:30:59`. */
  lemma LeapDayClock(s: string)
    requires s == "2024-02-29T12:30:59"
    ensures s[11..13] == Pad(12, 2) && s[14..16] == Pad(30, 2) && s[17..19] == Pad(59, 2)
    ensures s[13] == ':' && s[16] == ':'
  {
    assert s[11..13] == "12" by { assert s[11] == '1' && s[12] == '2'; }
    assert s[14..16] == "30" by { assert s[14] == '3' && s[15] == '0'; }
    assert s[17..19] == "59" by { assert s[17] == '5' && s[18] == '9'; }
  }

  // ---------------------------------------------------------------------------
  // Hour arithmetic (`start_time - timedelta(hours=n)`)

  function DaysInYear(y: int): int {
    if IsLeap(y) then 366 else 365
  }

  function DaysBeforeYear(y: int): nat
    requires y >= 1
  {
    if y == 1 then 0 else DaysBeforeYear(y - 1) + DaysInYear(y - 1)
  }

  function DaysBeforeMonth(y: int, m: int): nat
    requires 1 <= m <= 12
  {
    var leap := if IsLeap(y) && m > 2 then 1 else 0;
    leap + (if m == 1 then 0 else if m == 2 then 31 else if m == 3 then 59
            else if m == 4 then 90 else if m == 5 then 120 else if m == 6 then 151
            else if m == 7 then 181 else if m == 8 then 212 else if m == 9 then 243
            else if m == 10 then 273 else if m == 11 then 304 else 334)
  }

  /** `date.toordinal()`: 1 for 0001-01-01. */
  function DayNumber(y: int, m: int, d: int): int
    requires ValidDay(y, m, d)
  {
    DaysBeforeYear(y) + DaysBeforeMonth(y, m) + d
  }

  /** Whole hours since the start of day 0; the earliest instant Python allows
      (0001-01-01T00:00:00) is hour 24. */
  function HourNumber(t: DateTime): int
    requires Valid(t)
  {
    DayNumber(t.year, t.month, t.day) * 24 + t.hour
  }

  /** The day before a day other than 0001-01-01. */
  function PrevDay(y: int, m: int, d: int): (r: (int, int, int))
    requires ValidDay(y, m, d) && DayNumber(y, m, d) > 1
    ensures ValidDay(r.0, r.1, r.2) && DayNumber(r.0, r.1, r.2) == DayNumber(y, m, d) - 1
  {
    if d > 1 then (y, m, d - 1)
    else if m > 1 then (y, m - 1, DaysInMonth(y, m - 1))
    else
      assert y > 1;
      (y - 1, 12, 31)
  }

  /** One hour earlier, or None before 0001-01-01T00:00:00 (Python's
      OverflowError "date value out of range"). */
  function PrevHour(t: DateTime): (r: Option<DateTime>)
    requires Valid(t)
    ensures r.None? <==> HourNumber(t) == 24
    ensures r.Some? ==> Valid(r.value) && HourNumber(r.value) == HourNumber(t) - 1
    ensures r.Some? ==> r.value.minute == t.minute && r.value.second == t.second
  {
    if t.hour > 0 then Some(t.(hour := t.hour - 1))
    else if DayNumber(t.year, t.month, t.day) == 1 then None
    else
      var (y, m, d) := PrevDay(t.year, t.month, t.day);
      Some(DateTime(y, m, d, 23, t.minute, t.second))
  }

  lemma HourNumberAtLeast24(t: DateTime)
    requires Valid(t)
    ensures HourNumber(t) >= 24
  {
  }

  /** `t - timedelta(hours=h)` on the wall clock: exactly `h` hours earlier with
      the same minutes and seconds, or None when that is before year 1. */
  function MinusHours(t: DateTime, h: nat): (r: Option<DateTime>)
    requires Valid(t)
    ensures r.None? <==> HourNumber(t) - h < 24
    ensures r.Some? ==> Valid(r.value) && HourNumber(r.value) + h == HourNumber(t)
    ensures r.Some? ==> r.value.minute == t.minute && r.value.second == t.second
    decreases h
  {
    if h == 0 then Some(t)
    else
      match PrevHour(t)
      case None => None
      case Some(p) => MinusHours(p, h - 1)
  }

  // ---------------------------------------------------------------------------
  // `datetime.fromisoformat` and `datetime.isoformat`

  /** A datetime with microseconds and, when aware, its UTC offset in minutes. */
  datatype Instant = Instant(time: DateTime, micro: int, offset: Option<int>)

  predicate ValidInstant(t: Instant) {
    Valid(t.time) && 0 <= t.micro < 1000000 &&
    (t.offset.Some? ==> -1440 < t.offset.value < 1440)
  }

  function Abs(n: int): nat { if n < 0 then -n else n }

  /** `utcoffset` as isoformat writes it: `+HH:MM` or `-HH:MM`. */
  function OffsetText(offset: Option<int>): (s: string)
    requires offset.Some? ==> -1440 < offset.value < 1440
    ensures offset.None? ==> s == []
    ensures offset.Some? ==> |s| == 6 && (s[0] == '+' || s[0] == '-')
  {
    match offset
    case None => ""
    case Some(m) => (if m < 0 then "-" else "+") + Pad(Abs(m) / 60, 2) + ":" + Pad(Abs(m) % 60, 2)
  }

  /** `datetime.isoformat()`: the canonical form, then `.ffffff` when the
      microseconds are not zero, then the offset when the datetime is aware. */
  function IsoFormat(t: Instant): (s: string)
    requires ValidInstant(t)
    ensures |s| >= 19 && s[..19] == Format(t.time)
  {
    Format(t.time) + (if t.micro != 0 then "." + Pad(t.micro, 6) else "") + OffsetText(t.offset)
  }

  /** An isoformat text passes `validate_date` exactly when the datetime is naive
      and has no microseconds. */
  lemma IsoFormatCanonical(t: Instant)
    requires ValidInstant(t)
    ensures ParseCanonical(IsoFormat(t)).Some? <==> t.micro == 0 && t.offset.None?
    ensures t.micro == 0 && t.offset.None? ==> IsoFormat(t) == Format(t.time)
  {
    if t.micro == 0 && t.offset.None? {
      assert IsoFormat(t) == Format(t.time);
      ParseFormat(t.time);
    } else {
      assert |IsoFormat(t)| > 19;
    }
  }

  // ---------------------------------------------------------------------------
  // The `%R` of the ValueError texts: `repr` of a str and of a timedelta

  /** A lower-case hexadecimal digit. */
  function HexDigit(n: nat): char
    requires n < 16
  {
    if n < 10 then DigitChar(n) else ('a' as int + n - 10) as char
  }

  /** One character as `repr` writes it between quotes `q`: the quote and the
      backslash get a backslash, tab, newline and carriage return their
      letter escapes, the other ASCII control characters `\xhh`. */
  function ReprChar(c: char, q: char): (r: string)
    ensures |r| >= 1
  {
    if c == q || c == '\\' then ['\\', c]
    else if c == '\t' then "\\t"
    else if c == '\n' then "\\n"
    else if c == '\r' then "\\r"
    else if c < ' ' || c as int == 127 then "\\x" + [HexDigit(c as int / 16), HexDigit(c as int % 16)]
    else [c]
  }

  function ReprBody(s: string, q: char): (r: string)
    ensures |r| >= |s|
  {
    if s == [] then [] else ReprChar(s[0], q) + ReprBody(s[1..], q)
  }

  /** `repr` quotes with `"` a text that has a `'` and no `"`, and with `'`
      otherwise. */
  function ReprQuote(s: string): char {
    if '\'' in s && '"' !in s then '"' else '\''
  }

  /** `repr(s)` for a str. */
  function Repr(s: string): (r: string)
    ensures |r| >= |s| + 2 && r[0] == ReprQuote(s) && r[|r| - 1] == ReprQuote(s)
  {
    [ReprQuote(s)] + ReprBody(s, ReprQuote(s)) + [ReprQuote(s)]
  }

  /** A character `repr` writes as itself whatever the quote. */
  predicate PlainChar(c: char) {
    ' ' <= c && c as int != 127 && c != '\\' && c != '\'' && c != '"'
  }

  /** Characters written as themselves leave the text as it is. */
  lemma {:induction false} ReprBodyVerbatim(s: string, q: char)
    requires forall i :: 0 <= i < |s| ==> ReprChar(s[i], q) == [s[i]]
    ensures ReprBody(s, q) == s
  {
    if s != [] {
      ReprBodyVerbatim(s[1..], q);
      assert s == [s[0]] + s[1..];
    }
  }

  /** A text without quotes, backslashes or control characters is written
      between single quotes, unchanged. */
  lemma ReprPlain(s: string)
    requires forall i :: 0 <= i < |s| ==> PlainChar(s[i])
    ensures Repr(s) == "'" + s + "'"
  {
    ReprBodyVerbatim(s, '\'');
  }

  /** A text whose only special characters are single quotes is written between
      double quotes, unchanged. */
  lemma ReprSingleQuotes(s: string)
    requires '\'' in s
    requires forall i :: 0 <= i < |s| ==> PlainChar(s[i]) || s[i] == '\''
    ensures Repr(s) == "\"" + s + "\""
  {
    ReprBodyVerbatim(s, '"');
  }

  /** With both quotes present the single quote is escaped; a backslash is
      always doubled. */
  lemma ReprEscapes()
    ensures ReprQuote("'\"") == '\'' && ReprBody("'\"", '\'') == "\\'\""
    ensures ReprBody("\\", '\'') == "\\\\"
  {
    assert "'\""[1..] == "\"" && "\""[1..] == [];
    assert "\\"[1..] == [];
  }

  /** The ValueError text for a string with the wrong shape. */
  function SyntaxError(s: string): string {
    "Invalid isoformat string: " + Repr(s)
  }

  /** `timedelta(minutes=m)` as `timedelta` stores it: whole days, possibly
      negative, and the seconds left over. */
  function TimedeltaParts(minutes: int): (p: (int, nat))
    ensures p.0 * 86400 + p.1 == minutes * 60 && p.1 < 86400
  {
    (minutes / 1440, (minutes % 1440) * 60)
  }

  /** `str(n)` for an int. */
  function IntText(n: int): string {
    if n < 0 then "-" + NatText(-n) else NatText(n)
  }

  /** `repr(timedelta(minutes=m))`: its non-zero parts, or `0`. */
  function TimedeltaRepr(minutes: int): string {
    var (days, seconds) := TimedeltaParts(minutes);
    "datetime.timedelta(" +
    (if days == 0 && seconds == 0 then "0"
     else if days == 0 then "seconds=" + NatText(seconds)
     else "days=" + IntText(days) + (if seconds == 0 then "" else ", seconds=" + NatText(seconds))) +
    ")"
  }

  /** The ValueError text of the `timezone` constructor for an offset of `m`
      minutes outside the open 24-hour range. */
  function OffsetRangeError(m: int): string {
    "offset must be a timedelta strictly between -timedelta(hours=24) and timedelta(hours=24), not " +
    TimedeltaRepr(m) + "."
  }

  /** `+24:00` is one day; `-24:30` is two days back plus 84600 seconds, as
      `timedelta` normalizes it. */
  lemma TimedeltaExamples()
    ensures TimedeltaParts(1440) == (1, 0) && TimedeltaParts(-1470) == (-2, 84600)
    ensures TimedeltaRepr(1440) == "datetime.timedelta(days=1)"
    ensures TimedeltaRepr(-1470) == "datetime.timedelta(days=-2, seconds=84600)"
  {
    DaysOnlyRepr(1440, "1");
    DaysAndSecondsRepr(-1470, "2", "84600");
  }

  /** The repr of a whole number of positive days. */
  lemma DaysOnlyRepr(minutes: int, d: string)
    requires minutes == 1440 && d == "1"
    ensures TimedeltaRepr(minutes) == "datetime.timedelta(days=" + d + ")"
  {
    assert NatText(1) == d;
  }

  /** The repr of negative days with seconds left over. */
  lemma DaysAndSecondsRepr(minutes: int, d: string, sec: string)
    requires minutes == -1470 && d == "2" && sec == "84600"
    ensures TimedeltaRepr(minutes) == "datetime.timedelta(days=-" + d + ", seconds=" + sec + ")"
  {
    assert TimedeltaParts(minutes) == (-2, 84600);
    assert NatText(2) == d;
    NatTextExample(sec);
  }

  lemma NatTextExample(sec: string)
    requires sec == "84600"
    ensures NatText(84600) == sec
  {
    assert NatText(8) == "8";
    assert NatText(84) == NatText(8) + "4";
    assert NatText(846) == NatText(84) + "6";
    assert NatText(8460) == NatText(846) + "0";
    assert NatText(84600) == NatText(8460) + "0";
  }

  /** The offsets `+24:00` and `-24:30` read as 1440 and -1470 minutes. */
  lemma OffsetExamples(plus: string, minus: string)
    requires plus == "+24:00" && minus == "-24:30"
    ensures ParseOffset(plus) == Some(1440) && ParseOffset(minus) == Some(-1470)
  {
    OffsetOf(plus, 24, 0);
    OffsetOf(minus, 24, 30);
  }

  /** A `±HH:MM` text reads as its hours and minutes, signed. */
  lemma OffsetOf(o: string, hh: nat, mm: nat)
    requires hh < 100 && mm < 100
    requires |o| == 6 && (o[0] == '+' || o[0] == '-') && o[3] == ':'
    requires o[1..3] == Pad(hh, 2) && o[4..6] == Pad(mm, 2)
    ensures ParseOffset(o) == Some(if o[0] == '-' then -(hh * 60 + mm) else hh * 60 + mm)
  {
    NumberOfPad(hh, 2);
    NumberOfPad(mm, 2);
  }

  /** `00:00:00` is midnight with no fraction. */
  lemma MidnightClock(x: string)
    requires x == "00:00:00"
    ensures ParseClock(x) == Some(Clock(0, 0, 0, 0))
  {
    assert x[..2] == Pad(0, 2) && x[3..5] == Pad(0, 2) && x[6..8] == Pad(0, 2);
    NumberOfPad(0, 2);
  }

  /** Midnight followed by a well-formed offset reads as that offset. */
  lemma MidnightWithOffset(x: string, o: string)
    requires x == "00:00:00" && ParseOffset(o).Some?
    ensures ParseTime(x + o) == Some((Clock(0, 0, 0, 0), ParseOffset(o)))
  {
    assert forall i :: 0 <= i < |x| ==> x[i] != '+' && x[i] != '-';
    SignAfter(x, o);
    assert (x + o)[..8] == x && (x + o)[8..] == o;
    MidnightClock(x);
  }

  /** A date of the right shape whose time part carries an offset of a whole
      day or more is refused with the `timezone` constructor's error, before
      any range check of the date or clock. */
  lemma OffsetOutOfRange(s: string, c: Clock, m: int)
    requires |s| > 11 && AllDigits(s[0..4]) && s[4] == '-' && AllDigits(s[5..7]) && s[7] == '-' && AllDigits(s[8..10])
    requires ParseTime(s[11..]) == Some((c, Some(m))) && Abs(m) >= 1440
    ensures FromIsoFormat(s) == Err(OffsetRangeError(m))
  {
  }

  /** The pieces of `2024-01-01T00:00:00` followed by an offset. */
  lemma MidnightStart(d: string, x: string, o: string)
    requires d == "2024-01-01T" && x == "00:00:00" && ParseOffset(o).Some?
    ensures var s := d + x + o;
      |s| > 11 && AllDigits(s[0..4]) && s[4] == '-' && AllDigits(s[5..7]) && s[7] == '-' && AllDigits(s[8..10]) &&
      ParseTime(s[11..]) == Some((Clock(0, 0, 0, 0), ParseOffset(o)))
  {
    var s := d + x + o;
    assert s[0..4] == "2024" && s[4] == '-' && s[5..7] == "01" && s[7] == '-' && s[8..10] == "01" by {
      assert s[..11] == d;
    }
    assert s[11..] == x + o;
    MidnightWithOffset(x, o);
  }

  /** `+24:00` and `-24:30` on a start are refused with the range error
      naming their `timedelta`. */
  lemma OffsetRangeExamples(plus: string, minus: string)
    requires plus == "2024-01-01T00:00:00+24:00" && minus == "2024-01-01T00:00:00-24:30"
    ensures FromIsoFormat(plus) == Err(OffsetRangeError(1440))
    ensures FromIsoFormat(minus) == Err(OffsetRangeError(-1470))
  {
    PlusDayRefused(plus);
    MinusDayRefused(minus);
  }

  /** `+24:00`, a whole day ahead, is refused. */
  lemma PlusDayRefused(s: string)
    requires s == "2024-01-01T00:00:00+24:00"
    ensures FromIsoFormat(s) == Err(OffsetRangeError(1440))
  {
    OffsetExamples("+24:00", "-24:30");
    OffsetExample(s, "+24:00", 1440);
  }

  /** `-24:30`, more than a day behind, is refused. */
  lemma MinusDayRefused(s: string)
    requires s == "2024-01-01T00:00:00-24:30"
    ensures FromIsoFormat(s) == Err(OffsetRangeError(-1470))
  {
    OffsetExamples("+24:00", "-24:30");
    OffsetExample(s, "-24:30", -1470);
  }

  /** One start of OffsetRangeExamples: midnight on 1 January 2024 with an
      offset `o` of a day or more. */
  lemma OffsetExample(s: string, o: string, m: int)
    requires ParseOffset(o) == Some(m) && Abs(m) >= 1440
    requires s == "2024-01-01T" + "00:00:00" + o
    ensures FromIsoFormat(s) == Err(OffsetRangeError(m))
  {
    MidnightStart("2024-01-01T", "00:00:00", o);
    OffsetOutOfRange(s, Clock(0, 0, 0, 0), m);
  }

  /** A clock reading before range checks: hour, minute, second, microsecond. */
  datatype Clock = Clock(hour: nat, minute: nat, second: nat, micro: nat)

  /** `HH`, `HH:MM`, `HH:MM:SS`, `HH:MM:SS.fff` or `HH:MM:SS.ffffff`. */
  function ParseClock(s: string): Option<Clock> {
    if |s| < 2 || !AllDigits(s[..2]) then None
    else if |s| == 2 then Some(Clock(Number(s[..2]), 0, 0, 0))
    else if |s| < 5 || s[2] != ':' || !AllDigits(s[3..5]) then None
    else if |s| == 5 then Some(Clock(Number(s[..2]), Number(s[3..5]), 0, 0))
    else if |s| < 8 || s[5] != ':' || !AllDigits(s[6..8]) then None
    else if |s| == 8 then Some(Clock(Number(s[..2]), Number(s[3..5]), Number(s[6..8]), 0))
    else if s[8] != '.' || !(|s| == 12 || |s| == 15) || !AllDigits(s[9..]) then None
    else
      var f := Number(s[9..]);
      Some(Clock(Number(s[..2]), Number(s[3..5]), Number(s[6..8]), if |s| == 12 then f * 1000 else f))
  }

  /** `+HH:MM` or `-HH:MM` as signed minutes. */
  function ParseOffset(s: string): Option<int> {
    if |s| == 6 && (s[0] == '+' || s[0] == '-') && AllDigits(s[1..3]) && s[3] == ':' && AllDigits(s[4..6]) then
      var m := Number(s[1..3]) * 60 + Number(s[4..6]);
      Some(if s[0] == '-' then -m else m)
    else None
  }

  /** Index of the first `+` or `-` in `s`, or `|s|`: where the offset starts. */
  function SignAt(s: string): (k: nat)
    ensures k <= |s|
    ensures forall i :: 0 <= i < k ==> s[i] != '+' && s[i] != '-'
    ensures k < |s| ==> s[k] == '+' || s[k] == '-'
  {
    if s == [] || s[0] == '+' || s[0] == '-' then 0 else 1 + SignAt(s[1..])
  }

  /** The time part after the separator: a clock, then an optional offset. */
  function ParseTime(s: string): Option<(Clock, Option<int>)> {
    var k := SignAt(s);
    match ParseClock(s[..k])
    case None => None
    case Some(c) =>
      if k == |s| then Some((c, None))
      else match ParseOffset(s[k..])
        case None => None
        case Some(m) => Some((c, Some(m)))
  }

  /** `datetime.fromisoformat(s)` on `YYYY-MM-DD`, optionally followed by any one
      separator character and a time part; the range checks of the `datetime`
      and `timezone` constructors come after the shape check, in their order. */
  function FromIsoFormat(s: string): (r: Result<Instant, string>)
    ensures r.Ok? ==> ValidInstant(r.value)
  {
    if |s| < 10 || |s| == 11 || !AllDigits(s[0..4]) || s[4] != '-' || !AllDigits(s[5..7])
       || s[7] != '-' || !AllDigits(s[8..10]) then Err(SyntaxError(s))
    else
      var parsed: Option<(Clock, Option<int>)> := if |s| == 10 then Some((Clock(0, 0, 0, 0), None)) else ParseTime(s[11..]);
      match parsed
      case None => Err(SyntaxError(s))
      case Some((c, offset)) =>
        var y, m, d := Number(s[0..4]), Number(s[5..7]), Number(s[8..10]);
        if offset.Some? && Abs(offset.value) >= 1440 then
          Err(OffsetRangeError(offset.value))
        else if y < 1 then Err("year 0 is out of range")
        else if !(1 <= m <= 12) then Err("month must be in 1..12")
        else if !(1 <= d <= DaysInMonth(y, m)) then Err("day is out of range for month")
        else if c.hour > 23 then Err("hour must be in 0..23")
        else if c.minute > 59 then Err("minute must be in 0..59")
        else if c.second > 59 then Err("second must be in 0..59")
        else
          NumberBound(s[0..4]);
          assert c.micro < 1000000 by { if |s| > 10 { ClockMicroBound(s[11..][..SignAt(s[11..])]); } }
          Ok(Instant(DateTime(y, m, d, c.hour, c.minute, c.second), c.micro, offset))
  }

  lemma ClockMicroBound(s: string)
    requires ParseClock(s).Some?
    ensures ParseClock(s).value.micro < 1000000
  {
    if |s| > 8 {
      NumberBound(s[9..]);
    }
  }

  /** A prefix free of signs followed by a sign (or by nothing) puts the
      offset right after the prefix. */
  lemma {:induction false} SignAfter(x: string, y: string)
    requires forall i :: 0 <= i < |x| ==> x[i] != '+' && x[i] != '-'
    requires y == [] || y[0] == '+' || y[0] == '-'
    ensures SignAt(x + y) == |x|
  {
    if x == [] {
      assert x + y == y;
    } else {
      assert (x + y)[1..] == x[1..] + y;
      SignAfter(x[1..], y);
    }
  }

  /** `HH:MM:SS` as isoformat writes it. */
  function ClockText(h: nat, mi: nat, se: nat): (s: string)
    ensures |s| == 8 && forall i :: 0 <= i < |s| ==> s[i] != '+' && s[i] != '-'
  {
    Pad(h, 2) + ":" + Pad(mi, 2) + ":" + Pad(se, 2)
  }

  /** A whole-second clock is read back by the time parser. */
  lemma WholeClockRoundTrip(h: nat, mi: nat, se: nat)
    requires h < 100 && mi < 100 && se < 100
    ensures ParseClock(ClockText(h, mi, se)) == Some(Clock(h, mi, se, 0))
  {
    var c := ClockText(h, mi, se);
    assert c[..2] == Pad(h, 2) && c[3..5] == Pad(mi, 2) && c[6..8] == Pad(se, 2);
    NumberOfPad(h, 2); NumberOfPad(mi, 2); NumberOfPad(se, 2);
  }

  /** A clock with microseconds is read back by the time parser. */
  lemma FractionClockRoundTrip(h: nat, mi: nat, se: nat, u: nat)
    requires h < 100 && mi < 100 && se < 100 && u < 1000000
    ensures ParseClock(ClockText(h, mi, se) + ("." + Pad(u, 6))) == Some(Clock(h, mi, se, u))
  {
    var c := ClockText(h, mi, se) + ("." + Pad(u, 6));
    assert c[..2] == Pad(h, 2) && c[3..5] == Pad(mi, 2) && c[6..8] == Pad(se, 2);
    assert c[9..] == Pad(u, 6);
    NumberOfPad(h, 2); NumberOfPad(mi, 2); NumberOfPad(se, 2);
    assert Pow10(6) == 1000000;
    NumberOfPad(u, 6);
  }

  /** The offset that isoformat writes is read back by the offset parser. */
  lemma OffsetRoundTrip(m: int)
    requires -1440 < m < 1440
    ensures ParseOffset(OffsetText(Some(m))) == Some(m)
  {
    var a := Abs(m);
    var s := OffsetText(Some(m));
    assert s[1..3] == Pad(a / 60, 2) && s[3] == ':' && s[4..6] == Pad(a % 60, 2);
    assert s[0] == '-' <==> m < 0;
    OffsetOf(s, a / 60, a % 60);
  }

  /** Where isoformat's pieces sit in the canonical form. */
  lemma FormatPieces(t: DateTime)
    requires Valid(t)
    ensures var f := Format(t);
      f[0..4] == Pad(t.year, 4) && f[4] == '-' && f[5..7] == Pad(t.month, 2) && f[7] == '-' &&
      f[8..10] == Pad(t.day, 2) && f[11..] == ClockText(t.hour, t.minute, t.second)
  {
  }

  lemma Pieces(f: string, frac: string, off: string)
    requires |f| == 19
    ensures var s := f + frac + off;
      s[0..4] == f[0..4] && s[4] == f[4] && s[5..7] == f[5..7] && s[7] == f[7] && s[8..10] == f[8..10] &&
      s[11..] == (f[11..] + frac) + off
  {
  }

  /** The time parser on a clock followed by a (possibly empty) offset. */
  lemma ParseTimeSplit(clock: string, off: string, c: Clock, o: Option<int>)
    requires forall i :: 0 <= i < |clock| ==> clock[i] != '+' && clock[i] != '-'
    requires ParseClock(clock) == Some(c)
    requires o.None? ==> off == []
    requires o.Some? ==> off != [] && (off[0] == '+' || off[0] == '-') && ParseOffset(off) == o
    ensures ParseTime(clock + off) == Some((c, o))
  {
    SignAfter(clock, off);
    assert (clock + off)[..|clock|] == clock && (clock + off)[|clock|..] == off;
  }

  /** `fromisoformat` on a text whose date fields and time part are already
      read: the range checks all pass for a valid instant. */
  lemma FromIsoFormatOfPieces(s: string, t: Instant)
    requires ValidInstant(t) && |s| >= 19
    requires AllDigits(s[0..4]) && s[4] == '-' && AllDigits(s[5..7]) && s[7] == '-' && AllDigits(s[8..10])
    requires Number(s[0..4]) == t.time.year && Number(s[5..7]) == t.time.month && Number(s[8..10]) == t.time.day
    requires ParseTime(s[11..]) == Some((Clock(t.time.hour, t.time.minute, t.time.second, t.micro), t.offset))
    ensures FromIsoFormat(s) == Ok(t)
  {
  }

  /** `fromisoformat` reads back every isoformat text: the two are inverse on
      valid instants. */
  lemma IsoFormatRoundTrip(t: Instant)
    requires ValidInstant(t)
    ensures FromIsoFormat(IsoFormat(t)) == Ok(t)
  {
    var tt := t.time;
    var f := Format(tt);
    var frac := if t.micro != 0 then "." + Pad(t.micro, 6) else "";
    var off := OffsetText(t.offset);
    var s := f + frac + off;
    assert IsoFormat(t) == s;
    assert s[0..4] == Pad(tt.year, 4) && s[4] == '-' && s[5..7] == Pad(tt.month, 2) && s[7] == '-' &&
           s[8..10] == Pad(tt.day, 2) by {
      FormatPieces(tt);
      Pieces(f, frac, off);
    }
    assert Number(s[0..4]) == tt.year && Number(s[5..7]) == tt.month && Number(s[8..10]) == tt.day by {
      NumberOfPad(tt.year, 4); NumberOfPad(tt.month, 2); NumberOfPad(tt.day, 2);
    }
    assert ParseTime(s[11..]) == Some((Clock(tt.hour, tt.minute, tt.second, t.micro), t.offset)) by {
      var clock := f[11..] + frac;
      FormatPieces(tt);
      Pieces(f, frac, off);
      assert forall i :: 0 <= i < |frac| ==> frac[i] != '+' && frac[i] != '-';
      if t.micro == 0 {
        assert clock == ClockText(tt.hour, tt.minute, tt.second);
        WholeClockRoundTrip(tt.hour, tt.minute, tt.second);
      } else {
        FractionClockRoundTrip(tt.hour, tt.minute, tt.second, t.micro);
      }
      if t.offset.Some? {
        OffsetRoundTrip(t.offset.value);
      }
      ParseTimeSplit(clock, off, Clock(tt.hour, tt.minute, tt.second, t.micro), t.offset);
    }
    FromIsoFormatOfPieces(s, t);
  }
}
