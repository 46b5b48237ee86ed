/** The hourly strip's time label (`formatTime`): an hour string such as
    "14:00:00" becomes a 12-hour label such as "2PM". The hour is read with
    JavaScript's `parseInt(…, 10)`, so leading white space and a sign are
    accepted, reading stops at the first non-digit, and a field without
    digits reads as NaN. */
module HourLabel {
  import opened JsValues
  import opened Text

  /** `hourString.split(':')[0]`: the text before the first colon, or the
      whole string when there is none. */
  function HourField(s: string): (f: string)
    ensures |f| <= |s| && f == s[..|f|] && ':' !in f
    ensures |f| < |s| ==> s[|f|] == ':'
  {
    TakeUntil(s, ':')
  }

  /** The white space and line terminators that `parseInt` skips. */
  predicate IsJsSpace(c: char) {
    c == '\t' || c == '\n' || c == '\U{000B}' || c == '\U{000C}' || c == '\r' ||
    c == ' ' || c == '\U{00A0}' || c == '\U{1680}' || ('\U{2000}' <= c <= '\U{200A}') ||
    c == '\U{2028}' || c == '\U{2029}' || c == '\U{202F}' || c == '\U{205F}' ||
    c == '\U{3000}' || c == '\U{FEFF}'
  }

  /** `s` with its leading white space removed. */
  function TrimStart(s: string): (t: string)
    ensures |t| <= |s| && t == s[|s| - |t|..]
    ensures forall i :: 0 <= i < |s| - |t| ==> IsJsSpace(s[i])
    ensures t != [] ==> !IsJsSpace(t[0])
  {
    if s != [] && IsJsSpace(s[0]) then TrimStart(s[1..]) else s
  }

  /** The longest prefix of `s` made of decimal digits. */
  function DigitPrefix(s: string): (d: string)
    ensures |d| <= |s| && d == s[..|d|] && AllDigits(d)
    ensures |d| < |s| ==> !IsDigit(s[|d|])
  {
    if s != [] && IsDigit(s[0]) then [s[0]] + DigitPrefix(s[1..]) else []
  }

  /** `s` after an optional leading sign. */
  function Unsigned(t: string): string {
    if t != [] && (t[0] == '-' || t[0] == '+') then t[1..] else t
  }

  /** `parseInt(s, 10)`, with `None` for NaN. A negative zero is 0 here;
      every use below treats -0 and 0 alike. */
  function ParseInt(s: string): (n: Option<int>)
    ensures n.None? <==> DigitPrefix(Unsigned(TrimStart(s))) == []
    ensures n.Some? && n.value < 0 ==> TrimStart(s)[0] == '-'
  {
    var t := TrimStart(s);
    var digits := DigitPrefix(Unsigned(t));
    if digits == [] then None
    else
      var magnitude: int := DecimalValue(digits);
      Some(if t[0] == '-' then -magnitude else magnitude)
  }

  /** A string of digits reads as its decimal value. */
  lemma ParseIntOfDigits(d: string)
    requires d != [] && AllDigits(d)
    ensures ParseInt(d) == Some(DecimalValue(d))
  {
    assert TrimStart(d) == d;
    assert Unsigned(d) == d;
    DigitPrefixOfDigits(d);
  }

  lemma {:induction false} DigitPrefixOfDigits(d: string)
    requires AllDigits(d)
    ensures DigitPrefix(d) == d
  {
    if d != [] {
      DigitPrefixOfDigits(d[1..]);
    }
  }

  /** JavaScript's `a % b` for `b > 0`: the remainder takes the sign of the
      dividend. */
  function JsRem(a: int, b: int): (r: int)
    requires b > 0
    ensures a >= 0 ==> r == a % b
    ensures -b < r < b
  {
    if a >= 0 then a % b else -((-a) % b)
  }

  /** `hour % 12 || 12`: NaN and a zero remainder are falsy and give 12. */
  function Hour12(hour: Option<int>): (n: int)
    ensures -12 < n <= 12 && n != 0
    ensures hour.None? ==> n == 12
    ensures hour.Some? && hour.value >= 0 ==> 1 <= n <= 12 && n % 12 == hour.value % 12
  {
    match hour
    case None => 12
    case Some(h) => if JsRem(h, 12) == 0 then 12 else JsRem(h, 12)
  }

  /** `hour >= 12 ? 'PM' : 'AM'`: NaN compares false and gives AM. */
  function Meridiem(hour: Option<int>): (m: string)
    ensures m == "PM" <==> hour.Some? && hour.value >= 12
    ensures m == "AM" || m == "PM"
  {
    if hour.Some? && hour.value >= 12 then "PM" else "AM"
  }

  /** `formatTime(hourString)`. */
  function FormatTime(hourString: Option<string>): (r: string)
    ensures r == "" <==> hourString.None? || hourString.value == ""
    ensures r != "" ==> |r| >= 3 && (r[|r| - 2..] == "AM" || r[|r| - 2..] == "PM")
  {
    if hourString.None? || hourString.value == "" then ""
    else
      var hour := ParseInt(HourField(hourString.value));
      var digits := IntToDecimal(Hour12(hour));
      var suffix := Meridiem(hour);
      assert (digits + suffix)[|digits|..] == suffix;
      digits + suffix
  }

  /** The clock face number of a non-negative hour: its remainder by 12,
      with 12 in place of 0. */
  function ClockNumber(h: nat): (n: nat)
    ensures 1 <= n <= 12
    ensures n % 12 == h % 12
  {
    if h % 12 != 0 then h % 12 else 12
  }

  /** The label of hour `h` of a 24-hour clock: its clock number, then PM
      exactly when the hour is 12 or more. */
  function ClockLabel(h: nat): string {
    NatToDecimal(ClockNumber(h)) + (if h >= 12 then "PM" else "AM")
  }

  /** The hour field of `s` is a string of digits whose value is `h`. */
  predicate DigitHour(s: string, h: nat) {
    HourField(s) != [] && AllDigits(HourField(s)) && DecimalValue(HourField(s)) == h
  }

  /** An hour string whose hour field is a string of digits gets the clock
      label of the hour those digits spell, whatever follows the field. */
  lemma FormatTimeOfDigits(s: string, h: nat)
    requires DigitHour(s, h)
    ensures FormatTime(Some(s)) == ClockLabel(h)
  {
    var field := HourField(s);
    ParseIntOfDigits(field);
    var hour := ParseInt(field);
    assert s != "" by { assert |field| <= |s|; }
    assert Hour12(hour) == ClockNumber(h);
    assert Meridiem(hour) == (if h >= 12 then "PM" else "AM");
  }

  /** An hour field without digits reads as NaN and gives "12AM". */
  lemma FormatTimeOfNaN(s: string)
    requires s != "" && ParseInt(HourField(s)) == None
    ensures FormatTime(Some(s)) == "12AM"
  {
    TwelveText();
  }

  lemma TwelveText()
    ensures NatToDecimal(12) == "12" && IntToDecimal(12) == "12"
  {
    assert 12 / 10 == 1 && 12 % 10 == 2;
    assert NatToDecimal(12) == NatToDecimal(1) + [DigitChar(2)];
  }

  /** A negative hour field keeps its sign: JavaScript's remainder of a
      negative hour is negative or zero. */
  lemma FormatTimeOfNegative(s: string, h: nat)
    requires ParseInt(HourField(s)) == Some(-(h as int)) && h % 12 != 0
    ensures FormatTime(Some(s)) == "-" + NatToDecimal(h % 12) + "AM"
  {
    EmptyHasNoHour();
    FormatTimeParts(s);
    NegativeClockNumber(h);
  }

  /** JavaScript's `%` keeps the sign of a negative hour. */
  lemma NegativeClockNumber(h: nat)
    requires h % 12 != 0
    ensures Hour12(Some(-(h as int))) == -(h % 12)
    ensures IntToDecimal(Hour12(Some(-(h as int)))) == "-" + NatToDecimal(h % 12)
  {
    assert JsRem(-(h as int), 12) == -(h % 12);
  }

  /** `formatTime` of a non-empty string is the printed clock number of its
      hour field followed by the meridiem. */
  lemma FormatTimeParts(s: string)
    requires s != ""
    ensures var hour := ParseInt(HourField(s));
            FormatTime(Some(s)) == IntToDecimal(Hour12(hour)) + Meridiem(hour)
  {
  }

  /** The empty string has no hour. */
  lemma EmptyHasNoHour()
    ensures ParseInt(HourField("")) == None
  {
    assert TrimStart("") == "";
  }

  /** Reads a label back: the hour of the day (0 to 23) that a label made
      of a clock number from 1 to 12 and AM or PM stands for. */
  function HourOfLabel(t: string): Option<nat> {
    if |t| < 3 || !AllDigits(t[..|t| - 2]) then None
    else
      var n := DecimalValue(t[..|t| - 2]);
      if n < 1 || n > 12 then None
      else if t[|t| - 2..] == "AM" then Some(if n == 12 then 0 else n)
      else if t[|t| - 2..] == "PM" then Some(if n == 12 then 12 else n + 12)
      else None
  }

  /** Reading back a clock number and its suffix. */
  lemma HourOfClockLabel(n: nat, pm: bool)
    requires 1 <= n <= 12
    ensures HourOfLabel(NatToDecimal(n) + (if pm then "PM" else "AM")) ==
            Some(if pm then (if n == 12 then 12 else n + 12) else (if n == 12 then 0 else n))
  {
    var suffix := if pm then "PM" else "AM";
    var t := NatToDecimal(n) + suffix;
    assert t[..|t| - 2] == NatToDecimal(n);
    assert t[|t| - 2..] == suffix;
    DecimalRoundTrip(n);
  }

  /** Each hour of the day has its own label, and reading it back gives the
      hour. */
  lemma {:induction false} ClockLabelRoundTrip(h: nat)
    requires h < 24
    ensures HourOfLabel(ClockLabel(h)) == Some(h)
  {
    assert h >= 12 ==> h % 12 == h - 12;
    assert h < 12 ==> h % 12 == h;
    HourOfClockLabel(ClockNumber(h), h >= 12);
  }

  /** Hence `formatTime` tells the hours of a day apart: reading back the
      label of an hour field from 0 to 23 gives that hour. */
  lemma LabelRoundTrip(s: string, h: nat)
    requires DigitHour(s, h) && h < 24
    ensures HourOfLabel(FormatTime(Some(s))) == Some(h)
  {
    FormatTimeOfDigits(s, h);
    ClockLabelRoundTrip(h);
  }

  /** Midnight and noon are both 12 on the clock face; afternoon hours count
      again from 1. */
  lemma ClockLabelExamples()
    ensures ClockLabel(0) == "12AM" && ClockLabel(12) == "12PM"
    ensures ClockLabel(13) == "1PM" && ClockLabel(14) == "2PM" && ClockLabel(23) == "11PM"
  {
    assert NatToDecimal(11) == NatToDecimal(1) + [DigitChar(1)];
    TwelveText();
  }

  /** The labels of the hourly strip for sample provider times: midnight,
      noon, half past one, two and eleven in the afternoon. */
  lemma FormatTimeExamples()
    ensures FormatTime(Some("00:00:00")) == "12AM" && FormatTime(Some("12:00:00")) == "12PM"
    ensures FormatTime(Some("13:30:00")) == "1PM" && FormatTime(Some("14:00:00")) == "2PM"
    ensures FormatTime(Some("23:00:00")) == "11PM"
  {
    ClockLabelExamples();
    MidnightField();
    FormatTimeOfDigits("00:00:00", 0);
    NoonField();
    FormatTimeOfDigits("12:00:00", 12);
    HalfPastOneField();
    FormatTimeOfDigits("13:30:00", 13);
    TwoPMField();
    FormatTimeOfDigits("14:00:00", 14);
    ElevenPMField();
    FormatTimeOfDigits("23:00:00", 23);
  }

  /** The hour fields of the provider's hour strings. */
  lemma MidnightField()
    ensures DigitHour("00:00:00", 0)
  {
    DigitHourExample("00:00:00", "00", 0);
  }

  lemma NoonField()
    ensures DigitHour("12:00:00", 12)
  {
    DigitHourExample("12:00:00", "12", 12);
  }

  lemma HalfPastOneField()
    ensures DigitHour("13:30:00", 13)
  {
    DigitHourExample("13:30:00", "13", 13);
  }

  lemma TwoPMField()
    ensures DigitHour("14:00:00", 14)
  {
    DigitHourExample("14:00:00", "14", 14);
  }

  lemma ElevenPMField()
    ensures DigitHour("23:00:00", 23)
  {
    DigitHourExample("23:00:00", "23", 23);
  }

  /** A two-digit hour field followed by a colon. */
  lemma DigitHourExample(s: string, field: string, h: nat)
    requires |field| == 2 && AllDigits(field) && |s| > 2 && s[..2] == field && s[2] == ':'
    requires h == (field[0] as int - '0' as int) * 10 + (field[1] as int - '0' as int)
    ensures DigitHour(s, h)
  {
    assert HourField(s[2..]) == [];
    assert HourField(s[1..]) == [s[1]];
    assert HourField(s) == field;
    assert field[..1][..0] == [];
    assert DecimalValue(field[..1]) == field[0] as int - '0' as int;
  }
}
