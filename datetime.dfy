/** The 12-hour Korean timestamp of `formatKoreanDateTime` in src/App.tsx,
    over the integer components the `Date` getters return. */
module KoreanDateTime {
  import opened Wrappers

  type Month0 = m: int | 0 <= m < 12
  type Day = d: int | 1 <= d <= 31 witness 1
  type Hour24 = h: int | 0 <= h < 24
  type Minute = m: int | 0 <= m < 60

  /** Local date and time, with the month counted from 0 as `getMonth` does. */
  datatype DateTime = DateTime(year: int, month0: Month0, day: Day, hours: Hour24, minutes: Minute)

  predicate IsDigit(c: char) {
    '0' <= c <= '9'
  }

  predicate AllDigits(s: string) {
    forall i | 0 <= i < |s| :: IsDigit(s[i])
  }

  function DigitChar(d: nat): (c: char)
    requires d < 10
    ensures IsDigit(c)
  {
    ('0' as int + d) as char
  }

  function DigitValue(c: char): (d: nat)
    requires IsDigit(c)
    ensures d < 10
  {
    c as int - '0' as int
  }

  /** Decimal digits without a leading zero: the only text that starts with '0' is "0". */
  predicate Canonical(s: string) {
    |s| >= 1 && AllDigits(s) && (s[0] == '0' ==> |s| == 1)
  }

  /** `String(n)` for a non-negative integer: decimal digits, no leading zero. */
  function NatToString(n: nat): (s: string)
    ensures Canonical(s)
    ensures s[0] == '0' <==> n == 0
  {
    if n < 10 then [DigitChar(n)] else NatToString(n / 10) + [DigitChar(n % 10)]
  }

  /** The value of a string of decimal digits. */
  function ParseNat(s: string): nat
    requires AllDigits(s)
  {
    if s == [] then 0 else ParseNat(s[..|s| - 1]) * 10 + DigitValue(s[|s| - 1])
  }

  lemma {:induction false} NatToStringRoundTrip(n: nat)
    ensures ParseNat(NatToString(n)) == n
  {
    if n >= 10 {
      var s := NatToString(n);
      assert s[..|s| - 1] == NatToString(n / 10);
      NatToStringRoundTrip(n / 10);
    }
  }

  /** `String(i)` for any integer: a minus sign before the digits of a negative one. */
  function IntToString(i: int): (s: string)
    ensures |s| >= 1 && (s[0] == '-' <==> i < 0)
    ensures Canonical(if i < 0 then s[1..] else s)
  {
    if i < 0 then "-" + NatToString(-i) else NatToString(i)
  }

  /** Reads the text `String` gives an integer; other spellings, such as a
      leading zero, "-0" or the empty text, are rejected. */
  function ParseInt(s: string): (r: Option<int>) {
    if |s| >= 2 && s[0] == '-' && Canonical(s[1..]) && s[1] != '0' then Some(0 - ParseNat(s[1..]))
    else if Canonical(s) then Some(ParseNat(s))
    else None
  }

  lemma IntToStringRoundTrip(i: int)
    ensures ParseInt(IntToString(i)) == Some(i)
  {
    var digits := NatToString(if i < 0 then -i else i);
    NatToStringRoundTrip(if i < 0 then -i else i);
    if i < 0 {
      var s := "-" + digits;
      assert s[0] == '-' && s[1..] == digits;
    } else {
      assert IsDigit(digits[0]);
    }
  }

  /** `String(n).padStart(2, "0")`. */
  function Pad2(n: nat): (s: string)
    ensures AllDigits(s) && |s| >= 2 && ParseNat(s) == n
    ensures |s| > 2 ==> s[0] != '0'
  {
    var digits := NatToString(n);
    NatToStringRoundTrip(n);
    if |digits| >= 2 then digits
    else
      ParseNatLeadingZero(digits);
      "0" + digits
  }

  /** A leading zero does not change the value of a digit string. */
  lemma {:induction false} ParseNatLeadingZero(s: string)
    requires AllDigits(s)
    ensures AllDigits("0" + s) && ParseNat("0" + s) == ParseNat(s)
    decreases |s|
  {
    if s != [] {
      var t := "0" + s;
      assert t[..|t| - 1] == "0" + s[..|s| - 1];
      ParseNatLeadingZero(s[..|s| - 1]);
    }
  }

  /** Values below 100 are padded to exactly two digits that read back as the value. */
  lemma Pad2RoundTrip(n: nat)
    requires n < 100
    ensures |Pad2(n)| == 2 && ParseNat(Pad2(n)) == n
  {
    NatToStringRoundTrip(n);
    if n >= 10 {
      assert NatToString(n) == NatToString(n / 10) + [DigitChar(n % 10)];
    } else {
      ParseNatLeadingZero(NatToString(n));
    }
  }

  const AmLabel: string := "오전"
  const PmLabel: string := "오후"

  /** The marker: afternoon from 12:00 on. */
  function AmPm(hours: Hour24): (marker: string)
    ensures marker == PmLabel <==> hours >= 12
    ensures marker == AmLabel <==> hours < 12
  {
    if hours >= 12 then PmLabel else AmLabel
  }

  /** The 12-hour clock value: `hours % 12`, with 0 shown as 12. */
  function Hour12(hours: Hour24): (h: int)
    ensures 1 <= h <= 12
    ensures h % 12 == hours % 12
  {
    var h := hours % 12;
    if h == 0 then 12 else h
  }

  /** The marker and the 12-hour value together determine the 24-hour value. */
  function To24(afternoon: bool, h12: int): int {
    h12 % 12 + (if afternoon then 12 else 0)
  }

  lemma TwelveHourRoundTrip(hours: Hour24)
    ensures To24(AmPm(hours) == PmLabel, Hour12(hours)) == hours
  {
  }

  /** `formatKoreanDateTime`: `None` stands for a null or empty input, which gives "". */
  function FormatKoreanDateTime(d: Option<DateTime>): (s: string)
    ensures d.None? <==> s == ""
  {
    match d
    case None => ""
    case Some(t) =>
      IntToString(t.year) + "-" + Pad2(t.month0 + 1) + "-" + Pad2(t.day) + " "
        + AmPm(t.hours) + " " + NatToString(Hour12(t.hours)) + ":" + Pad2(t.minutes)
  }

  /** Splits `<rest> <hour>:<minutes>` from the end: the minutes are two digits,
      the hour one or two without a leading zero. */
  function SplitClock(s: string): Option<(string, string, string)> {
    var n := |s|;
    if n < 5 || s[n - 3] != ':' || !AllDigits(s[n - 2..]) then None
    else
      var hourStart := if s[n - 5] == ' ' then n - 4 else n - 5;
      if hourStart < 1 || s[hourStart - 1] != ' ' || !AllDigits(s[hourStart..n - 3]) || s[hourStart] == '0' then None
      else Some((s[..hourStart - 1], s[hourStart..n - 3], s[n - 2..]))
  }

  /** Splits `<year>-<mm>-<dd> <marker>` from the end. */
  function SplitDate(s: string): Option<(string, string, string, string)> {
    var m := |s|;
    if m < 9 || s[m - 3] != ' ' || s[m - 6] != '-' || s[m - 9] != '-' then None
    else if !AllDigits(s[m - 5..m - 3]) || !AllDigits(s[m - 8..m - 6]) then None
    else if s[m - 2..] != AmLabel && s[m - 2..] != PmLabel then None
    else Some((s[..m - 9], s[m - 8..m - 6], s[m - 5..m - 3], s[m - 2..]))
  }

  /** Reads a timestamp back; the inverse of `FormatKoreanDateTime` on its results. */
  function ParseKoreanDateTime(s: string): Option<DateTime> {
    match SplitClock(s)
    case None => None
    case Some((rest, hourText, minuteText)) =>
      match SplitDate(rest)
      case None => None
      case Some((yearText, monthText, dayText, marker)) =>
        if AllDigits(monthText) && AllDigits(dayText) && AllDigits(hourText) && AllDigits(minuteText)
        then FromFields(yearText, monthText, dayText, marker, hourText, minuteText)
        else None
  }

  /** The date and time the split fields name, when each is in range. */
  function FromFields(yearText: string, monthText: string, dayText: string, marker: string,
                      hourText: string, minuteText: string): Option<DateTime>
    requires AllDigits(monthText) && AllDigits(dayText) && AllDigits(hourText) && AllDigits(minuteText)
  {
    var year := ParseInt(yearText);
    var month0 := ParseNat(monthText) - 1;
    var day := ParseNat(dayText);
    var hours := To24(marker == PmLabel, ParseNat(hourText));
    var minutes := ParseNat(minuteText);
    if year.None? || !(0 <= month0 < 12) || !(1 <= day <= 31) || !(1 <= ParseNat(hourText) <= 12)
      || !(0 <= hours < 24) || !(0 <= minutes < 60)
    then None
    else Some(DateTime(year.value, month0, day, hours, minutes))
  }

  lemma SplitClockOf(rest: string, hh: string, mi: string)
    requires 1 <= |hh| <= 2 && AllDigits(hh) && hh[0] != '0' && |mi| == 2 && AllDigits(mi)
    ensures SplitClock(rest + " " + hh + ":" + mi) == Some((rest, hh, mi))
  {
    var s := rest + " " + hh + ":" + mi;
    var n := |s|;
    assert s[n - 2..] == mi;
    assert s[n - 3] == ':';
    var hourStart := if s[n - 5] == ' ' then n - 4 else n - 5;
    assert hourStart == |rest| + 1 by {
      if |hh| == 1 {
        assert s[n - 5] == ' ';
      } else {
        assert s[n - 5] == hh[0];
      }
    }
    assert s[..hourStart - 1] == rest;
    assert s[hourStart..n - 3] == hh;
  }

  lemma SplitDateOf(y: string, mm: string, dd: string, marker: string)
    requires |mm| == 2 && AllDigits(mm) && |dd| == 2 && AllDigits(dd)
    requires marker == AmLabel || marker == PmLabel
    ensures SplitDate(y + "-" + mm + "-" + dd + " " + marker) == Some((y, mm, dd, marker))
  {
    var s := y + "-" + mm + "-" + dd + " " + marker;
    var m := |s|;
    assert s[m - 2..] == marker;
    assert s[m - 5..m - 3] == dd;
    assert s[m - 8..m - 6] == mm;
    assert s[..m - 9] == y;
  }

  lemma HourTextWidth(h: int)
    requires 1 <= h <= 12
    ensures 1 <= |NatToString(h)| <= 2 && NatToString(h)[0] != '0'
  {
  }

  /** An hour text off the 12-hour clock, such as "13" or "0", is rejected. */
  lemma HourOffClockRejected(y: string, mm: string, dd: string, marker: string, hh: string, mi: string)
    requires AllDigits(mm) && AllDigits(dd) && AllDigits(hh) && AllDigits(mi)
    requires !(1 <= ParseNat(hh) <= 12)
    ensures FromFields(y, mm, dd, marker, hh, mi) == None
  {
  }

  /** Fields that read back as those of `t` give `t`. */
  lemma FromFieldsOf(y: string, mm: string, dd: string, marker: string, hh: string, mi: string, t: DateTime)
    requires ParseInt(y) == Some(t.year)
    requires AllDigits(mm) && ParseNat(mm) == t.month0 + 1
    requires AllDigits(dd) && ParseNat(dd) == t.day
    requires AllDigits(hh) && 1 <= ParseNat(hh) <= 12 && To24(marker == PmLabel, ParseNat(hh)) == t.hours
    requires AllDigits(mi) && ParseNat(mi) == t.minutes
    ensures FromFields(y, mm, dd, marker, hh, mi) == Some(t)
  {
    assert FromFields(y, mm, dd, marker, hh, mi)
      == Some(DateTime(t.year, ParseNat(mm) - 1, ParseNat(dd), To24(marker == PmLabel, ParseNat(hh)), ParseNat(mi)));
  }

  /** The part of a timestamp before the clock. */
  function DateText(t: DateTime): string {
    IntToString(t.year) + "-" + Pad2(t.month0 + 1) + "-" + Pad2(t.day) + " " + AmPm(t.hours)
  }

  lemma ClockSplit(t: DateTime)
    ensures SplitClock(FormatKoreanDateTime(Some(t)))
      == Some((DateText(t), NatToString(Hour12(t.hours)), Pad2(t.minutes)))
  {
    var hh, mi := NatToString(Hour12(t.hours)), Pad2(t.minutes);
    assert FormatKoreanDateTime(Some(t)) == DateText(t) + " " + hh + ":" + mi;
    Pad2RoundTrip(t.minutes);
    HourTextWidth(Hour12(t.hours));
    SplitClockOf(DateText(t), hh, mi);
  }

  lemma DateSplit(t: DateTime)
    ensures SplitDate(DateText(t)) == Some((IntToString(t.year), Pad2(t.month0 + 1), Pad2(t.day), AmPm(t.hours)))
  {
    Pad2RoundTrip(t.month0 + 1);
    Pad2RoundTrip(t.day);
    SplitDateOf(IntToString(t.year), Pad2(t.month0 + 1), Pad2(t.day), AmPm(t.hours));
  }

  /** Every formatted timestamp reads back as the date and time it was made from. */
  lemma FormatRoundTrip(t: DateTime)
    ensures ParseKoreanDateTime(FormatKoreanDateTime(Some(t))) == Some(t)
  {
    ClockSplit(t);
    DateSplit(t);
    Pad2RoundTrip(t.month0 + 1);
    Pad2RoundTrip(t.day);
    Pad2RoundTrip(t.minutes);
    IntToStringRoundTrip(t.year);
    NatToStringRoundTrip(Hour12(t.hours));
    TwelveHourRoundTrip(t.hours);
    FromFieldsOf(IntToString(t.year), Pad2(t.month0 + 1), Pad2(t.day), AmPm(t.hours),
      NatToString(Hour12(t.hours)), Pad2(t.minutes), t);
  }
}
