/**
 * Local calendar time as the dashboard sees it through a JavaScript `Date`:
 * the fields `getFullYear()` … `getMilliseconds()` return, ordered
 * chronologically. The date inputs' `YYYY-MM-DD` values, the inclusive
 * day bounds built from them, and the `YYYY-MM-DD HH:00` hour-bucket key.
 */
module LocalTime {
  import opened Wrappers
  import opened Text

  datatype DateTime = DateTime(year: int, month: int, day: int, hour: int, minute: int, second: int, millis: int)

  datatype Day = Day(year: int, month: int, day: int)

  predicate IsLeapYear(y: int) {
    (y % 4 == 0 && y % 100 != 0) || y % 400 == 0
  }

  function DaysInMonth(y: int, m: int): (n: int)
    requires 1 <= m <= 12
    ensures 28 <= n <= 31
  {
    if m == 2 then (if IsLeapYear(y) then 29 else 28)
    else if m == 4 || m == 6 || m == 9 || m == 11 then 30
    else 31
  }

  predicate ValidDay(d: Day) {
    1 <= d.month <= 12 && 1 <= d.day <= DaysInMonth(d.year, d.month)
  }

  function DayOf(t: DateTime): Day {
    Day(t.year, t.month, t.day)
  }

  /** The fields a `Date` reports always lie in their ranges. */
  predicate ValidTime(t: DateTime) {
    && ValidDay(DayOf(t))
    && 0 <= t.hour < 24 && 0 <= t.minute < 60 && 0 <= t.second < 60 && 0 <= t.millis < 1000
  }

  /** A valid `Date`, the value of a record's `date`. */
  type Timestamp = t: DateTime | ValidTime(t) witness DateTime(1970, 1, 1, 0, 0, 0, 0)

  /** `a < b` on `Date`s: chronological, field by field. */
  predicate Before(a: DateTime, b: DateTime) {
    if a.year != b.year then a.year < b.year
    else if a.month != b.month then a.month < b.month
    else if a.day != b.day then a.day < b.day
    else if a.hour != b.hour then a.hour < b.hour
    else if a.minute != b.minute then a.minute < b.minute
    else if a.second != b.second then a.second < b.second
    else a.millis < b.millis
  }

  predicate AtOrBefore(a: DateTime, b: DateTime) {
    !Before(b, a)
  }

  lemma BeforeTotal(a: DateTime, b: DateTime)
    ensures a == b || Before(a, b) || Before(b, a)
    ensures !(Before(a, b) && Before(b, a))
  {
  }

  lemma BeforeTransitive(a: DateTime, b: DateTime, c: DateTime)
    requires Before(a, b) && Before(b, c)
    ensures Before(a, c)
  {
  }

  // ---------------------------------------------------------------------
  // The value of an <input type="date">: exactly YYYY-MM-DD
  // ---------------------------------------------------------------------

  function Pow10(w: nat): (p: nat)
    ensures p >= 1
  {
    if w == 0 then 1 else 10 * Pow10(w - 1)
  }

  /** `n` written with exactly `w` digits, zero-padded on the left. */
  function FixedDigits(n: nat, w: nat): (s: string)
    ensures |s| == w
    ensures forall i :: 0 <= i < |s| ==> IsDigit(s[i])
  {
    if w == 0 then [] else FixedDigits(n / 10, w - 1) + [DigitChar(n % 10)]
  }

  predicate AllDigits(s: string) {
    forall i :: 0 <= i < |s| ==> IsDigit(s[i])
  }

  lemma {:induction false} FixedDigitsValue(n: nat, w: nat)
    requires n < Pow10(w)
    ensures DecimalValue(FixedDigits(n, w)) == n
  {
    if w > 0 {
      FixedDigitsValue(n / 10, w - 1);
      var s := FixedDigits(n, w);
      assert s[..|s| - 1] == FixedDigits(n / 10, w - 1);
    }
  }

  lemma {:induction false} DecimalValueFixed(s: string)
    requires AllDigits(s)
    ensures DecimalValue(s) < Pow10(|s|)
    ensures FixedDigits(DecimalValue(s), |s|) == s
  {
    if s != [] {
      var init := s[..|s| - 1];
      DecimalValueFixed(init);
      var v := DecimalValue(s);
      assert v / 10 == DecimalValue(init) && v % 10 == DigitValue(s[|s| - 1]);
      assert s == init + [s[|s| - 1]];
    }
  }

  /** The date input's text for a day. */
  function FormatDay(d: Day): string
    requires 0 <= d.year < 10000 && 1 <= d.month <= 12 && 1 <= d.day <= 31
  {
    FixedDigits(d.year, 4) + "-" + FixedDigits(d.month, 2) + "-" + FixedDigits(d.day, 2)
  }

  /** Reads `YYYY-MM-DD`; anything else, or a day the calendar lacks, is invalid. */
  function ParseDay(s: string): (r: Option<Day>)
    ensures r.Some? ==> ValidDay(r.value) && 0 <= r.value.year < 10000
  {
    if |s| == 10 && s[4] == '-' && s[7] == '-' && AllDigits(s[..4]) && AllDigits(s[5..7]) && AllDigits(s[8..]) then
      var d := Day(DecimalValue(s[..4]), DecimalValue(s[5..7]), DecimalValue(s[8..]));
      DecimalValueFixed(s[..4]);
      if ValidDay(d) then Some(d) else None
    else None
  }

  lemma FormatDayParts(d: Day)
    requires 0 <= d.year < 10000 && 1 <= d.month <= 12 && 1 <= d.day <= 31
    ensures var s := FormatDay(d);
      && |s| == 10 && s[4] == '-' && s[7] == '-'
      && s[..4] == FixedDigits(d.year, 4) && s[5..7] == FixedDigits(d.month, 2) && s[8..] == FixedDigits(d.day, 2)
  {
  }

  /** Every calendar day's text is read back as that day. */
  lemma ParseFormatDay(d: Day)
    requires ValidDay(d) && 0 <= d.year < 10000
    ensures ParseDay(FormatDay(d)) == Some(d)
  {
    FormatDayParts(d);
    FixedDigitsValue(d.year, 4);
    FixedDigitsValue(d.month, 2);
    FixedDigitsValue(d.day, 2);
  }

  /** Only canonical text is accepted: a parsed day is written back exactly as it was read. */
  lemma FormatParseDay(s: string)
    requires ParseDay(s).Some?
    ensures FormatDay(ParseDay(s).value) == s
  {
    DecimalValueFixed(s[..4]);
    DecimalValueFixed(s[5..7]);
    DecimalValueFixed(s[8..]);
    assert s == s[..4] + "-" + s[5..7] + "-" + s[8..];
  }

  function StartOfDay(d: Day): DateTime {
    DateTime(d.year, d.month, d.day, 0, 0, 0, 0)
  }

  function EndOfDay(d: Day): DateTime {
    DateTime(d.year, d.month, d.day, 23, 59, 59, 999)
  }

  /** `dateStartInclusive`: no bound for an empty or invalid value, else midnight of that day. */
  function DateStartInclusive(s: string): (r: Option<DateTime>)
    ensures r.None? <==> s == "" || ParseDay(s).None?
    ensures r.Some? ==> ValidTime(r.value) && r.value == StartOfDay(ParseDay(s).value)
  {
    if s == "" then None
    else match ParseDay(s)
      case None => None
      case Some(d) => Some(StartOfDay(d))
  }

  /** `dateEndInclusive`: no bound for an empty or invalid value, else 23:59:59.999 of that day. */
  function DateEndInclusive(s: string): (r: Option<DateTime>)
    ensures r.None? <==> s == "" || ParseDay(s).None?
    ensures r.Some? ==> ValidTime(r.value) && r.value == EndOfDay(ParseDay(s).value)
  {
    if s == "" then None
    else match ParseDay(s)
      case None => None
      case Some(d) => Some(EndOfDay(d))
  }

  /** A valid time lies between the start and the end of a day exactly when it falls on that day. */
  lemma WithinDay(t: DateTime, d: Day)
    requires ValidTime(t)
    ensures AtOrBefore(StartOfDay(d), t) && AtOrBefore(t, EndOfDay(d)) <==> DayOf(t) == d
  {
  }

  /** The bounds of a date input's day, read back from its text. */
  lemma DayBoundsOfText(d: Day, t: DateTime)
    requires ValidDay(d) && 0 <= d.year < 10000 && ValidTime(t)
    ensures DateStartInclusive(FormatDay(d)) == Some(StartOfDay(d))
    ensures DateEndInclusive(FormatDay(d)) == Some(EndOfDay(d))
    ensures AtOrBefore(StartOfDay(d), t) && AtOrBefore(t, EndOfDay(d)) <==> DayOf(t) == d
  {
    ParseFormatDay(d);
    WithinDay(t, d);
  }

  // ---------------------------------------------------------------------
  // Hour buckets
  // ---------------------------------------------------------------------

  /** The hour-bucket key `${year}-${MM}-${DD} ${HH}:00`. */
  function HourKey(t: Timestamp): string {
    IntToString(t.year) + "-" + Pad2(t.month) + "-" + Pad2(t.day) + " " + Pad2(t.hour) + ":00"
  }

  /** The hour of `a` starts before the hour of `b`. */
  predicate HourBefore(a: DateTime, b: DateTime) {
    if a.year != b.year then a.year < b.year
    else if a.month != b.month then a.month < b.month
    else if a.day != b.day then a.day < b.day
    else a.hour < b.hour
  }

  predicate SameHour(a: DateTime, b: DateTime) {
    a.year == b.year && a.month == b.month && a.day == b.day && a.hour == b.hour
  }

  lemma {:induction false} StrLtConcat(x1: string, y1: string, x2: string, y2: string)
    requires |x1| == |x2|
    ensures StrLt(x1 + y1, x2 + y2) <==> StrLt(x1, x2) || (x1 == x2 && StrLt(y1, y2))
  {
    if x1 != [] {
      assert (x1 + y1)[1..] == x1[1..] + y1;
      assert (x2 + y2)[1..] == x2[1..] + y2;
      StrLtConcat(x1[1..], y1, x2[1..], y2);
      if x1[0] == x2[0] && x1[1..] == x2[1..] {
        assert x1 == [x1[0]] + x1[1..] && x2 == [x2[0]] + x2[1..];
      }
    } else {
      assert x1 + y1 == y1 && x2 + y2 == y2;
    }
  }

  /** Zero-padded fixed-width digits compare as the numbers they denote. */
  lemma {:induction false} FixedDigitsOrder(a: nat, b: nat, w: nat)
    requires a < Pow10(w) && b < Pow10(w)
    ensures StrLt(FixedDigits(a, w), FixedDigits(b, w)) <==> a < b
    ensures FixedDigits(a, w) == FixedDigits(b, w) <==> a == b
  {
    if w == 0 {
    } else {
      FixedDigitsOrder(a / 10, b / 10, w - 1);
      StrLtConcat(FixedDigits(a / 10, w - 1), [DigitChar(a % 10)], FixedDigits(b / 10, w - 1), [DigitChar(b % 10)]);
      var da, db := [DigitChar(a % 10)], [DigitChar(b % 10)];
      assert StrLt(da, db) <==> a % 10 < b % 10 by {
        assert da[1..] == [] && db[1..] == [];
      }
      if FixedDigits(a, w) == FixedDigits(b, w) {
        var sa, sb := FixedDigits(a, w), FixedDigits(b, w);
        assert sa[..w - 1] == FixedDigits(a / 10, w - 1) && sb[..w - 1] == FixedDigits(b / 10, w - 1);
        assert DigitChar(a % 10) == sa[w - 1];
        assert DigitValue(DigitChar(a % 10)) == a % 10 && DigitValue(DigitChar(b % 10)) == b % 10;
      }
    }
  }

  lemma {:induction false} NatToStringFixed(n: nat, w: nat)
    requires w >= 1 && Pow10(w - 1) <= n < Pow10(w)
    ensures NatToString(n) == FixedDigits(n, w)
  {
    if w > 1 {
      NatToStringFixed(n / 10, w - 1);
    }
  }

  /** One fixed-width field followed by a separator and the rest of a key. */
  lemma FieldThenRest(x1: string, y1: string, x2: string, y2: string, c: string)
    requires |x1| == |x2|
    ensures StrLt(x1 + (c + y1), x2 + (c + y2)) <==> StrLt(x1, x2) || (x1 == x2 && StrLt(y1, y2))
    ensures x1 + (c + y1) == x2 + (c + y2) <==> x1 == x2 && y1 == y2
  {
    StrLtConcat(x1, c + y1, x2, c + y2);
    StrLtConcat(c, y1, c, y2);
    StrLtIrreflexive(c);
    if x1 + (c + y1) == x2 + (c + y2) {
      assert x1 == (x1 + (c + y1))[..|x1|];
      assert x2 == (x2 + (c + y2))[..|x2|];
      assert c + y1 == (x1 + (c + y1))[|x1|..];
      assert c + y2 == (x2 + (c + y2))[|x2|..];
      assert y1 == (c + y1)[|c|..] && y2 == (c + y2)[|c|..];
    }
  }

  /** The key, written as nested field-then-rest pieces. */
  function KeyOf(y: string, m: string, d: string, h: string): string {
    y + ("-" + (m + ("-" + (d + (" " + (h + (":00" + "")))))))
  }

  lemma Pad2Fixed(n: nat)
    requires n < 100
    ensures Pad2(n) == FixedDigits(n, 2)
  {
    assert FixedDigits(n, 2) == FixedDigits(n / 10, 1) + [DigitChar(n % 10)];
    assert FixedDigits(n / 10, 1) == FixedDigits(n / 100, 0) + [DigitChar(n / 10 % 10)];
  }

  /** The key text regrouped field by field. */
  lemma KeyOfLayout(y: string, m: string, d: string, h: string)
    ensures y + "-" + m + "-" + d + " " + h + ":00" == KeyOf(y, m, d, h)
  {
    calc {
      y + "-" + m + "-" + d + " " + h + ":00";
      { assert y + "-" + m + "-" + d + " " + h + ":00" == y + ("-" + m + "-" + d + " " + h + ":00"); }
      y + ("-" + (m + ("-" + d + " " + h + ":00")));
      { assert "-" + d + " " + h + ":00" == "-" + (d + (" " + (h + ":00"))); }
      y + ("-" + (m + ("-" + (d + (" " + (h + (":00" + "")))))));
    }
  }

  lemma HourKeyLayout(t: Timestamp)
    requires 1000 <= t.year <= 9999
    ensures HourKey(t) == KeyOf(FixedDigits(t.year, 4), FixedDigits(t.month, 2), FixedDigits(t.day, 2), FixedDigits(t.hour, 2))
  {
    NatToStringFixed(t.year, 4);
    Pad2Fixed(t.month);
    Pad2Fixed(t.day);
    Pad2Fixed(t.hour);
    KeyOfLayout(IntToString(t.year), Pad2(t.month), Pad2(t.day), Pad2(t.hour));
  }

  /** Keys built from fields of equal widths compare field by field. */
  lemma KeyOfOrder(y1: string, m1: string, d1: string, h1: string, y2: string, m2: string, d2: string, h2: string)
    requires |y1| == |y2| && |m1| == |m2| && |d1| == |d2| && |h1| == |h2|
    ensures StrLt(KeyOf(y1, m1, d1, h1), KeyOf(y2, m2, d2, h2)) <==>
      StrLt(y1, y2) || (y1 == y2 && (StrLt(m1, m2) || (m1 == m2 && (StrLt(d1, d2) || (d1 == d2 && StrLt(h1, h2))))))
    ensures KeyOf(y1, m1, d1, h1) == KeyOf(y2, m2, d2, h2) <==> y1 == y2 && m1 == m2 && d1 == d2 && h1 == h2
  {
    StrLtIrreflexive("");
    FieldThenRest(h1, "", h2, "", ":00");
    FieldThenRest(d1, h1 + (":00" + ""), d2, h2 + (":00" + ""), " ");
    FieldThenRest(m1, d1 + (" " + (h1 + (":00" + ""))), m2, d2 + (" " + (h2 + (":00" + ""))), "-");
    FieldThenRest(y1, m1 + ("-" + (d1 + (" " + (h1 + (":00" + ""))))), y2, m2 + ("-" + (d2 + (" " + (h2 + (":00" + ""))))), "-");
  }

  /**
   * With four-digit years the key order is the chronological order of the
   * hours, and equal keys mean the same hour: sorting keys as strings sorts
   * the buckets in time.
   */
  lemma HourKeyOrder(a: Timestamp, b: Timestamp)
    requires 1000 <= a.year <= 9999 && 1000 <= b.year <= 9999
    ensures StrLt(HourKey(a), HourKey(b)) <==> HourBefore(a, b)
    ensures HourKey(a) == HourKey(b) <==> SameHour(a, b)
  {
    HourKeyLayout(a);
    HourKeyLayout(b);
    FixedDigitsOrder(a.year, b.year, 4);
    FixedDigitsOrder(a.month, b.month, 2);
    FixedDigitsOrder(a.day, b.day, 2);
    FixedDigitsOrder(a.hour, b.hour, 2);
    KeyOfOrder(FixedDigits(a.year, 4), FixedDigits(a.month, 2), FixedDigits(a.day, 2), FixedDigits(a.hour, 2),
               FixedDigits(b.year, 4), FixedDigits(b.month, 2), FixedDigits(b.day, 2), FixedDigits(b.hour, 2));
  }
}
