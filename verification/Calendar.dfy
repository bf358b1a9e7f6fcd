/** UTC timestamps in the form `YYYY-MM-DDTHH:MM:SSZ` (section 5.6 of RFC 3339): printing a second
    of the epoch, and reading one back as `strptime` does. */
module Calendar {
  import opened Options
  import opened Decimal

  predicate Leap(y: nat) {
    y % 4 == 0 && (y % 100 != 0 || y % 400 == 0)
  }

  function DaysInYear(y: nat): nat {
    if Leap(y) then 366 else 365
  }

  function DaysInMonth(y: nat, m: nat): nat {
    if m == 2 then (if Leap(y) then 29 else 28)
    else if m == 4 || m == 6 || m == 9 || m == 11 then 30
    else 31
  }

  /** Days before 1 January of year `y >= 1`, from 1 January of year 1. */
  function DaysBeforeYear(y: nat): int {
    var n := y - 1;
    365 * n + n / 4 - n / 100 + n / 400
  }

  function DaysBeforeMonth(y: nat, m: nat): nat
    requires 1 <= m <= 13
  {
    if m == 1 then 0 else DaysBeforeMonth(y, m - 1) + DaysInMonth(y, m - 1)
  }

  const EPOCH_DAYS := 719162

  /** A calendar date. */
  datatype Date = Date(year: nat, month: nat, day: nat) {
    predicate Valid() {
      1 <= year <= 9999 && 1 <= month <= 12 && 1 <= day <= DaysInMonth(year, month)
    }
  }

  /** Days from the epoch to a date. */
  function DayNumber(d: Date): int
    requires d.Valid()
  {
    DaysBeforeYear(d.year) - EPOCH_DAYS + DaysBeforeMonth(d.year, d.month) + d.day - 1
  }

  /** The year and the day of the year, `n` days after 1 January of `y`. */
  function YearFrom(y: nat, n: nat): (nat, nat)
    decreases n
  {
    if n < DaysInYear(y) then (y, n) else YearFrom(y + 1, n - DaysInYear(y))
  }

  /** The month and the day of it, `n` days after the first of month `m` of year `y`. */
  function MonthFrom(y: nat, m: nat, n: nat): (nat, nat)
    requires 1 <= m <= 12
    decreases 12 - m
  {
    if m == 12 || n < DaysInMonth(y, m) then (m, n) else MonthFrom(y, m + 1, n - DaysInMonth(y, m))
  }

  function DateOf(days: nat): Date {
    var (y, n) := YearFrom(1970, days);
    var (m, d) := MonthFrom(y, 1, n);
    Date(y, m, d + 1)
  }

  /** The first second of year 10000. */
  const END_OF_TIME := 253402300800

  // ---- Dates and day numbers -------------------------------------------------------------

  lemma YearAfterYear(y: nat)
    requires y >= 1
    ensures DaysBeforeYear(y + 1) == DaysBeforeYear(y) + DaysInYear(y)
  {
    QuotientsStep(y);
  }

  /** Each quotient in the leap-year count steps at the multiples of its divisor. */
  lemma QuotientsStep(y: nat)
    requires y >= 1
    ensures y / 4 == (y - 1) / 4 + if y % 4 == 0 then 1 else 0
    ensures y / 100 == (y - 1) / 100 + if y % 100 == 0 then 1 else 0
    ensures y / 400 == (y - 1) / 400 + if y % 400 == 0 then 1 else 0
    ensures (y % 400 == 0 ==> y % 100 == 0) && (y % 100 == 0 ==> y % 4 == 0)
  {
  }

  lemma MonthsMakeAYear(y: nat)
    ensures DaysBeforeMonth(y, 13) == DaysInYear(y)
  {
    var leap := DaysInMonth(y, 2);
    assert DaysBeforeMonth(y, 2) == 31 + DaysBeforeMonth(y, 1);
    assert DaysBeforeMonth(y, 3) == 31 + leap;
    assert DaysBeforeMonth(y, 4) == 62 + leap;
    assert DaysBeforeMonth(y, 5) == 92 + leap;
    assert DaysBeforeMonth(y, 6) == 123 + leap;
    assert DaysBeforeMonth(y, 7) == 153 + leap;
    assert DaysBeforeMonth(y, 8) == 184 + leap;
    assert DaysBeforeMonth(y, 9) == 215 + leap;
    assert DaysBeforeMonth(y, 10) == 245 + leap;
    assert DaysBeforeMonth(y, 11) == 276 + leap;
    assert DaysBeforeMonth(y, 12) == 306 + leap;
  }

  lemma {:induction false} YearFromIsRight(y: nat, n: nat)
    requires y >= 1
    ensures var r := YearFrom(y, n);
            && y <= r.0 && r.1 < DaysInYear(r.0)
            && DaysBeforeYear(y) + n == DaysBeforeYear(r.0) + r.1
    decreases n
  {
    if n >= DaysInYear(y) {
      YearAfterYear(y);
      YearFromIsRight(y + 1, n - DaysInYear(y));
    }
  }

  lemma {:induction false} MonthFromIsRight(y: nat, m: nat, n: nat)
    requires 1 <= m <= 12 && DaysBeforeMonth(y, m) + n < DaysInYear(y)
    ensures var r := MonthFrom(y, m, n);
            && 1 <= r.0 <= 12 && r.1 < DaysInMonth(y, r.0)
            && DaysBeforeMonth(y, m) + n == DaysBeforeMonth(y, r.0) + r.1
    decreases 12 - m
  {
    hide DaysInYear, DaysInMonth;
    MonthsMakeAYear(y);
    if m != 12 && n >= DaysInMonth(y, m) {
      MonthFromIsRight(y, m + 1, n - DaysInMonth(y, m));
    }
  }

  lemma {:induction false} LaterYearsStartLater(y: nat, z: nat)
    requires 1 <= y <= z
    ensures DaysBeforeYear(y) <= DaysBeforeYear(z)
    decreases z
  {
    if y < z {
      YearAfterYear(z - 1);
      LaterYearsStartLater(y, z - 1);
    }
  }

  /** Days before month `m` of year `y`, without reference to the lengths of months: 367 twelfths of a
      month's days, less what February lacks. */
  function MonthStart(y: nat, m: nat): int {
    (367 * m - 362) / 12 - (if m <= 2 then 0 else if y % 4 == 0 && (y % 100 != 0 || y % 400 == 0) then 1 else 2)
  }

  lemma {:induction false} MonthsStartThere(y: nat, m: nat)
    requires 1 <= m <= 13
    ensures DaysBeforeMonth(y, m) == MonthStart(y, m)
    decreases m
  {
    if m > 1 {
      MonthsStartThere(y, m - 1);
    }
  }

  /** The day number of a date by the Gregorian rules. */
  function Gregorian(y: nat, m: nat, d: nat): int {
    365 * (y - 1) + (y - 1) / 4 - (y - 1) / 100 + (y - 1) / 400 - 719162 + MonthStart(y, m) + d - 1
  }

  lemma DatesAreGregorian(d: Date)
    ensures d.Valid() <==>
              && 1 <= d.year <= 9999 && 1 <= d.month <= 12
              && 1 <= d.day <= MonthStart(d.year, d.month + 1) - MonthStart(d.year, d.month)
    ensures d.Valid() ==> DayNumber(d) == Gregorian(d.year, d.month, d.day)
  {
    hide DaysInMonth, MonthStart;
    if 1 <= d.month <= 12 {
      MonthsStartThere(d.year, d.month);
      MonthsStartThere(d.year, d.month + 1);
    }
  }

  /** Every day before the year 10000 has a valid date with that day number, by the Gregorian rules. */
  lemma DateOfDay(days: nat)
    requires days * 86400 < END_OF_TIME
    ensures var d := DateOf(days);
            && d.Valid() && d.year >= 1970 && DayNumber(d) == days
            && Gregorian(d.year, d.month, d.day) == days
            && 1 <= d.month <= 12 && 1 <= d.day <= MonthStart(d.year, d.month + 1) - MonthStart(d.year, d.month)
  {
    hide DaysInMonth, YearFrom, MonthFrom, MonthStart, Gregorian;
    assert DaysBeforeMonth(1970, 1) == 0;
    YearFromIsRight(1970, days);
    var (y, n) := YearFrom(1970, days);
    MonthFromIsRight(y, 1, n);
    if y > 9999 {
      LaterYearsStartLater(10000, y);
    }
    DatesAreGregorian(DateOf(days));
  }

  // ---- Printing and reading --------------------------------------------------------------

  function Print(d: Date, hour: nat, minute: nat, second: nat): string {
    Padded(d.year, 4) + "-" + Padded(d.month, 2) + "-" + Padded(d.day, 2) + "T"
    + Padded(hour, 2) + ":" + Padded(minute, 2) + ":" + Padded(second, 2) + "Z"
  }

  /** `strftime` of the UTC second `epoch`. */
  function Emit(epoch: nat): string {
    var s := epoch % 86400;
    Print(DateOf(epoch / 86400), s / 3600, s % 3600 / 60, s % 60)
  }

  /** `strptime` compares letters without regard to case. */
  predicate SameSeparator(c: char, sep: char) {
    c == sep || (sep == 'T' && c == 't') || (sep == 'Z' && c == 'z')
  }

  /** One or two digits within range and the separator after them; `spaced` also admits a space in
      place of a leading zero. The value and what follows. */
  function Field(text: string, lo: nat, hi: nat, sep: char, spaced: bool): Option<(nat, string)> {
    if |text| >= 3 && IsDigit(text[0]) && IsDigit(text[1]) && SameSeparator(text[2], sep)
       && lo <= 10 * DigitValue(text[0]) + DigitValue(text[1]) <= hi then
      Some((10 * DigitValue(text[0]) + DigitValue(text[1]), text[3..]))
    else if |text| >= 2 && IsDigit(text[0]) && SameSeparator(text[1], sep) && lo <= DigitValue(text[0]) <= hi then
      Some((DigitValue(text[0]), text[2..]))
    else if spaced && |text| >= 3 && text[0] == ' ' && IsDigit(text[1]) && SameSeparator(text[2], sep)
            && lo <= DigitValue(text[1]) <= hi then
      Some((DigitValue(text[1]), text[3..]))
    else None
  }

  /** The second of the epoch a text stands for, None where `strptime` raises. */
  function Parse(text: string): Option<int> {
    if |text| < 5 || !AllDigits(text[..4]) || text[4] != '-' then None
    else
      var year := Value(text[..4]);
      match Field(text[5..], 1, 12, '-', false)
      case None => None
      case Some((month, t1)) =>
        match Field(t1, 1, 31, 'T', true)
        case None => None
        case Some((day, t2)) =>
          var d := Date(year, month, day);
          match ParseTime(t2)
          case None => None
          case Some(s) => if d.Valid() then Some(DayNumber(d) * 86400 + s) else None
  }

  /** Hours, minutes and seconds to the end of the text, as seconds of the day. */
  function ParseTime(text: string): Option<nat> {
    match Field(text, 0, 23, ':', false)
    case None => None
    case Some((hour, t1)) =>
      match Field(t1, 0, 59, ':', false)
      case None => None
      case Some((minute, t2)) =>
        match Field(t2, 0, 59, 'Z', false)
        case None => None
        case Some((second, t3)) => if t3 == "" then Some(hour * 3600 + minute * 60 + second) else None
  }

  lemma TwoDigits(n: nat)
    requires n < 100
    ensures Padded(n, 2) == [DigitChar(n / 10), DigitChar(n % 10)]
  {
    assert Padded(n / 10, 1) == Padded(n / 10 / 10, 0) + [DigitChar(n / 10 % 10)];
  }

  lemma FieldReadsPadded(n: nat, lo: nat, hi: nat, sep: char, spaced: bool, rest: string)
    requires lo <= n <= hi < 100
    ensures Field(Padded(n, 2) + [sep] + rest, lo, hi, sep, spaced) == Some((n, rest))
  {
    TwoDigits(n);
    var text := Padded(n, 2) + [sep] + rest;
    assert text[0] == DigitChar(n / 10) && text[1] == DigitChar(n % 10) && text[2] == sep;
    assert DigitValue(text[0]) == n / 10 && DigitValue(text[1]) == n % 10;
    assert text[3..] == rest;
  }

  lemma YearReadsBack(y: nat)
    requires y <= 9999
    ensures Value(Padded(y, 4)) == y
  {
    var a, b, c := y / 10, y / 10 / 10, y / 10 / 10 / 10;
    assert Padded(c, 1) == Padded(c / 10, 0) + [DigitChar(c % 10)];
    ValueOfNext(Padded(c, 1), y / 100 % 10);
    ValueOfNext(Padded(b, 2), a % 10);
    ValueOfNext(Padded(a, 3), y % 10);
    assert Value(Padded(c, 1)) == c by { assert Padded(c, 1)[..0] == ""; }
  }

  lemma ValueOfNext(s: string, d: nat)
    requires AllDigits(s) && d < 10
    ensures Value(s + [DigitChar(d)]) == 10 * Value(s) + d
  {
    assert (s + [DigitChar(d)])[..|s|] == s;
  }

  lemma ParseTimeReadsBack(hour: nat, minute: nat, second: nat)
    requires hour < 24 && minute < 60 && second < 60
    ensures ParseTime(Padded(hour, 2) + ":" + (Padded(minute, 2) + ":" + (Padded(second, 2) + "Z")))
         == Some(hour * 3600 + minute * 60 + second)
  {
    hide Field, Padded;
    var t2 := Padded(second, 2) + "Z";
    var t1 := Padded(minute, 2) + ":" + t2;
    FieldReadsPadded(hour, 0, 23, ':', false, t1);
    FieldReadsPadded(minute, 0, 59, ':', false, t2);
    FieldReadsPadded(second, 0, 59, 'Z', false, "");
    assert t2 == Padded(second, 2) + "Z" + "";
  }

  /** Reading back what was printed for a valid date and time. */
  lemma ParseInvertsPrint(d: Date, hour: nat, minute: nat, second: nat)
    requires d.Valid() && hour < 24 && minute < 60 && second < 60
    ensures Parse(Print(d, hour, minute, second))
         == Some(DayNumber(d) * 86400 + hour * 3600 + minute * 60 + second)
  {
    hide Field, ParseTime, DayNumber, Padded;
    var time := Padded(hour, 2) + ":" + (Padded(minute, 2) + ":" + (Padded(second, 2) + "Z"));
    var day := Padded(d.day, 2) + "T" + time;
    var month := Padded(d.month, 2) + "-" + day;
    var text := Padded(d.year, 4) + "-" + month;
    assert Print(d, hour, minute, second) == text;
    assert text[..4] == Padded(d.year, 4) && text[4] == '-' && text[5..] == month;
    YearReadsBack(d.year);
    FieldReadsPadded(d.month, 1, 12, '-', false, day);
    FieldReadsPadded(d.day, 1, 31, 'T', true, time);
    ParseTimeReadsBack(hour, minute, second);
  }

  /** Every second from 1970 to the end of 9999 reads back as itself, leap years included. */
  lemma ParseInvertsEmit(epoch: nat)
    requires epoch < END_OF_TIME
    ensures Parse(Emit(epoch)) == Some(epoch)
  {
    hide Parse, Print;
    var s := epoch % 86400;
    DateOfDay(epoch / 86400);
    ParseInvertsPrint(DateOf(epoch / 86400), s / 3600, s % 3600 / 60, s % 60);
    assert s == s / 3600 * 3600 + s % 3600 / 60 * 60 + s % 60;
  }

  // ---- Exactly what is read --------------------------------------------------------------

  /** The ways a number below 100 may be written in a field. */
  predicate Spells(w: string, n: nat, spaced: bool) {
    n < 100 && (w == Padded(n, 2) || (n < 10 && (w == [DigitChar(n)] || (spaced && w == [' ', DigitChar(n)]))))
  }

  lemma FieldReads(w: string, c: char, rest: string, n: nat, lo: nat, hi: nat, sep: char, spaced: bool)
    requires Spells(w, n, spaced) && lo <= n <= hi && SameSeparator(c, sep) && !IsDigit(c)
    ensures Field(w + [c] + rest, lo, hi, sep, spaced) == Some((n, rest))
  {
    TwoDigits(n);
    var text := w + [c] + rest;
    if w == Padded(n, 2) {
      assert text[0] == DigitChar(n / 10) && text[1] == DigitChar(n % 10) && text[2] == c && text[3..] == rest;
    } else if w == [DigitChar(n)] {
      assert text[0] == DigitChar(n) && text[1] == c && text[2..] == rest;
    } else {
      assert text[0] == ' ' && text[1] == DigitChar(n) && text[2] == c && text[3..] == rest;
    }
  }

  lemma FieldReadsOnly(text: string, lo: nat, hi: nat, sep: char, spaced: bool) returns (w: string, c: char)
    requires Field(text, lo, hi, sep, spaced).Some? && hi < 100
    ensures var (n, rest) := Field(text, lo, hi, sep, spaced).value;
            Spells(w, n, spaced) && lo <= n <= hi && SameSeparator(c, sep) && text == w + [c] + rest
  {
    var (n, rest) := Field(text, lo, hi, sep, spaced).value;
    TwoDigits(n);
    var k := |text| - |rest| - 1;
    w, c := text[..k], text[k];
    assert text == w + [c] + rest;
  }

  /** A timestamp text with the fields spelled as given. */
  function Spelling(y: string, mo: string, d: string, t: char, h: string, mi: string, s: string, z: char): string {
    y + "-" + (mo + "-" + (d + [t] + (h + ":" + (mi + ":" + (s + [z])))))
  }

  /** The spelling of one second: four digits of the year, the rest in one or two digits, the day
      perhaps after a space, the letters in either case. */
  ghost predicate Timestamp(text: string, date: Date, hour: nat, minute: nat, second: nat) {
    exists mo, d, t, h, mi, s, z ::
      && SpelledSo(text, date, hour, minute, second, mo, d, t, h, mi, s, z)
  }

  predicate SpelledSo(
    text: string, date: Date, hour: nat, minute: nat, second: nat,
    mo: string, d: string, t: char, h: string, mi: string, s: string, z: char)
  {
    && date.Valid() && hour < 24 && minute < 60 && second < 60
    && Spells(mo, date.month, false) && Spells(d, date.day, true)
    && Spells(h, hour, false) && Spells(mi, minute, false) && Spells(s, second, false)
    && (t == 'T' || t == 't') && (z == 'Z' || z == 'z')
    && text == Spelling(Padded(date.year, 4), mo, d, t, h, mi, s, z)
  }

  lemma ReadsTime(hour: nat, minute: nat, second: nat, h: string, mi: string, s: string, z: char)
    requires hour < 24 && minute < 60 && second < 60
    requires Spells(h, hour, false) && Spells(mi, minute, false) && Spells(s, second, false) && (z == 'Z' || z == 'z')
    ensures ParseTime(h + ":" + (mi + ":" + (s + [z]))) == Some(hour * 3600 + minute * 60 + second)
  {
    hide Field, Spells;
    FieldReads(h, ':', mi + ":" + (s + [z]), hour, 0, 23, ':', false);
    FieldReads(mi, ':', s + [z], minute, 0, 59, ':', false);
    FieldReads(s, z, "", second, 0, 59, 'Z', false);
    assert s + [z] + "" == s + [z];
  }

  lemma ReadsSpelling(
    text: string, date: Date, hour: nat, minute: nat, second: nat,
    mo: string, d: string, t: char, h: string, mi: string, s: string, z: char)
    requires SpelledSo(text, date, hour, minute, second, mo, d, t, h, mi, s, z)
    ensures Parse(text) == Some(DayNumber(date) * 86400 + hour * 3600 + minute * 60 + second)
  {
    hide Field, ParseTime, DayNumber, Padded, Spells;
    var time := h + ":" + (mi + ":" + (s + [z]));
    var tail := d + [t] + time;
    var rest := mo + "-" + tail;
    assert text[..4] == Padded(date.year, 4) && text[4] == '-' && text[5..] == rest;
    YearReadsBack(date.year);
    FieldReads(mo, '-', tail, date.month, 1, 12, '-', false);
    FieldReads(d, t, time, date.day, 1, 31, 'T', true);
    ReadsTime(hour, minute, second, h, mi, s, z);
  }

  lemma ReadsOnlyTime(text: string) returns (hour: nat, minute: nat, second: nat, h: string, mi: string, s: string, z: char)
    requires ParseTime(text).Some?
    ensures hour < 24 && minute < 60 && second < 60
    ensures Spells(h, hour, false) && Spells(mi, minute, false) && Spells(s, second, false) && (z == 'Z' || z == 'z')
    ensures text == h + ":" + (mi + ":" + (s + [z]))
    ensures ParseTime(text) == Some(hour * 3600 + minute * 60 + second)
  {
    hide Field, Spells;
    var c1, c2;
    var f1 := Field(text, 0, 23, ':', false).value;
    var f2 := Field(f1.1, 0, 59, ':', false).value;
    var f3 := Field(f2.1, 0, 59, 'Z', false).value;
    h, c1 := FieldReadsOnly(text, 0, 23, ':', false);
    mi, c2 := FieldReadsOnly(f1.1, 0, 59, ':', false);
    s, z := FieldReadsOnly(f2.1, 0, 59, 'Z', false);
    hour, minute, second := f1.0, f2.0, f3.0;
    assert s + [z] + "" == s + [z];
  }

  /** The four digits of a year are its only spelling. */
  lemma YearSpelling(y: string)
    requires |y| == 4 && AllDigits(y)
    ensures Value(y) <= 9999 && Padded(Value(y), 4) == y
  {
    PaddedValue(y);
    NextDigit(y, 3);
    NextDigit(y, 2);
    NextDigit(y, 1);
    NextDigit(y, 0);
    assert y[..4] == y && y[..0] == "";
  }

  lemma NextDigit(s: string, n: nat)
    requires n < |s| && AllDigits(s)
    ensures Value(s[..n + 1]) == 10 * Value(s[..n]) + DigitValue(s[n])
  {
    assert s[..n + 1][..n] == s[..n];
  }

  lemma {:induction false} PaddedValue(s: string)
    requires AllDigits(s)
    ensures Padded(Value(s), |s|) == s
    decreases |s|
  {
    if s != "" {
      var n := |s| - 1;
      PaddedValue(s[..n]);
      LastDigit(Value(s[..n]), DigitValue(s[n]));
      assert s == s[..n] + [s[n]];
    }
  }

  lemma LastDigit(v: nat, d: nat)
    requires d < 10
    ensures (10 * v + d) / 10 == v && (10 * v + d) % 10 == d
  {
  }

  /** What `strptime` accepts and what it makes of it: a text parses to a second exactly when it is a
      spelling of a valid date and time, and then to that one. */
  lemma ParseExactly(text: string, value: int)
    ensures Parse(text) == Some(value) <==>
              exists date: Date, hour: nat, minute: nat, second: nat ::
                && Timestamp(text, date, hour, minute, second)
                && value == Gregorian(date.year, date.month, date.day) * 86400 + hour * 3600 + minute * 60 + second
  {
    hide Gregorian, Parse, Timestamp;
    if Parse(text) == Some(value) {
      var date, hour, minute, second := ReadsOnlyTimestamps(text);
    }
    forall date: Date, hour: nat, minute: nat, second: nat | Timestamp(text, date, hour, minute, second)
      ensures Parse(text) == Some(Gregorian(date.year, date.month, date.day) * 86400 + hour * 3600 + minute * 60 + second)
    {
      ReadsTimestamp(text, date, hour, minute, second);
    }
  }

  lemma ReadsTimestamp(text: string, date: Date, hour: nat, minute: nat, second: nat)
    requires Timestamp(text, date, hour, minute, second)
    ensures Parse(text) == Some(Gregorian(date.year, date.month, date.day) * 86400 + hour * 3600 + minute * 60 + second)
  {
    hide Parse, Gregorian, DayNumber;
    var mo, d, t, h, mi, s, z :| SpelledSo(text, date, hour, minute, second, mo, d, t, h, mi, s, z);
    ReadsSpelling(text, date, hour, minute, second, mo, d, t, h, mi, s, z);
    DatesAreGregorian(date);
  }

  lemma ReadsOnlyTimestamps(text: string) returns (date: Date, hour: nat, minute: nat, second: nat)
    requires Parse(text).Some?
    ensures Timestamp(text, date, hour, minute, second)
    ensures Parse(text).value == Gregorian(date.year, date.month, date.day) * 86400 + hour * 3600 + minute * 60 + second
  {
    hide Field, ParseTime, DayNumber, Padded, Spells, Gregorian;
    var f1 := Field(text[5..], 1, 12, '-', false).value;
    var f2 := Field(f1.1, 1, 31, 'T', true).value;
    var mo, c := FieldReadsOnly(text[5..], 1, 12, '-', false);
    var d, t := FieldReadsOnly(f1.1, 1, 31, 'T', true);
    var h, mi, s, z;
    hour, minute, second, h, mi, s, z := ReadsOnlyTime(f2.1);
    YearSpelling(text[..4]);
    date := Date(Value(text[..4]), f1.0, f2.0);
    DatesAreGregorian(date);
    assert text == text[..4] + "-" + text[5..];
    assert SpelledSo(text, date, hour, minute, second, mo, d, t, h, mi, s, z);
  }
}
