/**
 The timestamps of the `created_at` columns: `datetime.isoformat()` of a UTC datetime, compared by SQLite
 as text.  The text has no fraction when the microseconds are zero, so two stamps can have different
 lengths; that their order is still the order of the instants is proved here.
 */
module IsoTime {
  import opened Results

  // ---------------------------------------------------------------- dates and instants

  datatype DateTime = DateTime(
    year: nat, month: nat, day: nat, hour: nat, minute: nat, second: nat, microsecond: nat)

  predicate IsLeap(year: nat) {
    year % 4 == 0 && (year % 100 != 0 || year % 400 == 0)
  }

  function DaysInMonth(year: nat, month: nat): (days: nat)
    ensures 28 <= days <= 31
  {
    if month == 2 then (if IsLeap(year) then 29 else 28)
    else if month in {4, 6, 9, 11} then 30
    else 31
  }

  /** What the constructor of `datetime` accepts. */
  predicate Valid(d: DateTime) {
    && 1 <= d.year <= 9999 && 1 <= d.month <= 12 && 1 <= d.day <= DaysInMonth(d.year, d.month)
    && d.hour < 24 && d.minute < 60 && d.second < 60 && d.microsecond < 1_000_000
  }

  function DaysBeforeYear(year: nat): int {
    var y := year - 1;
    y * 365 + y / 4 - y / 100 + y / 400
  }

  function DaysBeforeMonth(year: nat, month: nat): nat {
    if month <= 1 then 0 else DaysBeforeMonth(year, month - 1) + DaysInMonth(year, month - 1)
  }

  /** The day's number in the proleptic Gregorian calendar; the first of January of year 1 is day 1. */
  function Ordinal(d: DateTime): int {
    DaysBeforeYear(d.year) + DaysBeforeMonth(d.year, d.month) + d.day
  }

  function SecondOfDay(d: DateTime): nat {
    (d.hour * 60 + d.minute) * 60 + d.second
  }

  /** Microseconds on one time line. */
  function Instant(d: DateTime): int {
    (Ordinal(d) * 86_400 + SecondOfDay(d)) * 1_000_000 + d.microsecond
  }

  lemma MonthsOfAYear(year: nat)
    ensures DaysBeforeMonth(year, 13) == if IsLeap(year) then 366 else 365
  {
    var february := DaysInMonth(year, 2);
    assert DaysBeforeMonth(year, 3) == DaysBeforeMonth(year, 2) + february == 31 + february;
    assert DaysBeforeMonth(year, 5) == DaysBeforeMonth(year, 4) + 30 == 92 + february;
    assert DaysBeforeMonth(year, 7) == DaysBeforeMonth(year, 6) + 30 == 153 + february;
    assert DaysBeforeMonth(year, 9) == DaysBeforeMonth(year, 8) + 31 == 215 + february;
    assert DaysBeforeMonth(year, 11) == DaysBeforeMonth(year, 10) + 31 == 276 + february;
    assert DaysBeforeMonth(year, 13) == DaysBeforeMonth(year, 12) + 31 == 337 + february;
  }

  /** Before a month: 31 days before February, and from March on the rhythm of 153 days in five months. */
  lemma DaysBeforeMonthClosed(year: nat, month: nat)
    requires 1 <= month <= 12
    ensures month == 1 ==> DaysBeforeMonth(year, month) == 0
    ensures month == 2 ==> DaysBeforeMonth(year, month) == 31
    ensures month >= 3 ==>
      DaysBeforeMonth(year, month) == 59 + (if IsLeap(year) then 1 else 0) + (153 * (month - 3) + 2) / 5
  {
    if month > 1 {
      DaysBeforeMonthClosed(year, month - 1);
      assert DaysBeforeMonth(year, month) == DaysBeforeMonth(year, month - 1) + DaysInMonth(year, month - 1);
    }
  }

  /** The day number of the proleptic Gregorian calendar, counted from March on, without a table of months. */
  function RataDie(year: nat, month: nat, day: nat): int
    requires year >= 1
  {
    var y := if month < 3 then year - 1 else year;
    var m := if month < 3 then month + 12 else month;
    365 * y + y / 4 - y / 100 + y / 400 + (153 * m - 457) / 5 + day - 306
  }

  /** Microseconds since the day before the first of January of year 1. */
  function Microseconds(d: DateTime): int
    requires d.year >= 1
  {
    ((((RataDie(d.year, d.month, d.day) * 24 + d.hour) * 60) + d.minute) * 60 + d.second) * 1_000_000 + d.microsecond
  }

  lemma LeapDay(year: nat)
    requires year >= 1
    ensures year / 4 - year / 100 + year / 400
         == (year - 1) / 4 - (year - 1) / 100 + (year - 1) / 400 + if IsLeap(year) then 1 else 0
  {
    QuotientStep(year - 1, 4);
    QuotientStep(year - 1, 100);
    QuotientStep(year - 1, 400);
    LeapCount(year);
  }

  /** The model's count of days is that of the Gregorian calendar. */
  lemma OrdinalIsRataDie(d: DateTime)
    requires Valid(d)
    ensures Ordinal(d) == RataDie(d.year, d.month, d.day)
    ensures Instant(d) == Microseconds(d)
  {
    DaysBeforeMonthClosed(d.year, d.month);
    if d.month >= 3 {
      LeapDay(d.year);
      assert (153 * d.month - 457) / 5 == (153 * (d.month - 3) + 2) / 5;
    }
  }

  /** Days everyone can look up: the first and the last, the Unix epoch, a leap day, and October to November. */
  lemma KnownDays()
    ensures RataDie(1, 1, 1) == 1 && RataDie(9999, 12, 31) == 3_652_059
    ensures RataDie(1970, 1, 1) == 719_163 && RataDie(2000, 2, 29) == 730_179
    ensures RataDie(2026, 11, 10) - RataDie(2026, 10, 11) == 30
  {
  }

  lemma YearLength(year: nat)
    requires year >= 1
    ensures DaysBeforeYear(year + 1) == DaysBeforeYear(year) + DaysBeforeMonth(year, 13)
  {
    MonthsOfAYear(year);
    QuotientStep(year - 1, 4);
    QuotientStep(year - 1, 100);
    QuotientStep(year - 1, 400);
    LeapCount(year);
  }

  lemma QuotientStep(y: nat, k: nat)
    requires k in {4, 100, 400}
    ensures (y + 1) / k == y / k + if (y + 1) % k == 0 then 1 else 0
  {
  }

  lemma MultipleOf(y: nat, k: nat, m: nat)
    requires k in {4, 100} && y == k * m
    ensures y % k == 0
  {
  }

  /** Every year divisible by 400 is divisible by 100, and every one of those by 4. */
  lemma LeapCount(year: nat)
    ensures (if IsLeap(year) then 1 else 0) ==
            (if year % 4 == 0 then 1 else 0) - (if year % 100 == 0 then 1 else 0) + (if year % 400 == 0 then 1 else 0)
  {
    if year % 400 == 0 {
      MultipleOf(year, 100, 4 * (year / 400));
    }
    if year % 100 == 0 {
      MultipleOf(year, 4, 25 * (year / 100));
    }
  }

  lemma {:induction false} LaterYear(a: nat, b: nat)
    requires 1 <= a < b
    ensures DaysBeforeYear(a) + DaysBeforeMonth(a, 13) <= DaysBeforeYear(b)
    decreases b
  {
    YearLength(b - 1);
    if a < b - 1 {
      LaterYear(a, b - 1);
    }
  }

  lemma {:induction false} LaterMonth(year: nat, m: nat, n: nat)
    requires 1 <= m < n
    ensures DaysBeforeMonth(year, m) + DaysInMonth(year, m) <= DaysBeforeMonth(year, n)
    decreases n
  {
    if m < n - 1 {
      LaterMonth(year, m, n - 1);
    }
  }

  predicate EarlierDay(a: DateTime, b: DateTime) {
    a.year < b.year || (a.year == b.year && (a.month < b.month || (a.month == b.month && a.day < b.day)))
  }

  lemma EarlierDayIsSmallerOrdinal(a: DateTime, b: DateTime)
    requires Valid(a) && Valid(b) && EarlierDay(a, b)
    ensures Ordinal(a) < Ordinal(b)
  {
    if a.year < b.year {
      LaterYear(a.year, b.year);
      LaterMonth(a.year, a.month, 13);
    } else if a.month < b.month {
      LaterMonth(a.year, a.month, b.month);
    }
  }

  // ---------------------------------------------------------------- text

  /** `<` on TEXT under the BINARY collation; the stamps are ASCII. */
  predicate Less(s: string, t: string) {
    |t| > 0 && (|s| == 0 || s[0] < t[0] || (s[0] == t[0] && Less(s[1..], t[1..])))
  }

  function Digit(n: nat): char
    requires n < 10
  {
    '0' + n as char
  }

  /** `n` in decimal, padded with zeros to a fixed width. */
  function Pad(n: nat, width: nat): (s: string)
    ensures |s| == width
  {
    if width == 0 then "" else Pad(n / 10, width - 1) + [Digit(n % 10)]
  }

  const OFFSET := "+00:00"

  function Fraction(microsecond: nat): string {
    if microsecond == 0 then "" else "." + Pad(microsecond, 6)
  }

  /** `isoformat()` of a UTC datetime. */
  function Iso(d: DateTime): string {
    Pad(d.year, 4) + ("-" + (Pad(d.month, 2) + ("-" + (Pad(d.day, 2) + ("T" + Clock(d))))))
  }

  function Clock(d: DateTime): string {
    Pad(d.hour, 2) + (":" + (Pad(d.minute, 2) + (":" + (Pad(d.second, 2) + (Fraction(d.microsecond) + OFFSET)))))
  }

  /** The number that a text of decimal digits stands for. */
  function Decimal(s: string): int {
    if |s| == 0 then 0 else 10 * Decimal(s[..|s| - 1]) + (s[|s| - 1] as int - '0' as int)
  }

  /** A padded number is written in decimal digits, and stands for itself. */
  lemma {:induction false} PadIsDecimal(n: nat, width: nat)
    requires n < Power10(width)
    ensures Decimal(Pad(n, width)) == n
    ensures forall i | 0 <= i < width :: '0' <= Pad(n, width)[i] <= '9'
  {
    if width > 0 {
      PadIsDecimal(n / 10, width - 1);
      assert Pad(n, width)[..width - 1] == Pad(n / 10, width - 1);
    }
  }

  /** A number of that many digits followed by the separator, and what comes after. */
  function ReadField(s: string, width: nat, separator: string): Option<(int, string)> {
    var n := width + |separator|;
    if |s| >= n && s[width..n] == separator && forall i | 0 <= i < width :: '0' <= s[i] <= '9'
    then Some((Decimal(s[..width]), s[n..])) else None
  }

  /** The microseconds, if the stamp has any, and the offset of UTC. */
  function ReadFraction(s: string): Option<int> {
    if s == "+00:00" then Some(0)
    else if |s| > 0 && s[0] == '.' then
      var field := ReadField(s[1..], 6, "+00:00");
      if field.Some? && field.value.1 == "" then Some(field.value.0) else None
    else None
  }

  /** A reader of ISO 8601 stamps: YYYY-MM-DDTHH:MM:SS, six digits after a point if there are any, +00:00. */
  function ReadStamp(s: string): Option<(int, int, int, int, int, int, int)> {
    var year := ReadField(s, 4, "-");
    if year.None? then None else
    var month := ReadField(year.value.1, 2, "-");
    if month.None? then None else
    var day := ReadField(month.value.1, 2, "T");
    if day.None? then None else
    var hour := ReadField(day.value.1, 2, ":");
    if hour.None? then None else
    var minute := ReadField(hour.value.1, 2, ":");
    if minute.None? then None else
    var second := ReadField(minute.value.1, 2, "");
    if second.None? then None else
    var microsecond := ReadFraction(second.value.1);
    if microsecond.None? then None else
    Some((year.value.0, month.value.0, day.value.0, hour.value.0, minute.value.0, second.value.0, microsecond.value))
  }

  lemma ReadPad(n: nat, width: nat, separator: string, rest: string)
    requires n < Power10(width)
    ensures ReadField(Pad(n, width) + (separator + rest), width, separator) == Some((n, rest))
  {
    PadIsDecimal(n, width);
    var s := Pad(n, width) + (separator + rest);
    assert s[..width] == Pad(n, width);
    assert s[width..width + |separator|] == separator && s[width + |separator|..] == rest;
  }

  lemma ReadOwnFraction(microsecond: nat)
    requires microsecond < 1_000_000
    ensures ReadFraction(Fraction(microsecond) + OFFSET) == Some(microsecond)
  {
    var s := Fraction(microsecond) + OFFSET;
    if microsecond > 0 {
      assert Power10(3) == 1000 && Power10(6) == 1_000_000;
      ReadPad(microsecond, 6, OFFSET, "");
      assert s[0] == '.' && s[1..] == Pad(microsecond, 6) + (OFFSET + "");
    }
  }

  lemma ReadOwnClock(d: DateTime)
    requires Valid(d)
    ensures var s2 := Pad(d.second, 2) + (Fraction(d.microsecond) + OFFSET);
            var s1 := Pad(d.minute, 2) + (":" + s2);
            && ReadField(Clock(d), 2, ":") == Some((d.hour, s1))
            && ReadField(s1, 2, ":") == Some((d.minute, s2))
            && ReadField(s2, 2, "") == Some((d.second, Fraction(d.microsecond) + OFFSET))
  {
    assert Power10(2) == 100;
    var s3 := Fraction(d.microsecond) + OFFSET;
    var s2 := Pad(d.second, 2) + s3;
    ReadPad(d.hour, 2, ":", Pad(d.minute, 2) + (":" + s2));
    ReadPad(d.minute, 2, ":", s2);
    ReadPad(d.second, 2, "", s3);
    assert "" + s3 == s3;
  }

  /** The stamp says the datetime, field by field. */
  lemma IsoReadsBack(d: DateTime)
    requires Valid(d)
    ensures ReadStamp(Iso(d)) == Some((d.year, d.month, d.day, d.hour, d.minute, d.second, d.microsecond))
  {
    assert Power10(2) == 100 && Power10(4) == 10_000;
    var s2 := Pad(d.day, 2) + ("T" + Clock(d));
    ReadPad(d.year, 4, "-", Pad(d.month, 2) + ("-" + s2));
    ReadPad(d.month, 2, "-", s2);
    ReadPad(d.day, 2, "T", Clock(d));
    ReadOwnClock(d);
    ReadOwnFraction(d.microsecond);
  }

  // ---------------------------------------------------------------- order of text

  lemma {:induction false} LessIsOrder(s: string, t: string)
    ensures Less(s, t) || Less(t, s) || s == t
    ensures !(Less(s, t) && Less(t, s)) && !Less(s, s)
  {
    if |s| > 0 {
      LessIsOrder(s[1..], s[1..]);
    }
    if |s| > 0 && |t| > 0 {
      LessIsOrder(s[1..], t[1..]);
      assert s == [s[0]] + s[1..] && t == [t[0]] + t[1..];
    }
  }

  lemma {:induction false} LessIsTransitive(s: string, t: string, u: string)
    requires Less(s, t) && Less(t, u)
    ensures Less(s, u)
  {
    if |s| > 0 && s[0] == t[0] == u[0] {
      LessIsTransitive(s[1..], t[1..], u[1..]);
    }
  }

  /** After equally long beginnings the ends decide only where the beginnings agree. */
  lemma {:induction false} LessConcat(p: string, q: string, s: string, t: string)
    requires |p| == |q|
    ensures Less(p + s, q + t) <==> Less(p, q) || (p == q && Less(s, t))
  {
    if |p| == 0 {
      assert p + s == s && q + t == t;
    } else {
      LessConcat(p[1..], q[1..], s, t);
      assert (p + s)[1..] == p[1..] + s && (q + t)[1..] == q[1..] + t;
      assert p == [p[0]] + p[1..] && q == [q[0]] + q[1..];
    }
  }

  function Power10(width: nat): nat {
    if width == 0 then 1 else 10 * Power10(width - 1)
  }

  /** Among numbers that fit, the padded texts are ordered as the numbers, and differ when they differ. */
  lemma {:induction false} PadOrder(m: nat, n: nat, width: nat)
    requires m < Power10(width) && n < Power10(width)
    ensures Less(Pad(m, width), Pad(n, width)) <==> m < n
    ensures Pad(m, width) == Pad(n, width) <==> m == n
  {
    if width > 0 {
      PadOrder(m / 10, n / 10, width - 1);
      var p, q := Pad(m / 10, width - 1), Pad(n / 10, width - 1);
      LessConcat(p, q, [Digit(m % 10)], [Digit(n % 10)]);
      LastDigit(p, q, m % 10, n % 10);
    }
  }

  lemma LastDigit(p: string, q: string, i: nat, j: nat)
    requires |p| == |q| && i < 10 && j < 10
    ensures Less([Digit(i)], [Digit(j)]) <==> i < j
    ensures p + [Digit(i)] == q + [Digit(j)] <==> p == q && i == j
  {
    assert [Digit(i)][1..] == "" && [Digit(j)][1..] == "" && !Less("", "");
    if p + [Digit(i)] == q + [Digit(j)] {
      assert p == (p + [Digit(i)])[..|p|] && q == (q + [Digit(j)])[..|p|];
      assert (p + [Digit(i)])[|p|] == (q + [Digit(j)])[|p|];
    }
  }

  /** One field of the stamp: it decides, or the rest does. */
  lemma Field(m: nat, n: nat, width: nat, separator: string, s: string, t: string)
    requires m < Power10(width) && n < Power10(width)
    ensures Less(Pad(m, width) + (separator + s), Pad(n, width) + (separator + t))
            <==> m < n || (m == n && Less(s, t))
  {
    PadOrder(m, n, width);
    LessConcat(Pad(m, width), Pad(n, width), separator + s, separator + t);
    LessConcat(separator, separator, s, t);
    LessIsOrder(separator, separator);
  }

  /** The last field has two lengths: without a fraction the text goes on with '+', which sorts below '.'. */
  lemma FractionOrder(m: nat, n: nat)
    requires m < 1_000_000 && n < 1_000_000
    ensures Less(Fraction(m) + OFFSET, Fraction(n) + OFFSET) <==> m < n
  {
    var s, t := Fraction(m) + OFFSET, Fraction(n) + OFFSET;
    LessIsOrder(s, t);
    if m > 0 && n > 0 {
      assert s == "." + (Pad(m, 6) + ("" + OFFSET)) && t == "." + (Pad(n, 6) + ("" + OFFSET));
      LessConcat(".", ".", Pad(m, 6) + ("" + OFFSET), Pad(n, 6) + ("" + OFFSET));
      LessIsOrder(".", ".");
      assert Power10(3) == 1000 && Power10(6) == 1_000_000;
      Field(m, n, 6, "", OFFSET, OFFSET);
      LessIsOrder(OFFSET, OFFSET);
    } else if m > 0 || n > 0 {
      assert m > 0 ==> s[0] == '.';
      assert n > 0 ==> t[0] == '.';
      assert m == 0 ==> s[0] == '+';
      assert n == 0 ==> t[0] == '+';
    }
  }

  predicate EarlierClock(a: DateTime, b: DateTime) {
    a.hour < b.hour || (a.hour == b.hour && (a.minute < b.minute || (a.minute == b.minute &&
      (a.second < b.second || (a.second == b.second && a.microsecond < b.microsecond)))))
  }

  function SecondOn(d: DateTime): string {
    Pad(d.second, 2) + (Fraction(d.microsecond) + OFFSET)
  }

  lemma SecondOrder(a: DateTime, b: DateTime)
    requires Valid(a) && Valid(b)
    ensures Less(SecondOn(a), SecondOn(b))
       <==> a.second < b.second || (a.second == b.second && a.microsecond < b.microsecond)
  {
    assert Power10(2) == 100;
    var s, t := Fraction(a.microsecond) + OFFSET, Fraction(b.microsecond) + OFFSET;
    FractionOrder(a.microsecond, b.microsecond);
    assert "" + s == s && "" + t == t;
    Field(a.second, b.second, 2, "", s, t);
  }

  lemma ClockOrder(a: DateTime, b: DateTime)
    requires Valid(a) && Valid(b)
    ensures Less(Clock(a), Clock(b)) <==> EarlierClock(a, b)
  {
    assert Power10(2) == 100;
    SecondOrder(a, b);
    Field(a.minute, b.minute, 2, ":", SecondOn(a), SecondOn(b));
    Field(a.hour, b.hour, 2, ":", Pad(a.minute, 2) + (":" + SecondOn(a)), Pad(b.minute, 2) + (":" + SecondOn(b)));
  }

  predicate SameDay(a: DateTime, b: DateTime) {
    a.year == b.year && a.month == b.month && a.day == b.day
  }

  lemma IsoFieldOrder(a: DateTime, b: DateTime)
    requires Valid(a) && Valid(b)
    ensures Less(Iso(a), Iso(b)) <==> EarlierDay(a, b) || (SameDay(a, b) && EarlierClock(a, b))
  {
    assert Power10(2) == 100 && Power10(4) == 10_000;
    ClockOrder(a, b);
    var s, t := Pad(a.day, 2) + ("T" + Clock(a)), Pad(b.day, 2) + ("T" + Clock(b));
    Field(a.day, b.day, 2, "T", Clock(a), Clock(b));
    Field(a.month, b.month, 2, "-", s, t);
    Field(a.year, b.year, 4, "-", Pad(a.month, 2) + ("-" + s), Pad(b.month, 2) + ("-" + t));
  }

  lemma InstantFieldOrder(a: DateTime, b: DateTime)
    requires Valid(a) && Valid(b)
    ensures Instant(a) < Instant(b) <==> EarlierDay(a, b) || (SameDay(a, b) && EarlierClock(a, b))
  {
    assert EarlierDay(a, b) || EarlierDay(b, a) || SameDay(a, b);
    if EarlierDay(a, b) {
      EarlierDayIsSmallerOrdinal(a, b);
    } else if EarlierDay(b, a) {
      EarlierDayIsSmallerOrdinal(b, a);
    }
    assert SecondOfDay(a) < 86_400 && SecondOfDay(b) < 86_400;
  }

  /** The order of the texts is the order of the instants, fraction or not. */
  lemma TextOrderIsTimeOrder(a: DateTime, b: DateTime)
    requires Valid(a) && Valid(b)
    ensures Less(Iso(a), Iso(b)) <==> Microseconds(a) < Microseconds(b)
  {
    OrdinalIsRataDie(a);
    OrdinalIsRataDie(b);
    IsoFieldOrder(a, b);
    InstantFieldOrder(a, b);
  }

  /** Different datetimes have different texts and different instants. */
  lemma IsoIsInjective(a: DateTime, b: DateTime)
    requires Valid(a) && Valid(b)
    ensures Iso(a) == Iso(b) <==> a == b
    ensures Microseconds(a) == Microseconds(b) <==> a == b
  {
    OrdinalIsRataDie(a);
    OrdinalIsRataDie(b);
    IsoFieldOrder(a, b);
    IsoFieldOrder(b, a);
    InstantFieldOrder(a, b);
    InstantFieldOrder(b, a);
    LessIsOrder(Iso(a), Iso(a));
  }

  // ---------------------------------------------------------------- going back some days

  /** The same time on the day before; None before the first of January of year 1, where `datetime` raises
      OverflowError. */
  function DayBefore(d: DateTime): Option<DateTime>
    requires Valid(d)
  {
    if d.day > 1 then Some(d.(day := d.day - 1))
    else if d.month > 1 then Some(d.(month := d.month - 1, day := DaysInMonth(d.year, d.month - 1)))
    else if d.year > 1 then Some(d.(year := d.year - 1, month := 12, day := 31))
    else None
  }

  /** The same time on the day after; None past the end of year 9999. */
  function DayAfter(d: DateTime): Option<DateTime>
    requires Valid(d)
  {
    if d.day < DaysInMonth(d.year, d.month) then Some(d.(day := d.day + 1))
    else if d.month < 12 then Some(d.(month := d.month + 1, day := 1))
    else if d.year < 9999 then Some(d.(year := d.year + 1, month := 1, day := 1))
    else None
  }

  lemma DayAfterUndoesDayBefore(d: DateTime)
    requires Valid(d)
    ensures DayBefore(d).Some? ==> Valid(DayBefore(d).value) && DayAfter(DayBefore(d).value) == Some(d)
    ensures DayAfter(d).Some? ==> Valid(DayAfter(d).value) && DayBefore(DayAfter(d).value) == Some(d)
  {
  }

  /** `d - timedelta(days=days)`; a negative number of days goes forward. */
  function MinusDays(d: DateTime, days: int): (r: Option<DateTime>)
    requires Valid(d)
    decreases if days < 0 then -days else days
  {
    if days == 0 then Some(d)
    else
      var next := if days > 0 then DayBefore(d) else DayAfter(d);
      if next.None? then None else MinusDays(next.value, if days > 0 then days - 1 else days + 1)
  }

  const LAST_ORDINAL: int := 3_652_059

  predicate SameTime(a: DateTime, b: DateTime) {
    a.hour == b.hour && a.minute == b.minute && a.second == b.second && a.microsecond == b.microsecond
  }

  lemma DayBeforeIsOneDayLess(d: DateTime)
    requires Valid(d) && DayBefore(d).Some?
    ensures Ordinal(DayBefore(d).value) == Ordinal(d) - 1
  {
    if d.day == 1 && d.month == 1 {
      YearLength(d.year - 1);
      assert DaysBeforeMonth(d.year - 1, 13) == DaysBeforeMonth(d.year - 1, 12) + 31;
    }
  }

  lemma DayAfterIsOneDayMore(d: DateTime)
    requires Valid(d) && DayAfter(d).Some?
    ensures Ordinal(DayAfter(d).value) == Ordinal(d) + 1
  {
    DayAfterUndoesDayBefore(d);
    DayBeforeIsOneDayLess(DayAfter(d).value);
  }

  /** The calendar has the days 1 to 3,652,059, and only the two ends have no neighbour. */
  lemma OrdinalRange(d: DateTime)
    requires Valid(d)
    ensures 1 <= Ordinal(d) <= LAST_ORDINAL
    ensures Ordinal(d) == 1 <==> DayBefore(d).None?
    ensures Ordinal(d) == LAST_ORDINAL <==> DayAfter(d).None?
  {
    var first, last := d.(year := 1, month := 1, day := 1), d.(year := 9999, month := 12, day := 31);
    MonthsOfAYear(9999);
    assert DaysBeforeMonth(9999, 13) == DaysBeforeMonth(9999, 12) + 31;
    assert SameDay(first, d) || EarlierDay(first, d);
    assert SameDay(d, last) || EarlierDay(d, last);
    if EarlierDay(first, d) {
      EarlierDayIsSmallerOrdinal(first, d);
    }
    if EarlierDay(d, last) {
      EarlierDayIsSmallerOrdinal(d, last);
    }
  }

  /** Going back goes back exactly that many days of the Gregorian calendar, and fails exactly when it has no such
      day between the years 1 and 9999. */
  lemma MinusDaysIsThatLongAgo(d: DateTime, days: int)
    requires Valid(d)
    ensures MinusDays(d, days).Some? <==> 1 <= RataDie(d.year, d.month, d.day) - days <= 3_652_059
    ensures MinusDays(d, days).Some? ==>
              var e := MinusDays(d, days).value;
              && Valid(e) && Microseconds(e) == Microseconds(d) - days * 86_400_000_000
              && RataDie(e.year, e.month, e.day) == RataDie(d.year, d.month, d.day) - days
  {
    MinusDaysGoesBack(d, days);
    OrdinalIsRataDie(d);
    if MinusDays(d, days).Some? {
      OrdinalIsRataDie(MinusDays(d, days).value);
    }
  }

  lemma {:induction false} MinusDaysGoesBack(d: DateTime, days: int)
    requires Valid(d)
    ensures MinusDays(d, days).Some? <==> 1 <= Ordinal(d) - days <= LAST_ORDINAL
    ensures MinusDays(d, days).Some? ==>
              var e := MinusDays(d, days).value;
              Valid(e) && Ordinal(e) == Ordinal(d) - days && SameTime(e, d)
    decreases if days < 0 then -days else days
  {
    OrdinalRange(d);
    Neighbours(d);
    if days > 0 && DayBefore(d).Some? {
      MinusDaysGoesBack(DayBefore(d).value, days - 1);
    } else if days < 0 && DayAfter(d).Some? {
      MinusDaysGoesBack(DayAfter(d).value, days + 1);
    }
  }

  lemma Neighbours(d: DateTime)
    requires Valid(d)
    ensures DayBefore(d).Some? ==> var e := DayBefore(d).value;
      Valid(e) && Ordinal(e) == Ordinal(d) - 1 && SameTime(e, d)
    ensures DayAfter(d).Some? ==> var e := DayAfter(d).value;
      Valid(e) && Ordinal(e) == Ordinal(d) + 1 && SameTime(e, d)
  {
    DayAfterUndoesDayBefore(d);
    if DayBefore(d).Some? {
      DayBeforeIsOneDayLess(d);
    }
    if DayAfter(d).Some? {
      DayAfterIsOneDayMore(d);
    }
  }
}
