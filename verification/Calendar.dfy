/** UTC instants and their ISO text. An instant is the number of microseconds since
    0001-01-01T00:00:00Z; its text has a fraction only when it is not zero. */
module Calendar {
  import opened Basics
  import opened Decimals

  type Time = nat

  predicate IsLeap(year: nat) { year % 4 == 0 && (year % 100 != 0 || year % 400 == 0) }

  function DaysInYear(year: nat): nat { if IsLeap(year) then 366 else 365 }

  function DaysInMonth(month: nat, leap: bool): nat {
    if month == 2 then (if leap then 29 else 28)
    else if month in {4, 6, 9, 11} then 30
    else 31
  }

  /** The year a day falls in and the day's offset in it, counting days from the start of `year`. */
  function SplitYear(day: nat, year: nat): (r: (nat, nat))
    ensures year <= r.0
  {
    if day < DaysInYear(year) then (year, day) else SplitYear(day - DaysInYear(year), year + 1)
  }

  function SplitMonth(day: nat, month: nat, leap: bool): (r: (nat, nat))
    decreases 12 - month
  {
    if month >= 12 || day < DaysInMonth(month, leap) then (month, day)
    else SplitMonth(day - DaysInMonth(month, leap), month + 1, leap)
  }

  datatype Fields = Fields(year: nat, month: nat, day: nat, hour: nat, minute: nat, second: nat, micro: nat)

  function FieldsOf(t: Time): Fields {
    var seconds := t / 1000000;
    var minutes := seconds / 60;
    var hours := minutes / 60;
    var (year, dayOfYear) := SplitYear(hours / 24, 1);
    var (month, day) := SplitMonth(dayOfYear, 1, IsLeap(year));
    Fields(year, month, day + 1, hours % 24, minutes % 60, seconds % 60, t % 1000000)
  }

  /** The host's datetime range: four-digit years. */
  predicate Representable(t: Time) { FieldsOf(t).year <= 9999 }

  /** The last `width` digits of `n`, zero-padded. */
  function Pad(n: nat, width: nat): string {
    if width == 0 then "" else Pad(n / 10, width - 1) + [Digit(n % 10)]
  }

  function Fraction(micro: nat): string { (if micro == 0 then "" else "." + Pad(micro, 6)) + "+00:00" }

  function Clock(f: Fields): string {
    Pad(f.hour, 2) + (":" + (Pad(f.minute, 2) + (":" + (Pad(f.second, 2) + Fraction(f.micro)))))
  }

  /** `isoformat()` of a UTC datetime. */
  function Iso(t: Time): string {
    var f := FieldsOf(t);
    Pad(f.year, 4) + ("-" + (Pad(f.month, 2) + ("-" + (Pad(f.day, 2) + ("T" + Clock(f))))))
  }

  function Pow10(width: nat): nat { if width == 0 then 1 else 10 * Pow10(width - 1) }

  /** Padded numerals of one width compare as numbers, then by what follows them. */
  lemma {:induction false} PadOrder(n: nat, m: nat, width: nat, x: string, y: string)
    requires n < Pow10(width) && m < Pow10(width)
    ensures TextLess(Pad(n, width) + x, Pad(m, width) + y) <==> n < m || (n == m && TextLess(x, y))
  {
    if width == 0 {
      assert Pad(n, 0) + x == x && Pad(m, 0) + y == y;
    } else {
      var dx, dy := [Digit(n % 10)] + x, [Digit(m % 10)] + y;
      assert Pad(n, width) + x == Pad(n / 10, width - 1) + dx;
      assert Pad(m, width) + y == Pad(m / 10, width - 1) + dy;
      PadOrder(n / 10, m / 10, width - 1, dx, dy);
      assert dx[1..] == x && dy[1..] == y;
      assert n == 10 * (n / 10) + n % 10 && m == 10 * (m / 10) + m % 10;
    }
  }

  lemma FieldOrder(n: nat, m: nat, width: nat, sep: string, x: string, y: string)
    requires n < Pow10(width) && m < Pow10(width)
    ensures TextLess(Pad(n, width) + (sep + x), Pad(m, width) + (sep + y)) <==> n < m || (n == m && TextLess(x, y))
  {
    PadOrder(n, m, width, sep + x, sep + y);
    TextLessPrefix(sep, x, y);
  }

  /** A missing fraction sorts first because '+' precedes '.'. */
  lemma FractionOrder(a: nat, b: nat)
    requires a < 1000000 && b < 1000000
    ensures TextLess(Fraction(a), Fraction(b)) <==> a < b
  {
    assert Pow10(6) == 1000000;
    var zone := "+00:00";
    TextLessPrefix(zone, "", "");
    assert zone + "" == zone && "" + zone == zone;
    if a != 0 && b != 0 {
      assert Fraction(a) == "." + (Pad(a, 6) + zone) && Fraction(b) == "." + (Pad(b, 6) + zone);
      TextLessPrefix(".", Pad(a, 6) + zone, Pad(b, 6) + zone);
      PadOrder(a, b, 6, zone, zone);
    } else if a != 0 {
      assert Fraction(a)[0] == '.' && Fraction(b)[0] == '+';
    } else if b != 0 {
      assert Fraction(a)[0] == '+' && Fraction(b)[0] == '.';
    }
  }

  lemma {:induction false} YearOrder(a: nat, b: nat, year: nat)
    requires a < b
    ensures var (ya, da) := SplitYear(a, year); var (yb, db) := SplitYear(b, year); ya < yb || (ya == yb && da < db)
  {
    if a >= DaysInYear(year) { YearOrder(a - DaysInYear(year), b - DaysInYear(year), year + 1); }
  }

  lemma {:induction false} MonthOrder(a: nat, b: nat, month: nat, leap: bool)
    requires a < b
    ensures var (ma, da) := SplitMonth(a, month, leap); var (mb, db) := SplitMonth(b, month, leap);
            ma < mb || (ma == mb && da < db)
    decreases 12 - month
  {
    if month < 12 {
      var n := DaysInMonth(month, leap);
      if a >= n {
        MonthOrder(a - n, b - n, month + 1, leap);
      } else if b >= n {
        MonthAtLeast(b - n, month + 1, leap);
      }
    }
  }

  lemma {:induction false} MonthAtLeast(day: nat, month: nat, leap: bool)
    ensures month <= SplitMonth(day, month, leap).0
    decreases 12 - month
  {
    if month < 12 && day >= DaysInMonth(month, leap) { MonthAtLeast(day - DaysInMonth(month, leap), month + 1, leap); }
  }

  lemma {:induction false} YearRange(day: nat, year: nat)
    ensures SplitYear(day, year).1 < DaysInYear(SplitYear(day, year).0)
  {
    if day >= DaysInYear(year) { YearRange(day - DaysInYear(year), year + 1); }
  }

  /** Days from the start of `month` to the end of the year. */
  function DaysFrom(month: nat, leap: bool): nat
    decreases 13 - month
  {
    if month > 12 then 0 else DaysInMonth(month, leap) + DaysFrom(month + 1, leap)
  }

  lemma {:induction false} MonthRange(day: nat, month: nat, leap: bool)
    requires 1 <= month <= 12 && day < DaysFrom(month, leap)
    ensures SplitMonth(day, month, leap).0 <= 12 && SplitMonth(day, month, leap).1 < 31
    decreases 12 - month
  {
    if month == 12 {
      assert DaysFrom(13, leap) == 0;
    } else if day >= DaysInMonth(month, leap) {
      MonthRange(day - DaysInMonth(month, leap), month + 1, leap);
    }
  }

  lemma YearLength(year: nat)
    ensures DaysFrom(1, IsLeap(year)) == DaysInYear(year)
  {
  }

  lemma FieldRanges(t: Time)
    ensures var f := FieldsOf(t);
            f.month <= 12 && f.day <= 31 && f.hour < 24 && f.minute < 60 && f.second < 60 && f.micro < 1000000
  {
    var (year, dayOfYear) := SplitYear(t / 1000000 / 60 / 60 / 24, 1);
    YearRange(t / 1000000 / 60 / 60 / 24, 1);
    YearLength(year);
    MonthRange(dayOfYear, 1, IsLeap(year));
  }

  /** The clock part of two field records in order, most significant first. */
  predicate ClockBefore(f: Fields, g: Fields) {
    || f.hour < g.hour || (f.hour == g.hour && (
    || f.minute < g.minute || (f.minute == g.minute && (
    || f.second < g.second || (f.second == g.second && f.micro < g.micro)))))
  }

  predicate Before(f: Fields, g: Fields) {
    || f.year < g.year || (f.year == g.year && (
    || f.month < g.month || (f.month == g.month && (
    || f.day < g.day || (f.day == g.day && ClockBefore(f, g))))))
  }

  lemma ClockOrder(f: Fields, g: Fields)
    requires f.hour < 24 && f.minute < 60 && f.second < 60 && f.micro < 1000000
    requires g.hour < 24 && g.minute < 60 && g.second < 60 && g.micro < 1000000
    ensures TextLess(Clock(f), Clock(g)) <==> ClockBefore(f, g)
  {
    assert Pow10(2) == 100;
    FractionOrder(f.micro, g.micro);
    PadOrder(f.second, g.second, 2, Fraction(f.micro), Fraction(g.micro));
    var fs, gs := Pad(f.second, 2) + Fraction(f.micro), Pad(g.second, 2) + Fraction(g.micro);
    FieldOrder(f.minute, g.minute, 2, ":", fs, gs);
    FieldOrder(f.hour, g.hour, 2, ":", Pad(f.minute, 2) + (":" + fs), Pad(g.minute, 2) + (":" + gs));
  }

  /** Later instants have later fields. */
  lemma LaterFields(t: Time, u: Time)
    requires t < u
    ensures Before(FieldsOf(t), FieldsOf(u))
  {
    var f, g := FieldsOf(t), FieldsOf(u);
    var s, s' := t / 1000000, u / 1000000;
    var m, m' := s / 60, s' / 60;
    var h, h' := m / 60, m' / 60;
    var d, d' := h / 24, h' / 24;
    assert s < s' || (s == s' && f.micro < g.micro);
    assert m < m' || (m == m' && (s % 60 < s' % 60 || s == s'));
    assert h < h' || (h == h' && (m % 60 < m' % 60 || m == m'));
    assert d < d' || (d == d' && (h % 24 < h' % 24 || h == h'));
    if d < d' {
      YearOrder(d, d', 1);
      var y, y' := SplitYear(d, 1), SplitYear(d', 1);
      if y.0 == y'.0 { MonthOrder(y.1, y'.1, 1, IsLeap(y.0)); }
    }
  }

  lemma TextOfFields(t: Time, u: Time)
    requires Representable(t) && Representable(u)
    ensures TextLess(Iso(t), Iso(u)) <==> Before(FieldsOf(t), FieldsOf(u))
  {
    var f, g := FieldsOf(t), FieldsOf(u);
    FieldRanges(t);
    FieldRanges(u);
    ClockOrder(f, g);
    assert Pow10(2) == 100;
    assert Pow10(4) == 10000;
    FieldOrder(f.day, g.day, 2, "T", Clock(f), Clock(g));
    var fd, gd := Pad(f.day, 2) + ("T" + Clock(f)), Pad(g.day, 2) + ("T" + Clock(g));
    FieldOrder(f.month, g.month, 2, "-", fd, gd);
    FieldOrder(f.year, g.year, 4, "-", Pad(f.month, 2) + ("-" + fd), Pad(g.month, 2) + ("-" + gd));
  }

  lemma BeforeIsStrict(f: Fields, g: Fields)
    ensures !Before(f, f) && !(Before(f, g) && Before(g, f))
  {
  }

  lemma FieldsInOrder(t: Time, u: Time)
    ensures Before(FieldsOf(t), FieldsOf(u)) <==> t < u
  {
    BeforeIsStrict(FieldsOf(t), FieldsOf(u));
    if t < u { LaterFields(t, u); }
    if u < t { LaterFields(u, t); }
  }

  /** The text order of stored UTC timestamps is their time order. */
  lemma IsoOrder(t: Time, u: Time)
    requires Representable(t) && Representable(u)
    ensures TextLess(Iso(t), Iso(u)) <==> t < u
  {
    TextOfFields(t, u);
    FieldsInOrder(t, u);
  }

  // ---- the fields tell the instant

  /** Days from the first of January of year 1 to that of `year`. */
  function DaysTo(year: int): int { 365 * (year - 1) + (year - 1) / 4 - (year - 1) / 100 + (year - 1) / 400 }

  /** Days from the first of January to the first of `month`. */
  function MonthStart(month: nat, leap: bool): nat {
    var leapDay := if leap && month > 2 then 1 else 0;
    match month
    case 1 => 0
    case 2 => 31
    case 3 => 59 + leapDay
    case 4 => 90 + leapDay
    case 5 => 120 + leapDay
    case 6 => 151 + leapDay
    case 7 => 181 + leapDay
    case 8 => 212 + leapDay
    case 9 => 243 + leapDay
    case 10 => 273 + leapDay
    case 11 => 304 + leapDay
    case 12 => 334 + leapDay
    case _ => 365 + leapDay
  }

  lemma FourthYears(y: nat)
    requires y > 0
    ensures y / 4 == (y - 1) / 4 + (if y % 4 == 0 then 1 else 0)
  {
  }

  lemma ByHundred(y: nat, q: nat, r: nat)
    requires y == 100 * q + r && r < 100
    ensures y / 100 == q && y % 100 == r
  {
  }

  lemma ByFourHundred(y: nat, q: nat, r: nat)
    requires y == 400 * q + r && r < 400
    ensures y / 400 == q && y % 400 == r
  {
  }

  lemma Centuries(y: nat)
    requires y > 0
    ensures y / 100 == (y - 1) / 100 + (if y % 100 == 0 then 1 else 0) && (y % 100 == 0 ==> y % 4 == 0)
  {
    var q, r := (y - 1) / 100, (y - 1) % 100;
    if r == 99 {
      ByHundred(y, q + 1, 0);
      assert y == 4 * (25 * (q + 1));
    } else {
      ByHundred(y, q, r + 1);
    }
  }

  lemma FourCenturies(y: nat)
    requires y > 0
    ensures y / 400 == (y - 1) / 400 + (if y % 400 == 0 then 1 else 0) && (y % 400 == 0 ==> y % 100 == 0)
  {
    var q, r := (y - 1) / 400, (y - 1) % 400;
    if r == 399 {
      ByFourHundred(y, q + 1, 0);
      ByHundred(y, 4 * (q + 1), 0);
    } else {
      ByFourHundred(y, q, r + 1);
    }
  }

  lemma YearSteps(year: nat)
    requires year > 0
    ensures DaysTo(year + 1) == DaysTo(year) + DaysInYear(year)
  {
    FourthYears(year);
    Centuries(year);
    FourCenturies(year);
  }

  lemma {:induction false} YearTells(day: nat, year: nat)
    requires year > 0
    ensures var (y, d) := SplitYear(day, year); DaysTo(y) + d == DaysTo(year) + day && d < DaysInYear(y)
  {
    if day >= DaysInYear(year) {
      YearSteps(year);
      YearTells(day - DaysInYear(year), year + 1);
    }
  }

  lemma MonthStep(month: nat, leap: bool)
    requires 1 <= month < 12
    ensures MonthStart(month + 1, leap) == MonthStart(month, leap) + DaysInMonth(month, leap)
  {
  }

  lemma {:induction false} MonthTells(day: nat, month: nat, leap: bool)
    requires 1 <= month <= 12
    ensures var (m, d) := SplitMonth(day, month, leap);
            && month <= m <= 12 && MonthStart(m, leap) + d == MonthStart(month, leap) + day
            && (m < 12 ==> d < DaysInMonth(m, leap))
    decreases 12 - month
  {
    if month < 12 && day >= DaysInMonth(month, leap) {
      MonthStep(month, leap);
      MonthTells(day - DaysInMonth(month, leap), month + 1, leap);
    }
  }

  /** A day count is a date of the calendar: the days to its year, to its month and in it add up. */
  lemma DateTells(days: nat)
    ensures var (year, dayOfYear) := SplitYear(days, 1);
            var (month, day) := SplitMonth(dayOfYear, 1, IsLeap(year));
            && year >= 1 && 1 <= month <= 12 && day < DaysInMonth(month, IsLeap(year))
            && days == DaysTo(year) + MonthStart(month, IsLeap(year)) + day
  {
    var (year, dayOfYear) := SplitYear(days, 1);
    YearTells(days, 1);
    MonthTells(dayOfYear, 1, IsLeap(year));
  }

  lemma DateOfFields(t: Time)
    ensures var f := FieldsOf(t);
            && f.year >= 1 && 1 <= f.month <= 12 && 1 <= f.day <= DaysInMonth(f.month, IsLeap(f.year))
            && t / 1000000 / 60 / 60 / 24 == DaysOf(f)
  {
    var days := t / 1000000 / 60 / 60 / 24;
    var (year, dayOfYear) := SplitYear(days, 1);
    var (month, day) := SplitMonth(dayOfYear, 1, IsLeap(year));
    DateIs(t, days, year, dayOfYear, month, day);
    DateTells(days);
    DateAddsUp(FieldsOf(t), days, year, month, day);
  }

  lemma DateIs(t: Time, days: nat, year: nat, dayOfYear: nat, month: nat, day: nat)
    requires days == t / 1000000 / 60 / 60 / 24 && SplitYear(days, 1) == (year, dayOfYear)
    requires SplitMonth(dayOfYear, 1, IsLeap(year)) == (month, day)
    ensures FieldsOf(t).year == year && FieldsOf(t).month == month && FieldsOf(t).day == day + 1
  {
  }

  lemma DateAddsUp(f: Fields, days: nat, year: nat, month: nat, day: nat)
    requires f.year == year && f.month == month && f.day == day + 1 && day < DaysInMonth(month, IsLeap(year))
    requires days == DaysTo(year) + MonthStart(month, IsLeap(year)) + day
    ensures days == DaysOf(f) && 1 <= f.day <= DaysInMonth(f.month, IsLeap(f.year))
  {
  }

  lemma ClockOfFields(t: Time)
    ensures var f := FieldsOf(t);
            && f.hour == t / 1000000 / 60 / 60 % 24 && f.minute == t / 1000000 / 60 % 60 && f.second == t / 1000000 % 60
            && f.micro == t % 1000000
  {
  }

  /** The days from the start of year 1 to the day of `f`. */
  function DaysOf(f: Fields): int { DaysTo(f.year) + MonthStart(f.month, IsLeap(f.year)) + (f.day - 1) }

  lemma ClockAddsUp(t: nat, days: int, hour: nat, minute: nat, second: nat, micro: nat)
    requires days == t / 1000000 / 60 / 60 / 24 && hour == t / 1000000 / 60 / 60 % 24
    requires minute == t / 1000000 / 60 % 60 && second == t / 1000000 % 60 && micro == t % 1000000
    ensures hour < 24 && minute < 60 && second < 60 && micro < 1000000
    ensures t == ((days * 24 + hour) * 60 + minute) * 60_000_000 + second * 1_000_000 + micro
  {
  }

  /** The fields of an instant are those of the Gregorian calendar: they add up to it. */
  lemma FieldsTellTheTime(t: Time)
    ensures var f := FieldsOf(t);
            && f.year >= 1 && 1 <= f.month <= 12 && 1 <= f.day <= DaysInMonth(f.month, IsLeap(f.year))
            && f.hour < 24 && f.minute < 60 && f.second < 60 && f.micro < 1000000
            && t == ((DaysOf(f) * 24 + f.hour) * 60 + f.minute) * 60_000_000 + f.second * 1_000_000 + f.micro
  {
    var f := FieldsOf(t);
    DateOfFields(t);
    ClockOfFields(t);
    ClockAddsUp(t, DaysOf(f), f.hour, f.minute, f.second, f.micro);
  }
}
