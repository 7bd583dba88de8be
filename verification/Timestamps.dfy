/**
 UTC instants and the text SQLite stores for them.

 The SQLite backend writes `to_rfc3339()` text into `created_at`, `delivered_at` and the cleanup cutoffs, and
 lets the database compare those columns byte by byte. Section 5.1 of RFC 3339 promises that string order is time
 order only when every string has the same number of fraction digits; the printed form has 0, 3, 6 or 9 of them.
 */
module Timestamps {

  datatype Fields = Fields(year: int, month: int, day: int, hour: int, minute: int, second: int, nano: int) {
    predicate Valid() {
      && 0 <= year <= 9999 && 1 <= month <= 12 && 1 <= day <= DaysIn(year, month)
      && 0 <= hour < 24 && 0 <= minute < 60 && 0 <= second < 60 && 0 <= nano < 1_000_000_000
    }
  }

  type Utc = f: Fields | f.Valid() witness Fields(1970, 1, 1, 0, 0, 0, 0)

  // ---- Real time: nanoseconds since the start of year 0 (proleptic Gregorian calendar) ----

  predicate Leap(year: int) {
    year % 4 == 0 && (year % 100 != 0 || year % 400 == 0)
  }

  function DaysIn(year: int, month: int): (d: int)
    ensures 28 <= d <= 31
  {
    if month == 2 then (if Leap(year) then 29 else 28)
    else if month in {4, 6, 9, 11} then 30 else 31
  }

  function DaysBeforeYear(year: nat): nat {
    if year == 0 then 0 else DaysBeforeYear(year - 1) + if Leap(year - 1) then 366 else 365
  }

  function DaysBeforeMonth(year: int, month: nat): nat {
    if month <= 1 then 0 else DaysBeforeMonth(year, month - 1) + DaysIn(year, month - 1)
  }

  function Day(u: Utc): int {
    DaysBeforeYear(u.year) + DaysBeforeMonth(u.year, u.month) + u.day - 1
  }

  function SecondOfDay(u: Utc): int {
    u.hour * 3600 + u.minute * 60 + u.second
  }

  function Nanos(u: Utc): int {
    (Day(u) * 86_400 + SecondOfDay(u)) * 1_000_000_000 + u.nano
  }

  predicate Before(a: Utc, b: Utc) {
    Nanos(a) < Nanos(b)
  }

  lemma {:induction false} MonthsAreMonotone(year: int, m: nat, n: nat)
    requires 1 <= m < n <= 12
    ensures DaysBeforeMonth(year, m) + DaysIn(year, m) <= DaysBeforeMonth(year, n)
    decreases n
  {
    if m + 1 == n {
    } else {
      MonthsAreMonotone(year, m, n - 1);
    }
  }

  lemma {:induction false} YearsAreMonotone(y: nat, z: nat)
    requires y < z
    ensures DaysBeforeYear(y) + (if Leap(y) then 366 else 365) <= DaysBeforeYear(z)
    decreases z
  {
    if y + 1 == z {
    } else {
      YearsAreMonotone(y, z - 1);
    }
  }

  lemma DecemberStarts(year: nat)
    ensures DaysBeforeMonth(year, 12) == if Leap(year) then 335 else 334
  {
    assert DaysBeforeMonth(year, 4) == if Leap(year) then 91 else 90 by {
      assert DaysBeforeMonth(year, 2) == 31;
    }
    assert DaysBeforeMonth(year, 6) == DaysBeforeMonth(year, 4) + 61;
    assert DaysBeforeMonth(year, 8) == DaysBeforeMonth(year, 6) + 61;
    assert DaysBeforeMonth(year, 10) == DaysBeforeMonth(year, 8) + 61;
  }

  lemma YearLength(u: Utc)
    ensures DaysBeforeMonth(u.year, u.month) + u.day <= if Leap(u.year) then 366 else 365
  {
    DecemberStarts(u.year);
    if u.month < 12 {
      MonthsAreMonotone(u.year, u.month, 12);
    }
  }

  predicate DateLess(a: Utc, b: Utc) {
    a.year < b.year || (a.year == b.year && (a.month < b.month || (a.month == b.month && a.day < b.day)))
  }

  lemma DateOrder(a: Utc, b: Utc)
    requires DateLess(a, b)
    ensures Day(a) < Day(b)
  {
    YearLength(a);
    if a.year < b.year {
      YearsAreMonotone(a.year, b.year);
    } else if a.month < b.month {
      MonthsAreMonotone(a.year, a.month, b.month);
    }
  }

  predicate TimeLess(a: Utc, b: Utc) {
    || a.hour < b.hour
    || (a.hour == b.hour && (a.minute < b.minute || (a.minute == b.minute && a.second < b.second)))
  }

  predicate SameDate(a: Utc, b: Utc) {
    a.year == b.year && a.month == b.month && a.day == b.day
  }

  predicate SameTime(a: Utc, b: Utc) {
    a.hour == b.hour && a.minute == b.minute && a.second == b.second
  }

  /** Order by calendar fields, most significant first. */
  predicate FieldLess(a: Utc, b: Utc) {
    || DateLess(a, b)
    || (SameDate(a, b) && (TimeLess(a, b) || (SameTime(a, b) && a.nano < b.nano)))
  }

  lemma FieldLessIsBefore(a: Utc, b: Utc)
    requires FieldLess(a, b)
    ensures Before(a, b)
  {
    if DateLess(a, b) {
      DateOrder(a, b);
    }
  }

  /** Calendar order is real-time order. */
  lemma CalendarOrderIsTimeOrder(a: Utc, b: Utc)
    ensures FieldLess(a, b) <==> Before(a, b)
  {
    if FieldLess(a, b) {
      FieldLessIsBefore(a, b);
    } else if FieldLess(b, a) {
      FieldLessIsBefore(b, a);
    }
  }

  // ---- The calendar, independently ----

  /** The number of days from 0000-01-01 in the proleptic Gregorian calendar, in closed form: years begin in March, so
      that leap days come last; 153 days make five months; and a cycle of 400 years has 146097 days. */
  function Civil(year: int, month: int, day: int): int {
    var y := if month <= 2 then year - 1 else year;
    var m := if month <= 2 then month + 9 else month - 3;
    365 * y + y / 4 - y / 100 + y / 400 + (153 * m + 2) / 5 + day + 59
  }

  lemma {:induction false} YearIsGregorian(year: nat)
    ensures DaysBeforeYear(year) == Civil(year, 1, 1)
  {
    if year == 0 {
    } else {
      YearIsGregorian(year - 1);
      LeapIsGregorian(year - 1);
    }
  }

  lemma LeapStep(year: int, n: nat)
    requires n in {4, 100, 400}
    ensures year / n - (year - 1) / n == if year % n == 0 then 1 else 0
  {
  }

  /** Leap days up to the end of a year. */
  function LeapDays(year: int): int {
    year / 4 - year / 100 + year / 400
  }

  lemma CenturiesAreFourth(year: int)
    ensures year % 100 == 0 ==> year % 4 == 0
  {
    if year % 100 == 0 {
      assert year == 4 * (25 * (year / 100));
    }
  }

  lemma CyclesAreCenturies(year: int)
    ensures year % 400 == 0 ==> year % 100 == 0
  {
    if year % 400 == 0 {
      assert year == 100 * (4 * (year / 400));
    }
  }

  /** One more leap day for a fourth year, one less for a century, one more for a cycle. */
  lemma ShareOf(fourth: bool, century: bool, cycle: bool)
    requires (century ==> fourth) && (cycle ==> century)
    ensures (if fourth then 1 else 0) - (if century then 1 else 0) + (if cycle then 1 else 0)
            == if fourth && (!century || cycle) then 1 else 0
  {
  }

  lemma LeapShare(year: int)
    ensures LeapDays(year) - LeapDays(year - 1) == if Leap(year) then 1 else 0
  {
    LeapStep(year, 4);
    LeapStep(year, 100);
    LeapStep(year, 400);
    CenturiesAreFourth(year);
    CyclesAreCenturies(year);
    ShareOf(year % 4 == 0, year % 100 == 0, year % 400 == 0);
  }

  lemma FirstOfJanuary(year: int)
    ensures Civil(year, 1, 1) == 365 * (year - 1) + LeapDays(year - 1) + 366
  {
  }

  lemma LeapIsGregorian(year: int)
    ensures Civil(year + 1, 1, 1) - Civil(year, 1, 1) == if Leap(year) then 366 else 365
  {
    FirstOfJanuary(year);
    FirstOfJanuary(year + 1);
    LeapShare(year);
  }

  /** Months begin where the closed form says. */
  lemma {:induction false} MonthIsGregorian(year: int, month: nat)
    requires 1 <= month <= 12
    ensures DaysBeforeMonth(year, month) == Civil(year, month, 1) - Civil(year, 1, 1)
  {
    if month == 1 {
    } else {
      MonthIsGregorian(year, month - 1);
      LeapShare(year);
      MonthStep(year, month - 1);
    }
  }

  lemma MonthStep(year: int, month: int)
    requires 1 <= month < 12
    ensures Civil(year, month + 1, 1) - Civil(year, month, 1) == DaysIn(year, month)
  {
    LeapShare(year);
  }

  /** Month lengths are differences of the closed form, December's included. */
  lemma MonthLengthsAreGregorian(year: int, month: int)
    requires 1 <= month <= 12
    ensures DaysIn(year, month)
            == (if month == 12 then Civil(year + 1, 1, 1) else Civil(year, month + 1, 1)) - Civil(year, month, 1)
  {
    if month < 12 {
      MonthStep(year, month);
    }
  }

  /** The instants of the model are those of the Gregorian calendar and the 24-hour day. */
  lemma InstantsAreGregorian(u: Utc)
    ensures Day(u) == Civil(u.year, u.month, u.day)
    ensures var seconds := ((Civil(u.year, u.month, u.day) * 24 + u.hour) * 60 + u.minute) * 60 + u.second;
            Nanos(u) == seconds * 1_000_000_000 + u.nano
  {
    YearIsGregorian(u.year);
    MonthIsGregorian(u.year, u.month);
  }

  // ---- Text ----

  /** Byte-wise string comparison (SQLite's default collation). */
  predicate TextLess(s: string, t: string) {
    t != [] && (s == [] || s[0] < t[0] || (s[0] == t[0] && TextLess(s[1..], t[1..])))
  }

  function Pow10(w: nat): (p: int)
    ensures p >= 1
  {
    if w == 0 then 1 else 10 * Pow10(w - 1)
  }

  predicate IsDigit(c: char) {
    '0' <= c <= '9'
  }

  function Digit(d: int): char
    requires 0 <= d < 10
  {
    '0' + d as char
  }

  /** `n` in exactly `w` decimal digits. */
  function Pad(n: nat, w: nat): (s: string)
    ensures |s| == w
    ensures forall c :: c in s ==> IsDigit(c)
  {
    if w == 0 then "" else Pad(n / 10, w - 1) + [Digit(n % 10)]
  }

  function FractionDigits(nano: int): nat {
    if nano == 0 then 0 else if nano % 1_000_000 == 0 then 3 else if nano % 1_000 == 0 then 6 else 9
  }

  function Scale(nano: nat): nat {
    if FractionDigits(nano) == 3 then nano / 1_000_000
    else if FractionDigits(nano) == 6 then nano / 1_000 else nano
  }

  function Fraction(nano: nat): string {
    if nano == 0 then "" else "." + Pad(Scale(nano), FractionDigits(nano))
  }

  function DateText(u: Utc): (s: string)
    ensures |s| == 11
  {
    Pad(u.year, 4) + ("-" + (Pad(u.month, 2) + ("-" + (Pad(u.day, 2) + "T"))))
  }

  function TimeText(u: Utc): (s: string)
    ensures |s| == 8
  {
    Pad(u.hour, 2) + (":" + (Pad(u.minute, 2) + (":" + Pad(u.second, 2))))
  }

  const OFFSET := "+00:00"

  /** The text of `to_rfc3339()` on a UTC value. */
  function ToRfc3339(u: Utc): string {
    DateText(u) + (TimeText(u) + (Fraction(u.nano) + OFFSET))
  }

  lemma {:induction false} TextLessConcat(a: string, b: string, x: string, y: string)
    requires |a| == |b|
    ensures TextLess(a + x, b + y) <==> TextLess(a, b) || (a == b && TextLess(x, y))
  {
    if a == [] {
      assert a + x == x && b + y == y;
    } else {
      assert (a + x)[1..] == a[1..] + x && (b + y)[1..] == b[1..] + y;
      TextLessConcat(a[1..], b[1..], x, y);
      assert a == [a[0]] + a[1..] && b == [b[0]] + b[1..];
    }
  }

  lemma {:induction false} TextLessIrreflexive(a: string)
    ensures !TextLess(a, a)
  {
    if a == [] {
    } else {
      TextLessIrreflexive(a[1..]);
    }
  }

  /** Equal-width decimal text compares like the numbers. */
  lemma {:induction false} PadOrder(m: nat, n: nat, w: nat)
    requires m < Pow10(w) && n < Pow10(w)
    ensures TextLess(Pad(m, w), Pad(n, w)) <==> m < n
    ensures Pad(m, w) == Pad(n, w) <==> m == n
  {
    if w == 0 {
    } else {
      var a, b := Pad(m / 10, w - 1), Pad(n / 10, w - 1);
      PadOrder(m / 10, n / 10, w - 1);
      TextLessConcat(a, b, [Digit(m % 10)], [Digit(n % 10)]);
      assert Pad(m, w)[..w - 1] == a && Pad(n, w)[..w - 1] == b;
      assert Pad(m, w)[w - 1] == Digit(m % 10) && Pad(n, w)[w - 1] == Digit(n % 10);
    }
  }

  lemma TenTimes(a: int, b: int)
    ensures a * (10 * b) == 10 * (a * b)
  {
  }

  lemma DropLastDigit(n: nat, q: nat, lo: nat)
    requires n == 10 * q + lo
    ensures n / 10 == q + lo / 10 && n % 10 == lo % 10
  {
  }

  lemma LastDigit(n: nat, w: nat)
    requires w > 0
    ensures Pad(n, w) == Pad(n / 10, w - 1) + [Digit(n % 10)]
  {
  }

  lemma AppendDigit(a: string, b: string, c: char)
    ensures a + (b + [c]) == (a + b) + [c]
  {
  }

  lemma {:induction false} PadSplit(n: nat, hi: nat, lo: nat, a: nat, b: nat)
    requires n == hi * Pow10(b) + lo && lo < Pow10(b)
    ensures Pad(n, a + b) == Pad(hi, a) + Pad(lo, b)
  {
    if b == 0 {
    } else {
      TenTimes(hi, Pow10(b - 1));
      DropLastDigit(n, hi * Pow10(b - 1), lo);
      PadSplit(n / 10, hi, lo / 10, a, b - 1);
      LastDigit(n, a + b);
      LastDigit(lo, b);
      AppendDigit(Pad(hi, a), Pad(lo / 10, b - 1), Digit(lo % 10));
    }
  }

  lemma DivModUnique(n: int, d: int, q: int, r: int)
    requires d > 0 && n == d * q + r && 0 <= r < d
    ensures n / d == q && n % d == r
  {
    assert d * (n / d - q) == r - n % d;
    SmallMultiple(d, n / d - q);
  }

  lemma SmallMultiple(d: int, e: int)
    requires d > 0 && -d < d * e < d
    ensures e == 0
  {
  }

  // ---- Text order is time order ----

  /** The longer fraction is the shorter one's width of digits, `hi`, and more, `lo`, which is not zero if there are any
      more. */
  lemma ScaleSplit(m: nat, n: nat) returns (hi: nat, lo: nat)
    requires 0 < m < 1_000_000_000 && 0 < n < 1_000_000_000
    requires FractionDigits(m) <= FractionDigits(n)
    ensures var d, e := FractionDigits(m), FractionDigits(n);
            && Scale(n) == hi * Pow10(e - d) + lo && lo < Pow10(e - d) && hi < Pow10(d) && Scale(m) < Pow10(d)
            && (m < n <==> Scale(m) < hi || (Scale(m) == hi && d < e))
            && (n < m <==> hi < Scale(m))
  {
    var d, e := FractionDigits(m), FractionDigits(n);
    assert Pow10(0) == 1 && Pow10(3) == 1_000;
    assert Pow10(6) == 1_000_000 && Pow10(9) == 1_000_000_000;
    if e == d {
      hi, lo := Scale(n), 0;
    } else if e == d + 3 {
      hi, lo := Scale(n) / 1_000, Scale(n) % 1_000;
    } else {
      hi, lo := Scale(n) / 1_000_000, Scale(n) % 1_000_000;
    }
  }

  lemma FractionText(n: nat, d: nat, hi: nat, lo: nat)
    requires 0 < n && d <= FractionDigits(n)
    requires Scale(n) == hi * Pow10(FractionDigits(n) - d) + lo && lo < Pow10(FractionDigits(n) - d)
    ensures Fraction(n) + OFFSET == "." + (Pad(hi, d) + (Pad(lo, FractionDigits(n) - d) + OFFSET))
  {
    PadSplit(Scale(n), hi, lo, d, FractionDigits(n) - d);
  }

  /** '+' sorts below every digit. */
  lemma MoreDigitsSortAbove(lo: nat, k: nat)
    ensures !TextLess(Pad(lo, k) + OFFSET, OFFSET)
    ensures TextLess(OFFSET, Pad(lo, k) + OFFSET) <==> k > 0
  {
    if k == 0 {
      assert Pad(lo, k) + OFFSET == OFFSET;
      TextLessIrreflexive(OFFSET);
    } else {
      assert (Pad(lo, k) + OFFSET)[0] == Pad(lo, k)[0] && Pad(lo, k)[0] in Pad(lo, k);
    }
  }

  /** The fraction printed with fewer digits than the other's, followed by '+', sorts below it: '+' < '0'. */
  lemma FractionOrder(m: nat, n: nat)
    requires 0 < m < 1_000_000_000 && 0 < n < 1_000_000_000
    requires FractionDigits(m) <= FractionDigits(n)
    ensures TextLess(Fraction(m) + OFFSET, Fraction(n) + OFFSET) <==> m < n
    ensures TextLess(Fraction(n) + OFFSET, Fraction(m) + OFFSET) <==> n < m
  {
    var d, e := FractionDigits(m), FractionDigits(n);
    var hi, lo := ScaleSplit(m, n);
    var more := Pad(lo, e - d) + OFFSET;
    FractionText(n, d, hi, lo);
    assert Fraction(m) + OFFSET == "." + (Pad(Scale(m), d) + OFFSET);
    TextLessConcat(".", ".", Pad(Scale(m), d) + OFFSET, Pad(hi, d) + more);
    TextLessConcat(".", ".", Pad(hi, d) + more, Pad(Scale(m), d) + OFFSET);
    FieldOrder(Scale(m), hi, d, OFFSET, more);
    FieldOrder(hi, Scale(m), d, more, OFFSET);
    MoreDigitsSortAbove(lo, e - d);
  }

  lemma TailOrder(m: nat, n: nat)
    requires m < 1_000_000_000 && n < 1_000_000_000
    ensures TextLess(Fraction(m) + OFFSET, Fraction(n) + OFFSET) <==> m < n
  {
    if m == 0 && n == 0 {
      TextLessIrreflexive(Fraction(m) + OFFSET);
    } else if 0 < m && 0 < n {
      if FractionDigits(m) <= FractionDigits(n) {
        FractionOrder(m, n);
      } else {
        FractionOrder(n, m);
      }
    } else {
      assert (Fraction(m) + OFFSET)[0] == if m == 0 then '+' else '.';
      assert (Fraction(n) + OFFSET)[0] == if n == 0 then '+' else '.';
    }
  }

  /** One fixed-width field and what follows it. */
  lemma FieldOrder(m: nat, n: nat, w: nat, x: string, y: string)
    requires m < Pow10(w) && n < Pow10(w)
    ensures TextLess(Pad(m, w) + x, Pad(n, w) + y) <==> m < n || (m == n && TextLess(x, y))
  {
    TextLessConcat(Pad(m, w), Pad(n, w), x, y);
    PadOrder(m, n, w);
  }

  lemma DateTextOrder(a: Utc, b: Utc, x: string, y: string)
    ensures TextLess(DateText(a) + x, DateText(b) + y) <==> DateLess(a, b) || (SameDate(a, b) && TextLess(x, y))
  {
    assert Pow10(4) == 10_000 && Pow10(2) == 100;
    var ax, bx := "T" + x, "T" + y;
    var ad, bd := Pad(a.day, 2) + ax, Pad(b.day, 2) + bx;
    var am, bm := Pad(a.month, 2) + ("-" + ad), Pad(b.month, 2) + ("-" + bd);
    assert DateText(a) + x == Pad(a.year, 4) + ("-" + am);
    assert DateText(b) + y == Pad(b.year, 4) + ("-" + bm);
    FieldOrder(a.year, b.year, 4, "-" + am, "-" + bm);
    TextLessConcat("-", "-", am, bm);
    FieldOrder(a.month, b.month, 2, "-" + ad, "-" + bd);
    TextLessConcat("-", "-", ad, bd);
    FieldOrder(a.day, b.day, 2, ax, bx);
    TextLessConcat("T", "T", x, y);
  }

  lemma TimeTextOrder(a: Utc, b: Utc, x: string, y: string)
    ensures TextLess(TimeText(a) + x, TimeText(b) + y) <==> TimeLess(a, b) || (SameTime(a, b) && TextLess(x, y))
  {
    assert Pow10(2) == 100;
    var at, bt := Pad(a.second, 2) + x, Pad(b.second, 2) + y;
    var am, bm := Pad(a.minute, 2) + (":" + at), Pad(b.minute, 2) + (":" + bt);
    assert TimeText(a) + x == Pad(a.hour, 2) + (":" + am);
    assert TimeText(b) + y == Pad(b.hour, 2) + (":" + bm);
    FieldOrder(a.hour, b.hour, 2, ":" + am, ":" + bm);
    TextLessConcat(":", ":", am, bm);
    FieldOrder(a.minute, b.minute, 2, ":" + at, ":" + bt);
    TextLessConcat(":", ":", at, bt);
    FieldOrder(a.second, b.second, 2, x, y);
  }

  /** The comparison SQLite's cleanups make on the stored text is the comparison of the instants, for every mix of
      0, 3, 6 and 9 fraction digits. */
  lemma TextOrderIsTimeOrder(a: Utc, b: Utc)
    ensures TextLess(ToRfc3339(a), ToRfc3339(b)) <==> Before(a, b)
  {
    var x, y := Fraction(a.nano) + OFFSET, Fraction(b.nano) + OFFSET;
    DateTextOrder(a, b, TimeText(a) + x, TimeText(b) + y);
    TimeTextOrder(a, b, x, y);
    TailOrder(a.nano, b.nano);
    CalendarOrderIsTimeOrder(a, b);
  }

  /** Distinct instants have distinct text, and equal text is the same instant. */
  lemma TextIsInjective(a: Utc, b: Utc)
    requires ToRfc3339(a) == ToRfc3339(b)
    ensures a == b
  {
    TextLessIrreflexive(ToRfc3339(a));
    TextOrderIsTimeOrder(a, b);
    TextOrderIsTimeOrder(b, a);
    CalendarOrderIsTimeOrder(a, b);
    CalendarOrderIsTimeOrder(b, a);
  }
}
