/**
 Reading timestamps back, and subtracting a retention from one.

 The parser takes the text apart by position and digit and subtracts the offset it read; it does not know the printer.
 It accepts the profile of section 5.6 of RFC 3339 with an upper-case T, any offset, and any number of fraction digits
 (beyond nine they are dropped), and rejects everything else.
 */
module Rfc3339 {
  import opened Wrappers
  import opened Timestamps

  // ---- Parsing ----

  predicate AllDigits(s: string) {
    forall c :: c in s ==> IsDigit(c)
  }

  function Value(s: string): nat
    requires AllDigits(s)
  {
    if s == [] then 0
    else
      assert s[|s| - 1] in s;
      10 * Value(s[..|s| - 1]) + (s[|s| - 1] - '0') as nat
  }

  function Number(s: string): Option<nat> {
    if AllDigits(s) then Some(Value(s)) else None
  }

  /** Year, month and day of `yyyy-mm-ddT`. */
  function ParseDate(s: string): Option<(nat, nat, nat)>
    requires |s| == 11
  {
    match (Number(s[..4]), Number(s[5..7]), Number(s[8..10]))
    case (Some(y), Some(m), Some(d)) =>
      if s[4] == '-' && s[7] == '-' && s[10] == 'T' then Some((y, m, d)) else None
    case _ => None
  }

  /** Hour, minute and second of `hh:mm:ss`. */
  function ParseTime(s: string): Option<(nat, nat, nat)>
    requires |s| == 8
  {
    match (Number(s[..2]), Number(s[3..5]), Number(s[6..8]))
    case (Some(h), Some(m), Some(sec)) => if s[2] == ':' && s[5] == ':' then Some((h, m, sec)) else None
    case _ => None
  }

  /** The digits at the front. */
  function Digits(s: string): (d: string)
    ensures |d| <= |s| && AllDigits(d)
  {
    if s == [] || !IsDigit(s[0]) then [] else [s[0]] + Digits(s[1..])
  }

  /** The nanoseconds that digits after the point stand for. */
  function FractionNanos(d: string): nat
    requires AllDigits(d)
  {
    if |d| <= 9 then Value(d) * Pow10(9 - |d|) else Value(d[..9])
  }

  /** Minutes east of UTC. */
  function ParseOffset(s: string): Option<int> {
    if s == "Z" then Some(0)
    else if |s| != 6 || (s[0] != '+' && s[0] != '-') || s[3] != ':' then None
    else match (Number(s[1..3]), Number(s[4..6]))
      case (Some(h), Some(m)) =>
        var minutes: int := 60 * h + m;
        if h >= 24 || m >= 60 then None else Some(if s[0] == '+' then minutes else -minutes)
      case _ => None
  }

  /** An optional fraction, in nanoseconds, and the offset. */
  function ParseTail(s: string): Option<(nat, int)> {
    if s == [] || s[0] != '.' then
      match ParseOffset(s) case None => None case Some(offset) => Some((0, offset))
    else
      var d := Digits(s[1..]);
      if d == [] then None
      else match ParseOffset(s[1 + |d|..]) case None => None case Some(offset) => Some((FractionNanos(d), offset))
  }

  /** The instant of a local time at an offset. */
  function ToUtc(local: Utc, offset: int): Option<Utc> {
    var shift := 60_000_000_000 * offset;
    if shift >= 0 then Minus(local, shift) else Plus(local, -shift)
  }

  function ParseRfc3339(s: string): Option<Utc> {
    if |s| < 19 then None
    else match (ParseDate(s[..11]), ParseTime(s[11..19]), ParseTail(s[19..]))
      case (Some((y, mo, d)), Some((h, mi, sec)), Some((n, offset))) =>
        var local := Fields(y, mo, d, h, mi, sec, n);
        if local.Valid() then ToUtc(local, offset) else None
      case _ => None
  }

  lemma ValueSnoc(s: string, d: int)
    requires AllDigits(s) && 0 <= d < 10
    ensures AllDigits(s + [Digit(d)]) && Value(s + [Digit(d)]) == 10 * Value(s) + d
  {
    assert (s + [Digit(d)])[..|s|] == s;
  }

  lemma PadIsDigits(n: nat, w: nat)
    ensures AllDigits(Pad(n, w))
  {
  }

  lemma {:induction false} ValueOfPad(n: nat, w: nat)
    requires n < Pow10(w) && AllDigits(Pad(n, w))
    ensures Value(Pad(n, w)) == n
  {
    if w == 0 {
    } else {
      PadIsDigits(n / 10, w - 1);
      ValueOfPad(n / 10, w - 1);
      LastDigit(n, w);
      ValueSnoc(Pad(n / 10, w - 1), n % 10);
    }
  }

  lemma TwoDigits(n: nat)
    requires n < 100
    ensures Number(Pad(n, 2)) == Some(n)
  {
    assert Pow10(2) == 100;
    PadIsDigits(n, 2);
    ValueOfPad(n, 2);
  }

  lemma FourDigits(n: nat)
    requires n < 10_000
    ensures Number(Pad(n, 4)) == Some(n)
  {
    assert Pow10(4) == 10_000;
    PadIsDigits(n, 4);
    ValueOfPad(n, 4);
  }

  lemma DateSlices(u: Utc)
    ensures var s := DateText(u);
            && s[..4] == Pad(u.year, 4) && s[5..7] == Pad(u.month, 2) && s[8..10] == Pad(u.day, 2)
            && s[4] == '-' && s[7] == '-' && s[10] == 'T'
  {
  }

  lemma DateParses(u: Utc)
    ensures ParseDate(DateText(u)) == Some((u.year, u.month, u.day))
  {
    DateSlices(u);
    FourDigits(u.year);
    TwoDigits(u.month);
    TwoDigits(u.day);
  }

  lemma TimeSlices(u: Utc)
    ensures var s := TimeText(u);
            && s[..2] == Pad(u.hour, 2) && s[3..5] == Pad(u.minute, 2) && s[6..8] == Pad(u.second, 2)
            && s[2] == ':' && s[5] == ':'
  {
  }

  lemma TimeParses(u: Utc)
    ensures ParseTime(TimeText(u)) == Some((u.hour, u.minute, u.second))
  {
    TimeSlices(u);
    TwoDigits(u.hour);
    TwoDigits(u.minute);
    TwoDigits(u.second);
  }

  lemma {:induction false} DigitsEnd(d: string, rest: string)
    requires AllDigits(d) && (rest == [] || !IsDigit(rest[0]))
    ensures Digits(d + rest) == d
  {
    if d == [] {
      assert d + rest == rest;
    } else {
      assert IsDigit(d[0]);
      assert (d + rest)[1..] == d[1..] + rest;
      DigitsEnd(d[1..], rest);
      assert d == [d[0]] + d[1..];
    }
  }

  lemma ScaleIsExact(nano: nat)
    requires 0 < nano < 1_000_000_000
    ensures var w := FractionDigits(nano); 3 <= w <= 9 && Scale(nano) < Pow10(w) && Scale(nano) * Pow10(9 - w) == nano
  {
    assert Pow10(0) == 1 && Pow10(3) == 1_000;
    assert Pow10(6) == 1_000_000;
    assert Pow10(9) == 1_000_000_000;
  }

  lemma OffsetParses()
    ensures ParseOffset(OFFSET) == Some(0)
  {
    var zeros := Pad(0, 2);
    TwoDigits(0);
    assert zeros == ['0', '0'];
    assert OFFSET[1..3] == zeros && OFFSET[4..6] == zeros;
  }

  lemma FractionParses(d: string, offset: string)
    requires d != [] && AllDigits(d) && EndsDigits(offset) && ParseOffset(offset).Some?
    ensures ParseTail("." + (d + offset)) == Some((FractionNanos(d), ParseOffset(offset).value))
  {
    var s := "." + (d + offset);
    assert s[1..] == d + offset;
    DigitsEnd(d, offset);
    assert s[1 + |d|..] == offset;
  }

  predicate EndsDigits(s: string) {
    s == [] || !IsDigit(s[0])
  }

  lemma FractionIsRead(nano: nat)
    requires 0 < nano < 1_000_000_000
    ensures var d := Pad(Scale(nano), FractionDigits(nano)); d != [] && AllDigits(d) && FractionNanos(d) == nano
  {
    var w := FractionDigits(nano);
    ScaleIsExact(nano);
    PadIsDigits(Scale(nano), w);
    ValueOfPad(Scale(nano), w);
  }

  lemma TailParses(nano: nat)
    requires nano < 1_000_000_000
    ensures ParseTail(Fraction(nano) + OFFSET) == Some((nano, 0))
  {
    OffsetParses();
    if nano == 0 {
      assert Fraction(nano) + OFFSET == OFFSET;
    } else {
      var d := Pad(Scale(nano), FractionDigits(nano));
      FractionIsRead(nano);
      FractionParses(d, OFFSET);
      assert Fraction(nano) + OFFSET == "." + (d + OFFSET);
    }
  }

  lemma NanosAreDistinct(a: Utc, b: Utc)
    requires Nanos(a) == Nanos(b)
    ensures a == b
  {
    CalendarOrderIsTimeOrder(a, b);
    CalendarOrderIsTimeOrder(b, a);
  }

  /** Parsing what was printed gives the instant back, for every instant. */
  lemma ParseInvertsPrint(u: Utc)
    ensures ParseRfc3339(ToRfc3339(u)) == Some(u)
  {
    var s, tail := ToRfc3339(u), Fraction(u.nano) + OFFSET;
    assert s[..11] == DateText(u) && s[11..19] == TimeText(u) && s[19..] == tail;
    DateParses(u);
    TimeParses(u);
    TailParses(u.nano);
    NanosAreNatural(u);
    NanosAreDistinct(Minus(u, 0).value, u);
  }

  /** What the printed text looks like, position by position: four-digit year, two-digit fields, the separators of the
      profile, and `+00:00` at the end. */
  lemma PrintedShape(u: Utc)
    ensures var s := ToRfc3339(u);
            && |s| >= 25 && s[4] == '-' && s[7] == '-' && s[10] == 'T' && s[13] == ':' && s[16] == ':'
            && Number(s[..4]) == Some(u.year) && Number(s[5..7]) == Some(u.month) && Number(s[8..10]) == Some(u.day)
            && Number(s[11..13]) == Some(u.hour) && Number(s[14..16]) == Some(u.minute)
            && Number(s[17..19]) == Some(u.second)
            && s[|s| - 6..] == "+00:00"
            && (u.nano > 0 ==> s[19] == '.')
            && |s| == if u.nano == 0 then 25 else if u.nano % 1_000_000 == 0 then 29
                      else if u.nano % 1_000 == 0 then 32 else 35
  {
    var s, tail := ToRfc3339(u), Fraction(u.nano) + OFFSET;
    var d, t := DateText(u), TimeText(u);
    assert s[..11] == d && s[11..19] == t && s[19..] == tail;
    DateSlices(u);
    TimeSlices(u);
    assert s[..4] == d[..4] && s[5..7] == d[5..7] && s[8..10] == d[8..10];
    assert s[11..13] == t[..2] && s[14..16] == t[3..5] && s[17..19] == t[6..8];
    assert s[13] == t[2] && s[16] == t[5];
    FourDigits(u.year);
    TwoDigits(u.month);
    TwoDigits(u.day);
    TwoDigits(u.hour);
    TwoDigits(u.minute);
    TwoDigits(u.second);
    assert s[|s| - 6..] == tail[|tail| - 6..] == OFFSET;
  }

  // ---- Subtracting ----

  const DAY := 86_400_000_000_000

  function YearDays(year: int): int {
    if Leap(year) then 366 else 365
  }

  /** The year and day of the year that lie `day` days after the start of `year`, if before the year `end`. */
  function YearAt(day: nat, year: nat, end: nat): (r: Option<(nat, nat)>)
    requires year <= end
    ensures r.Some? ==> year <= r.value.0 < end && r.value.1 < YearDays(r.value.0)
    ensures r.Some? ==> DaysBeforeYear(r.value.0) + r.value.1 == DaysBeforeYear(year) + day
    ensures r.None? ==> DaysBeforeYear(end) <= DaysBeforeYear(year) + day
    decreases end - year
  {
    if year == end then None
    else if day < YearDays(year) then Some((year, day))
    else YearAt(day - YearDays(year), year + 1, end)
  }

  /** The month and day of the month that lie `day` days after the start of `month`. */
  function MonthAt(year: int, day: nat, month: nat): (r: (nat, nat))
    requires 1 <= month <= 12 && DaysBeforeMonth(year, month) + day < DaysBeforeMonth(year, 12) + 31
    ensures month <= r.0 <= 12 && 1 <= r.1 <= DaysIn(year, r.0)
    ensures DaysBeforeMonth(year, r.0) + r.1 - 1 == DaysBeforeMonth(year, month) + day
    decreases 12 - month
  {
    if month == 12 || day < DaysIn(year, month) then (month, day + 1)
    else MonthAt(year, day - DaysIn(year, month), month + 1)
  }

  function ClockAt(nanos: nat): (r: (nat, nat, nat, nat))
    requires nanos < DAY
    ensures r.0 < 24 && r.1 < 60 && r.2 < 60 && r.3 < 1_000_000_000
    ensures (r.0 * 3600 + r.1 * 60 + r.2) * 1_000_000_000 + r.3 == nanos
  {
    var seconds := nanos / 1_000_000_000;
    (seconds / 3600, seconds / 60 % 60, seconds % 60, nanos % 1_000_000_000)
  }

  /** The instant `nanos` nanoseconds into a day of a year. */
  function OnDay(year: nat, dayOfYear: nat, nanos: nat): (u: Utc)
    requires year <= 9999 && dayOfYear < YearDays(year) && nanos < DAY
    ensures Nanos(u) == (DaysBeforeYear(year) + dayOfYear) * DAY + nanos
  {
    MonthsOfYear(year);
    var (month, day) := MonthAt(year, dayOfYear, 1);
    var (h, m, s, n) := ClockAt(nanos);
    Fields(year, month, day, h, m, s, n)
  }

  lemma MonthsOfYear(year: nat)
    requires year <= 9999
    ensures DaysBeforeMonth(year, 12) + 31 == YearDays(year)
  {
    DecemberStarts(year);
  }

  lemma DayIsWithinYear(u: Utc)
    ensures 0 <= Day(u) < DaysBeforeYear(u.year + 1)
  {
    YearLength(u);
  }

  lemma DayOfNanos(u: Utc, n: nat)
    requires n <= Nanos(u)
    ensures n / DAY <= Day(u)
  {
    assert SecondOfDay(u) < 86_400;
  }

  lemma NanosAreNatural(u: Utc)
    ensures Nanos(u) >= 0
  {
    DayIsWithinYear(u);
  }

  /** `u - retention` in calendar fields; None before the year 0. */
  function Minus(u: Utc, retention: nat): (r: Option<Utc>)
    ensures r.None? <==> Nanos(u) < retention
    ensures r.Some? ==> Nanos(r.value) == Nanos(u) - retention
  {
    var n := Nanos(u) - retention;
    if n < 0 then None
    else
      DayIsWithinYear(u);
      DayOfNanos(u, n);
      match YearAt(n / DAY, 0, u.year + 1)
      case Some((year, day)) => Some(OnDay(year, day, n % DAY))
      case None => assert false; None
  }

  /** `u + delay`; None after the year 9999. */
  function Plus(u: Utc, delay: nat): (r: Option<Utc>)
    ensures r.Some? ==> Nanos(r.value) == Nanos(u) + delay
  {
    DayIsWithinYear(u);
    var n := Nanos(u) + delay;
    match YearAt(n / DAY, 0, u.year + 2)
    case Some((year, day)) => if year <= 9999 then Some(OnDay(year, day, n % DAY)) else None
    case None => None
  }

  /** The text of a cleanup's cutoff. A year before 0 is printed with a sign in front; only the sign matters here. */
  function CutoffText(now: Utc, retention: nat): string {
    match Minus(now, retention)
    case Some(u) => ToRfc3339(u)
    case None => "-"
  }

  /** Comparing stored text with the cutoff's text tells exactly whether the instant is older than the retention. */
  lemma OlderIff(u: Utc, now: Utc, retention: nat)
    ensures TextLess(ToRfc3339(u), CutoffText(now, retention)) <==> Nanos(u) < Nanos(now) - retention
  {
    match Minus(now, retention)
    case Some(cutoff) => TextOrderIsTimeOrder(u, cutoff);
    case None =>
      NanosAreNatural(u);
      assert ToRfc3339(u)[0] == Pad(u.year, 4)[0] && Pad(u.year, 4)[0] in Pad(u.year, 4);
  }
}
