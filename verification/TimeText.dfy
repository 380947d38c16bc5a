/** Instants as the store writes them: time.RFC3339Nano in UTC, compared as text by SQLite.

    RFC3339Nano drops trailing zeros of the fraction and the whole fraction when it is zero,
    so the texts do not all have the same number of fraction digits, which section 5.1 of
    RFC 3339 asks for before string order may stand for time order. */
module TimeText {
  import opened Text

  const NANOS: int := 1_000_000_000
  const DAY_SECONDS: int := 86_400

  /** A UTC date and time of day in the proleptic Gregorian calendar, years 0 to 9999. */
  datatype Civil = Civil(year: nat, month: nat, day: nat, hour: nat, minute: nat, second: nat, nanos: nat) {
    ghost predicate Valid() {
      && year <= 9999 && 1 <= month <= 12 && 1 <= day <= MonthLength(year, month)
      && hour < 24 && minute < 60 && second < 60 && nanos < NANOS
    }
  }

  predicate Leap(year: nat) {
    year % 4 == 0 && (year % 100 != 0 || year % 400 == 0)
  }

  function MonthLength(year: nat, month: nat): (n: nat)
    ensures 28 <= n <= 31
  {
    if month == 2 then (if Leap(year) then 29 else 28)
    else if month in {4, 6, 9, 11} then 30 else 31
  }

  /** Days from 0000-01-01 to the first day of a year. */
  function DaysBeforeYear(year: nat): nat {
    if year == 0 then 0 else DaysBeforeYear(year - 1) + (if Leap(year - 1) then 366 else 365)
  }

  function DaysBeforeMonth(year: nat, month: nat): nat
    requires 1 <= month <= 13
  {
    if month == 1 then 0 else DaysBeforeMonth(year, month - 1) + MonthLength(year, month - 1)
  }

  lemma YearLength(year: nat)
    ensures DaysBeforeMonth(year, 13) == if Leap(year) then 366 else 365
  {
    var leap := if Leap(year) then 1 else 0;
    assert DaysBeforeMonth(year, 3) == 59 + leap by {
      assert DaysBeforeMonth(year, 2) == 31;
    }
    assert DaysBeforeMonth(year, 5) == 120 + leap by {
      assert DaysBeforeMonth(year, 4) == 90 + leap;
    }
    assert DaysBeforeMonth(year, 7) == 181 + leap by {
      assert DaysBeforeMonth(year, 6) == 151 + leap;
    }
    assert DaysBeforeMonth(year, 9) == 243 + leap by {
      assert DaysBeforeMonth(year, 8) == 212 + leap;
    }
    assert DaysBeforeMonth(year, 11) == 304 + leap by {
      assert DaysBeforeMonth(year, 10) == 273 + leap;
    }
    assert DaysBeforeMonth(year, 12) == 334 + leap;
  }

  lemma {:induction false} YearsMonotone(a: nat, b: nat)
    requires a < b
    ensures DaysBeforeYear(a) + (if Leap(a) then 366 else 365) <= DaysBeforeYear(b)
  {
    if a + 1 < b {
      YearsMonotone(a, b - 1);
    }
  }

  lemma {:induction false} MonthsMonotone(year: nat, a: nat, b: nat)
    requires 1 <= a < b <= 13
    ensures DaysBeforeMonth(year, a) + MonthLength(year, a) <= DaysBeforeMonth(year, b)
  {
    if a + 1 < b {
      MonthsMonotone(year, a, b - 1);
    }
  }

  function DayNumber(year: nat, month: nat, day: nat): int
    requires 1 <= month <= 12
  {
    DaysBeforeYear(year) + DaysBeforeMonth(year, month) + day - 1
  }

  /** Whole seconds since 0000-01-01T00:00:00Z. */
  function Seconds(c: Civil): int
    requires 1 <= c.month <= 12
  {
    DayNumber(c.year, c.month, c.day) * DAY_SECONDS + c.hour * 3600 + c.minute * 60 + c.second
  }

  /** Nanoseconds since 0000-01-01T00:00:00Z. */
  function InstantOf(c: Civil): int
    requires 1 <= c.month <= 12
  {
    Seconds(c) * NANOS + c.nanos
  }

  ghost predicate DateBefore(a: Civil, b: Civil) {
    a.year < b.year || (a.year == b.year && (a.month < b.month || (a.month == b.month && a.day < b.day)))
  }

  /** The order of the calendar fields down to the second. */
  ghost predicate SecondBefore(a: Civil, b: Civil) {
    DateBefore(a, b) || (a.year == b.year && a.month == b.month && a.day == b.day
      && (a.hour < b.hour || (a.hour == b.hour
          && (a.minute < b.minute || (a.minute == b.minute && a.second < b.second)))))
  }

  ghost predicate SameSecond(a: Civil, b: Civil) {
    a == b.(nanos := a.nanos)
  }

  lemma DateOrder(a: Civil, b: Civil)
    requires a.Valid() && b.Valid() && DateBefore(a, b)
    ensures DayNumber(a.year, a.month, a.day) < DayNumber(b.year, b.month, b.day)
  {
    MonthsMonotone(a.year, a.month, 13);
    YearLength(a.year);
    if a.year < b.year {
      YearsMonotone(a.year, b.year);
    } else if a.month < b.month {
      MonthsMonotone(a.year, a.month, b.month);
    }
  }

  /** Calendar order is time order. */
  lemma SecondOrder(a: Civil, b: Civil)
    requires a.Valid() && b.Valid()
    ensures SecondBefore(a, b) <==> Seconds(a) < Seconds(b)
    ensures SameSecond(a, b) <==> Seconds(a) == Seconds(b)
  {
    if DateBefore(a, b) {
      DateOrder(a, b);
    } else if DateBefore(b, a) {
      DateOrder(b, a);
    }
  }

  /** One past the last instant of year 9999. */
  const LIMIT: int := DaysBeforeYear(10000) * DAY_SECONDS * NANOS

  type Instant = t: int | 0 <= t < LIMIT

  function YearOfDay(day: int, from: nat): (year: nat)
    requires from < 10000 && DaysBeforeYear(from) <= day < DaysBeforeYear(10000)
    ensures from <= year < 10000 && DaysBeforeYear(year) <= day < DaysBeforeYear(year + 1)
    decreases 10000 - from
  {
    if day < DaysBeforeYear(from + 1) then from else YearOfDay(day, from + 1)
  }

  function MonthOfDay(year: nat, day: int, from: nat): (month: nat)
    requires 1 <= from <= 12 && DaysBeforeMonth(year, from) <= day < DaysBeforeMonth(year, 13)
    ensures from <= month <= 12 && DaysBeforeMonth(year, month) <= day < DaysBeforeMonth(year, month + 1)
    decreases 13 - from
  {
    if day < DaysBeforeMonth(year, from + 1) then from else MonthOfDay(year, day, from + 1)
  }

  /** Time.UTC(): the calendar fields of an instant. */
  function CivilOf(t: Instant): (c: Civil)
    ensures c.Valid()
    ensures InstantOf(c) == t
  {
    var seconds := t / NANOS;
    var day := seconds / DAY_SECONDS;
    var rest := seconds % DAY_SECONDS;
    DayInRange(t);
    var year := YearOfDay(day, 0);
    var inYear := day - DaysBeforeYear(year);
    YearLength(year);
    var month := MonthOfDay(year, inYear, 1);
    ClockFields(rest);
    Civil(year, month, inYear - DaysBeforeMonth(year, month) + 1,
          rest / 3600, rest / 60 % 60, rest % 60, t % NANOS)
  }

  lemma ClockFields(rest: int)
    requires 0 <= rest < DAY_SECONDS
    ensures rest / 3600 < 24 && rest / 3600 * 3600 + rest / 60 % 60 * 60 + rest % 60 == rest
  {
  }

  lemma DayInRange(t: Instant)
    ensures 0 <= t / NANOS / DAY_SECONDS < DaysBeforeYear(10000)
  {
  }

  lemma DateInRange(c: Civil)
    requires c.Valid()
    ensures 0 <= DayNumber(c.year, c.month, c.day) < DaysBeforeYear(10000)
  {
    MonthsMonotone(c.year, c.month, 13);
    YearLength(c.year);
    if c.year < 9999 {
      YearsMonotone(c.year, 9999);
    }
    assert DaysBeforeYear(10000) == DaysBeforeYear(9999) + 365;
  }

  lemma InstantInRange(c: Civil)
    requires c.Valid()
    ensures 0 <= InstantOf(c) < LIMIT
  {
    DateInRange(c);
    hide DayNumber, DaysBeforeYear;
    assert 0 <= Seconds(c) < DaysBeforeYear(10000) * DAY_SECONDS;
  }

  /** The calendar fields determine the instant and are determined by it. */
  lemma CivilUnique(c: Civil)
    requires c.Valid()
    ensures 0 <= InstantOf(c) < LIMIT && CivilOf(InstantOf(c)) == c
  {
    InstantInRange(c);
    var d := CivilOf(InstantOf(c));
    assert Seconds(d) == Seconds(c) && d.nanos == c.nanos;
    SecondOrder(c, d);
  }

  function TrimZeros(s: string): (r: string)
    requires AllDigits(s)
    ensures AllDigits(r) && Prefix(r, s)
    ensures r == [] || r[|r| - 1] != '0'
    ensures s == r + Zeros(|s| - |r|)
  {
    if s != [] && s[|s| - 1] == '0' then TrimZeros(s[..|s| - 1]) else s
  }

  /** The fraction digits RFC3339Nano keeps; none for a whole second. */
  function Fraction(nanos: nat): (digits: string)
    ensures AllDigits(digits)
  {
    TrimZeros(Pad(nanos, 9))
  }

  function Suffix(nanos: nat): string {
    (if nanos == 0 then "" else "." + Fraction(nanos)) + "Z"
  }

  function Stamp(c: Civil): string {
    Pad(c.year, 4) + ("-" + (Pad(c.month, 2) + ("-" + (Pad(c.day, 2) + ("T" + (Pad(c.hour, 2) +
      (":" + (Pad(c.minute, 2) + (":" + (Pad(c.second, 2) + Suffix(c.nanos)))))))))))
  }

  /** t.UTC().Format(time.RFC3339Nano). */
  function Format(t: Instant): string {
    Stamp(CivilOf(t))
  }

  lemma FormatNotEmpty(t: Instant)
    ensures Format(t) != ""
  {
  }

  lemma {:induction false} FractionZero()
    ensures Fraction(0) == ""
  {
    TrimAllZeros(9);
    assert Pad(0, 9) == Zeros(9);
  }

  lemma {:induction false} TrimAllZeros(n: nat)
    ensures TrimZeros(Zeros(n)) == ""
  {
    if n > 0 {
      assert Zeros(n)[..n - 1] == Zeros(n - 1);
      TrimAllZeros(n - 1);
    }
  }

  lemma NanoPad(n: nat)
    requires n < NANOS
    ensures |Pad(n, 9)| == 9 && Value(Pad(n, 9)) == n
    ensures Pad(n, 9) == Fraction(n) + Zeros(9 - |Fraction(n)|)
    ensures Fraction(n) == "" <==> n == 0
  {
    assert Pow10(9) == NANOS by {
      assert Pow10(3) == 1000;
      assert Pow10(6) == 1_000_000;
    }
    PadLength(n, 9);
    ValuePad(n, 9);
    FractionZero();
    if Fraction(n) == "" {
      ValueZeros(9, "");
      assert Zeros(9) + "" == Pad(n, 9);
    }
  }

  /** Within one second the texts are ordered like the times, except when the kept digits of
      the earlier fraction begin the kept digits of the later one. */
  lemma SuffixOrder(m: nat, n: nat)
    requires m < n < NANOS
    ensures TextLess(Suffix(m), Suffix(n)) <==> !Prefix(Fraction(m), Fraction(n))
    ensures TextLess(Suffix(n), Suffix(m)) <==> Prefix(Fraction(m), Fraction(n))
  {
    hide TextLess, Fraction, Pad, Value;
    NanoPad(m);
    NanoPad(n);
    var u, v := Fraction(m), Fraction(n);
    assert TextLess(Pad(m, 9), Pad(n, 9)) by {
      DigitOrder(Pad(m, 9), Pad(n, 9));
    }
    if m == 0 {
      assert Suffix(m) == "Z";
      WholeSecondLast(v);
    } else {
      FractionOrder(u, v);
      assert Suffix(m) == "." + (u + "Z") && Suffix(n) == "." + (v + "Z");
      CommonPrefix(".", u + "Z", v + "Z");
      CommonPrefix(".", v + "Z", u + "Z");
    }
  }

  lemma WholeSecondLast(v: string)
    ensures TextLess("." + v + "Z", "Z") && !TextLess("Z", "." + v + "Z") && Prefix("", v)
  {
    assert ("." + v + "Z")[0] == '.';
  }

  lemma FractionOrder(u: string, v: string)
    requires |u| <= 9 && |v| <= 9 && AllDigits(u) && AllDigits(v)
    requires TextLess(u + Zeros(9 - |u|), v + Zeros(9 - |v|))
    ensures TextLess(u + "Z", v + "Z") <==> !Prefix(u, v)
    ensures TextLess(v + "Z", u + "Z") <==> Prefix(u, v)
  {
    if Prefix(u, v) {
      assert u != v by {
        TextLessTrichotomy(u + Zeros(9 - |u|), v + Zeros(9 - |v|));
      }
      ShorterIsLater(u, v);
    } else {
      NotExtension(u, v);
      Diverge(u, v, Zeros(9 - |u|), Zeros(9 - |v|));
      Diverge(u, v, "Z", "Z");
      Diverge(v, u, "Z", "Z");
      TextLessTrichotomy(u, v);
    }
  }

  lemma ShorterIsLater(u: string, v: string)
    requires AllDigits(v) && Prefix(u, v) && u != v
    ensures TextLess(v + "Z", u + "Z") && !TextLess(u + "Z", v + "Z")
  {
    var w := v[|u|..];
    assert v == u + w && w != [];
    assert v + "Z" == u + (w + "Z");
    CommonPrefix(u, "Z", w + "Z");
    CommonPrefix(u, w + "Z", "Z");
  }

  lemma NotExtension(u: string, v: string)
    requires |u| <= 9 && |v| <= 9 && AllDigits(u)
    requires TextLess(u + Zeros(9 - |u|), v + Zeros(9 - |v|)) && !Prefix(u, v)
    ensures !Prefix(v, u)
  {
    hide TextLess, Zeros;
    if Prefix(v, u) {
      // u would be v with more digits, hence not below v followed by zeros alone
      var tail := u[|v|..] + Zeros(9 - |u|);
      assert u + Zeros(9 - |u|) == v + tail;
      CommonPrefix(v, tail, Zeros(|tail|));
      ZerosLeast(tail);
    }
  }

  lemma {:induction false} ZerosLeast(s: string)
    requires AllDigits(s)
    ensures !TextLess(s, Zeros(|s|))
  {
    if s != [] {
      ZerosLeast(s[1..]);
      assert Zeros(|s|)[1..] == Zeros(|s| - 1);
    }
  }

  lemma StampOrder(a: Civil, b: Civil)
    requires a.Valid() && b.Valid()
    ensures TextLess(Stamp(a), Stamp(b)) <==>
            SecondBefore(a, b) || (SameSecond(a, b) && TextLess(Suffix(a.nanos), Suffix(b.nanos)))
  {
    assert Pow10(2) == 100 && Pow10(4) == 10000;
    var a6, b6 := Suffix(a.nanos), Suffix(b.nanos);
    var a5, b5 := ":" + (Pad(a.second, 2) + a6), ":" + (Pad(b.second, 2) + b6);
    var a4, b4 := ":" + (Pad(a.minute, 2) + a5), ":" + (Pad(b.minute, 2) + b5);
    var a3, b3 := "T" + (Pad(a.hour, 2) + a4), "T" + (Pad(b.hour, 2) + b4);
    var a2, b2 := "-" + (Pad(a.day, 2) + a3), "-" + (Pad(b.day, 2) + b3);
    var a1, b1 := "-" + (Pad(a.month, 2) + a2), "-" + (Pad(b.month, 2) + b2);
    PadOrder(a.year, b.year, 4, a1, b1);
    CommonPrefix("-", Pad(a.month, 2) + a2, Pad(b.month, 2) + b2);
    PadOrder(a.month, b.month, 2, a2, b2);
    CommonPrefix("-", Pad(a.day, 2) + a3, Pad(b.day, 2) + b3);
    PadOrder(a.day, b.day, 2, a3, b3);
    CommonPrefix("T", Pad(a.hour, 2) + a4, Pad(b.hour, 2) + b4);
    PadOrder(a.hour, b.hour, 2, a4, b4);
    CommonPrefix(":", Pad(a.minute, 2) + a5, Pad(b.minute, 2) + b5);
    PadOrder(a.minute, b.minute, 2, a5, b5);
    CommonPrefix(":", Pad(a.second, 2) + a6, Pad(b.second, 2) + b6);
    PadOrder(a.second, b.second, 2, a6, b6);
  }

  /** Two instants are misordered by their texts exactly when they share a second and the
      fraction digits kept for the earlier begin those kept for the later. */
  ghost predicate Misordered(a: Instant, b: Instant) {
    a < b && a / NANOS == b / NANOS && Prefix(Fraction(a % NANOS), Fraction(b % NANOS))
  }

  /** The exact relation between text order and time order, for every pair of instants. */
  lemma FormatOrder(a: Instant, b: Instant)
    ensures TextLess(Format(a), Format(b)) <==> (a < b && !Misordered(a, b)) || Misordered(b, a)
  {
    var c, d := CivilOf(a), CivilOf(b);
    StampOrder(c, d);
    SecondOrder(c, d);
    assert Seconds(c) == a / NANOS && Seconds(d) == b / NANOS;
    assert c.nanos == a % NANOS && d.nanos == b % NANOS;
    if SameSecond(c, d) {
      if a < b {
        SuffixOrder(c.nanos, d.nanos);
      } else if b < a {
        SuffixOrder(d.nanos, c.nanos);
      } else {
        TextLessTrichotomy(Suffix(c.nanos), Suffix(d.nanos));
      }
    }
  }

  /** No comparison of stored times misorders instants of different seconds, in particular
      none that lie a second or more apart. */
  lemma SecondsNeverMisordered(a: Instant, b: Instant)
    ensures a / NANOS < b / NANOS ==> TextLess(Format(a), Format(b))
    ensures b - a >= NANOS ==> TextLess(Format(a), Format(b))
    ensures TextLess(Format(b), Format(a)) ==> b - a < NANOS
  {
    FormatOrder(a, b);
    FormatOrder(b, a);
  }

  /** Distinct instants have distinct texts, to the nanosecond. */
  lemma FormatInjective(a: Instant, b: Instant)
    ensures Format(a) == Format(b) <==> a == b
  {
    FormatOrder(a, b);
    FormatOrder(b, a);
    TextLessTrichotomy(Format(a), Format(b));
  }

  /** The misordering is real: every whole second sorts after each of its own fractions. */
  lemma WholeSecondSortsLate(t: Instant, n: int)
    requires t % NANOS == 0 && 0 < n < NANOS && t + n < LIMIT
    ensures Misordered(t, t + n) && TextLess(Format(t + n), Format(t))
  {
    hide Format, TextLess, Fraction;
    assert (t + n) / NANOS == t / NANOS && (t + n) % NANOS == n;
    FractionZero();
    FormatOrder(t + n, t);
  }
}
