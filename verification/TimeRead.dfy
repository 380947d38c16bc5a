/** The calendar behind the time texts, and that each text reads back, field by field, as section 5.6 of
    RFC 3339 lays it out. */
module TimeRead {
  import opened Text
  import opened TimeText

  // ---- the calendar ----

  /** Days before a year of the Gregorian calendar, counted without going through the years before it: one
      more for every fourth year, but not for every hundredth unless it is a four-hundredth. */
  lemma {:induction false} DaysCounted(year: nat)
    ensures DaysBeforeYear(year) == 365 * year + (year + 3) / 4 - (year + 99) / 100 + (year + 399) / 400
  {
    if year > 0 {
      DaysCounted(year - 1);
      Quarters(year - 1);
      Centuries(year - 1);
      Cycles(year - 1);
      Nested(year - 1);
    }
  }

  lemma Quarters(y: nat)
    ensures (y + 4) / 4 == (y + 3) / 4 + if y % 4 == 0 then 1 else 0
  {
  }

  lemma Centuries(y: nat)
    ensures (y + 100) / 100 == (y + 99) / 100 + if y % 100 == 0 then 1 else 0
  {
  }

  lemma Cycles(y: nat)
    ensures (y + 400) / 400 == (y + 399) / 400 + if y % 400 == 0 then 1 else 0
  {
  }

  lemma Nested(y: nat)
    ensures y % 400 == 0 ==> y % 100 == 0
    ensures y % 100 == 0 ==> y % 4 == 0
  {
    if y % 400 == 0 {
      InHundreds(y / 400);
    }
    if y % 100 == 0 {
      InFours(y / 100);
    }
  }

  lemma InHundreds(q: nat)
    ensures (400 * q) % 100 == 0
  {
    var x := 4 * q;
    HundredTimes(x);
    assert 100 * x == 400 * q;
  }

  lemma InFours(q: nat)
    ensures (100 * q) % 4 == 0
  {
    var x := 25 * q;
    FourTimes(x);
    assert 4 * x == 100 * q;
  }

  lemma HundredTimes(x: nat)
    ensures (100 * x) % 100 == 0
  {
  }

  lemma FourTimes(x: nat)
    ensures (4 * x) % 4 == 0
  {
  }

  /** Months alternate between 31 and 30 days, starting again with August, but for February, which has what
      is left of the year. */
  lemma MonthsAlternate(year: nat, month: nat)
    requires 1 <= month <= 12
    ensures MonthLength(year, month) ==
      if month == 2 then DaysBeforeYear(year + 1) - DaysBeforeYear(year) - 337 else 30 + (month + month / 8) % 2
  {
  }

  // ---- the text ----

  /** A number in decimal between two places of a text. */
  predicate Reads(s: string, i: nat, j: nat, n: nat) {
    i <= j <= |s| && AllDigits(s[i..j]) && Value(s[i..j]) == n
  }

  /** The fraction between the point and the Z, without trailing zeros, in nanoseconds. */
  predicate ReadsFraction(s: string, nanos: nat) {
    && 22 <= |s| <= 30 && s[19] == '.' && s[|s| - 2] != '0' && AllDigits(s[20..|s| - 1])
    && Value(s[20..|s| - 1] + Zeros(30 - |s|)) == nanos
  }

  lemma Two(n: nat)
    requires n < 100
    ensures |Pad(n, 2)| == 2 && Value(Pad(n, 2)) == n
  {
    assert Pow10(2) == 100;
    PadLength(n, 2);
    ValuePad(n, 2);
  }

  lemma Four(n: nat)
    requires n < 10000
    ensures |Pad(n, 4)| == 4 && Value(Pad(n, 4)) == n
  {
    assert Pow10(2) == 100 && Pow10(4) == 10000;
    PadLength(n, 4);
    ValuePad(n, 4);
  }

  /** A field of a text, and what follows it. */
  lemma Field(s: string, i: nat, field: string, rest: string)
    requires i <= |s| && s[i..] == field + rest
    ensures i + |field| <= |s| && s[i..i + |field|] == field && s[i + |field|..] == rest
  {
    assert s[i..][..|field|] == s[i..i + |field|];
    assert s[i..][|field|..] == s[i + |field|..];
  }

  /** Two digits and the character after them. */
  lemma Pair(s: string, i: nat, n: nat, mark: string, rest: string)
    requires n < 100 && |mark| == 1 && i <= |s| && s[i..] == Pad(n, 2) + (mark + rest)
    ensures i + 3 <= |s| && Reads(s, i, i + 2, n) && s[i + 2] == mark[0] && s[i + 3..] == rest
  {
    hide Pad, Value, AllDigits;
    Two(n);
    Field(s, i, Pad(n, 2), mark + rest);
    Field(s, i + 2, mark, rest);
    assert s[i + 2] == s[i + 2..i + 3][0];
  }

  /** A whole second ends in Z alone. */
  lemma WholeEnding(s: string)
    requires |s| >= 19 && s[19..] == Suffix(0)
    ensures |s| == 20 && s[19] == 'Z'
  {
    hide Fraction;
    assert s[19] == s[19..][0];
  }

  /** A fraction stands between a point and the Z. */
  lemma FractionPlaced(s: string, digits: string)
    requires |s| >= 19 && s[19..] == "." + (digits + "Z") && digits != ""
    ensures |s| == 21 + |digits| && s[19] == '.' && s[20..|s| - 1] == digits && s[|s| - 1] == 'Z'
    ensures s[|s| - 2] == digits[|digits| - 1]
  {
    Field(s, 19, ".", digits + "Z");
    Field(s, 20, digits, "Z");
    assert s[19] == s[19..20][0];
    assert s[20 + |digits|] == s[20 + |digits|..][0];
    assert s[20 + |digits| - 1] == s[20..20 + |digits|][|digits| - 1];
  }

  lemma FractionEnding(s: string, nanos: nat, digits: string)
    requires |s| >= 19 && s[19..] == "." + (digits + "Z") && digits != "" && |digits| <= 9 && AllDigits(digits)
    requires digits[|digits| - 1] != '0' && Value(digits + Zeros(9 - |digits|)) == nanos
    ensures ReadsFraction(s, nanos) && s[|s| - 1] == 'Z'
  {
    FractionPlaced(s, digits);
    hide Value, Zeros, AllDigits;
    assert 30 - |s| == 9 - |digits|;
  }

  /** The end of the text from the seconds on. */
  lemma Ending(s: string, second: nat, nanos: nat)
    requires |s| >= 17 && second < 60 && nanos < NANOS && s[17..] == Pad(second, 2) + Suffix(nanos)
    ensures |s| >= 20 && Reads(s, 17, 19, second) && s[|s| - 1] == 'Z'
    ensures if nanos == 0 then |s| == 20 else ReadsFraction(s, nanos)
  {
    hide Pad, Value, Fraction, Zeros, AllDigits, Suffix, ReadsFraction;
    Two(second);
    Field(s, 17, Pad(second, 2), Suffix(nanos));
    if nanos == 0 {
      WholeEnding(s);
    } else {
      NanoPad(nanos);
      LastDigit(nanos);
      FractionSuffix(nanos);
      FractionEnding(s, nanos, Fraction(nanos));
    }
  }

  lemma FractionSuffix(nanos: nat)
    requires nanos > 0
    ensures Suffix(nanos) == "." + (Fraction(nanos) + "Z")
  {
    hide Fraction;
  }

  lemma LastDigit(nanos: nat)
    requires Fraction(nanos) != ""
    ensures Fraction(nanos)[|Fraction(nanos)| - 1] != '0'
  {
  }

  lemma YearPlaced(s: string, year: nat, rest: string)
    requires year < 10000 && s == Pad(year, 4) + ("-" + rest)
    ensures |s| >= 5 && Reads(s, 0, 4, year) && s[4] == '-' && s[5..] == rest
  {
    hide Pad, Value, AllDigits;
    Four(year);
    assert s[0..] == s;
    Field(s, 0, Pad(year, 4), "-" + rest);
    Field(s, 4, "-", rest);
    assert s[4] == s[4..5][0];
  }

  lemma DateReads(s: string, year: nat, month: nat, day: nat, rest: string)
    requires year < 10000 && month < 100 && day < 100
    requires s == Pad(year, 4) + ("-" + (Pad(month, 2) + ("-" + (Pad(day, 2) + ("T" + rest)))))
    ensures |s| >= 11 && Reads(s, 0, 4, year) && Reads(s, 5, 7, month) && Reads(s, 8, 10, day)
    ensures s[4] == '-' && s[7] == '-' && s[10] == 'T' && s[11..] == rest
  {
    hide Pad, Reads;
    YearPlaced(s, year, Pad(month, 2) + ("-" + (Pad(day, 2) + ("T" + rest))));
    Pair(s, 5, month, "-", Pad(day, 2) + ("T" + rest));
    Pair(s, 8, day, "T", rest);
  }

  lemma ClockReads(s: string, hour: nat, minute: nat, rest: string)
    requires hour < 100 && minute < 100 && |s| >= 11
    requires s[11..] == Pad(hour, 2) + (":" + (Pad(minute, 2) + (":" + rest)))
    ensures |s| >= 17 && Reads(s, 11, 13, hour) && Reads(s, 14, 16, minute)
    ensures s[13] == ':' && s[16] == ':' && s[17..] == rest
  {
    hide Pad, Reads;
    Pair(s, 11, hour, ":", Pad(minute, 2) + (":" + rest));
    Pair(s, 14, minute, ":", rest);
  }

  /** Every instant of the years 0 to 9999 is written as its calendar fields with the separators of RFC 3339,
      and its fraction, if any, without trailing zeros; so it reads back to the nanosecond. */
  lemma FormatReads(t: Instant)
    ensures var s, c := Format(t), CivilOf(t);
      && c.Valid() && InstantOf(c) == t && |s| >= 20
      && s[4] == '-' && s[7] == '-' && s[10] == 'T' && s[13] == ':' && s[16] == ':' && s[|s| - 1] == 'Z'
      && Reads(s, 0, 4, c.year) && Reads(s, 5, 7, c.month) && Reads(s, 8, 10, c.day) && Reads(s, 11, 13, c.hour)
      && Reads(s, 14, 16, c.minute) && Reads(s, 17, 19, c.second)
      && if c.nanos == 0 then |s| == 20 else ReadsFraction(s, c.nanos)
  {
    var c := CivilOf(t);
    hide CivilOf, Pad, Value, AllDigits, Suffix, MonthLength, InstantOf, ReadsFraction, Reads;
    var s := Format(t);
    var tail := Pad(c.second, 2) + Suffix(c.nanos);
    var clock := Pad(c.hour, 2) + (":" + (Pad(c.minute, 2) + (":" + tail)));
    DateReads(s, c.year, c.month, c.day, clock);
    ClockReads(s, c.hour, c.minute, tail);
    Ending(s, c.second, c.nanos);
  }
}
