/** Decimal text and bytewise comparison of strings, as Go's strconv and fmt produce them
    and as SQLite compares them. A string holds one char per byte. */
module Text {

  predicate IsDigit(c: char) {
    '0' <= c <= '9'
  }

  predicate AllDigits(s: string) {
    forall k :: 0 <= k < |s| ==> IsDigit(s[k])
  }

  function DigitChar(d: nat): (c: char)
    requires d < 10
    ensures IsDigit(c) && c as int - '0' as int == d
  {
    ('0' as int + d) as char
  }

  function Pow10(w: nat): (p: nat)
    ensures p > 0
  {
    if w == 0 then 1 else 10 * Pow10(w - 1)
  }

  /** strconv.Itoa for a number that is not negative. */
  function Itoa(n: nat): (s: string)
    ensures |s| > 0 && AllDigits(s)
  {
    if n < 10 then [DigitChar(n)] else Itoa(n / 10) + [DigitChar(n % 10)]
  }

  /** The number a string of decimal digits denotes. */
  function Value(s: string): nat
    requires AllDigits(s)
  {
    if s == [] then 0
    else 10 * Value(s[..|s| - 1]) + (s[|s| - 1] as int - '0' as int)
  }

  function Zeros(n: nat): (s: string)
    ensures |s| == n && AllDigits(s)
    ensures forall k :: 0 <= k < n ==> s[k] == '0'
  {
    seq(n, _ => '0')
  }

  /** fmt's %0wd: at least w digits, more when the number needs more. */
  function Pad(n: nat, w: nat): (s: string)
    ensures |s| >= w && |s| > 0 && AllDigits(s)
  {
    var digits := Itoa(n);
    if |digits| >= w then digits else Zeros(w - |digits|) + digits
  }

  lemma {:induction false} ValueItoa(n: nat)
    ensures Value(Itoa(n)) == n
  {
    if n >= 10 {
      ValueItoa(n / 10);
      assert Itoa(n)[..|Itoa(n)| - 1] == Itoa(n / 10);
    }
  }

  lemma {:induction false} ValueZeros(k: nat, s: string)
    requires AllDigits(s)
    ensures Value(Zeros(k) + s) == Value(s)
  {
    if s == [] {
      assert Zeros(k) + s == Zeros(k);
      if k > 0 {
        assert Zeros(k)[..k - 1] == Zeros(k - 1);
        ValueZeros(k - 1, s);
        assert Zeros(k - 1) + s == Zeros(k - 1);
      }
    } else {
      ValueZeros(k, s[..|s| - 1]);
      assert (Zeros(k) + s)[..k + |s| - 1] == Zeros(k) + s[..|s| - 1];
    }
  }

  lemma ValuePad(n: nat, w: nat)
    ensures Value(Pad(n, w)) == n
  {
    ValueItoa(n);
    if |Itoa(n)| < w {
      ValueZeros(w - |Itoa(n)|, Itoa(n));
    }
  }

  lemma {:induction false} ValueBound(s: string)
    requires AllDigits(s)
    ensures Value(s) < Pow10(|s|)
  {
    if s != [] {
      ValueBound(s[..|s| - 1]);
    }
  }

  lemma {:induction false} ItoaLength(n: nat, w: nat)
    requires w > 0
    ensures |Itoa(n)| <= w <==> n < Pow10(w)
  {
    if n < 10 {
      PowMonotone(1, w);
      assert Pow10(1) == 10;
    } else if w == 1 {
      assert Pow10(1) == 10;
    } else {
      ItoaLength(n / 10, w - 1);
    }
  }

  lemma {:induction false} PowMonotone(a: nat, b: nat)
    requires a <= b
    ensures Pow10(a) <= Pow10(b)
  {
    if a < b {
      PowMonotone(a, b - 1);
    }
  }

  /** %0wd has width exactly w precisely for the numbers below 10^w. */
  lemma PadLength(n: nat, w: nat)
    requires w > 0
    ensures |Pad(n, w)| == w <==> n < Pow10(w)
  {
    ItoaLength(n, w);
  }

  /** Bytewise order: SQLite's BINARY collation on TEXT. */
  predicate TextLess(a: string, b: string) {
    b != [] && (a == [] || a[0] < b[0] || (a[0] == b[0] && TextLess(a[1..], b[1..])))
  }

  lemma {:induction false} TextLessTrichotomy(a: string, b: string)
    ensures !(TextLess(a, b) && TextLess(b, a))
    ensures !TextLess(a, a)
    ensures TextLess(a, b) || a == b || TextLess(b, a)
  {
    if a != [] {
      TextLessTrichotomy(a[1..], a[1..]);
    }
    if a != [] && b != [] && a[0] == b[0] {
      TextLessTrichotomy(a[1..], b[1..]);
      assert a == [a[0]] + a[1..] && b == [b[0]] + b[1..];
    }
  }

  lemma {:induction false} TextLessTransitive(a: string, b: string, c: string)
    requires !TextLess(b, a) && !TextLess(c, b)
    ensures !TextLess(c, a)
  {
    if a != [] && c != [] && b != [] && a[0] == c[0] && a[0] == b[0] {
      TextLessTransitive(a[1..], b[1..], c[1..]);
    }
  }

  lemma {:induction false} CommonPrefix(p: string, a: string, b: string)
    ensures TextLess(p + a, p + b) <==> TextLess(a, b)
  {
    if p == [] {
      assert p + a == a && p + b == b;
    } else {
      CommonPrefix(p[1..], a, b);
      assert (p + a)[1..] == p[1..] + a && (p + b)[1..] == p[1..] + b;
    }
  }

  predicate Prefix(a: string, b: string) {
    |a| <= |b| && b[..|a|] == a
  }

  /** When neither string is a prefix of the other, what follows them does not matter. */
  lemma {:induction false} Diverge(u: string, v: string, x: string, y: string)
    requires !Prefix(u, v) && !Prefix(v, u)
    ensures TextLess(u + x, v + y) <==> TextLess(u, v)
  {
    assert (u + x)[0] == u[0] && (v + y)[0] == v[0];
    assert (u + x)[1..] == u[1..] + x && (v + y)[1..] == v[1..] + y;
    if u[0] == v[0] {
      assert u == [u[0]] + u[1..] && v == [v[0]] + v[1..];
      Diverge(u[1..], v[1..], x, y);
    }
  }

  lemma {:induction false} ValueFirst(s: string)
    requires s != [] && AllDigits(s)
    ensures Value(s) == (s[0] as int - '0' as int) * Pow10(|s| - 1) + Value(s[1..])
  {
    if |s| > 1 {
      ValueFirst(s[..|s| - 1]);
      assert s[..|s| - 1][1..] == s[1..][..|s| - 2];
      TimesTen(s[0] as int - '0' as int, Pow10(|s| - 2));
    }
  }

  lemma TimesTen(d: int, p: int)
    ensures d * (10 * p) == 10 * (d * p)
  {
  }

  /** On digit strings of one length, bytewise order is numeric order. */
  lemma {:induction false} DigitOrder(a: string, b: string)
    requires |a| == |b| && AllDigits(a) && AllDigits(b)
    ensures TextLess(a, b) <==> Value(a) < Value(b)
    ensures a == b <==> Value(a) == Value(b)
  {
    if a != [] {
      DigitOrder(a[1..], b[1..]);
      ValueFirst(a);
      ValueFirst(b);
      ValueBound(a[1..]);
      ValueBound(b[1..]);
      assert a == [a[0]] + a[1..] && b == [b[0]] + b[1..];
      FirstDigitDecides(a[0] as int - '0' as int, b[0] as int - '0' as int,
                        Pow10(|a| - 1), Value(a[1..]), Value(b[1..]));
    }
  }

  lemma FirstDigitDecides(d: int, e: int, p: int, x: int, y: int)
    requires 0 <= x < p && 0 <= y < p
    ensures d < e ==> d * p + x < e * p + y
    ensures d > e ==> d * p + x > e * p + y
  {
    if d < e {
      assert (d + 1) * p <= e * p;
    } else if d > e {
      assert (e + 1) * p <= d * p;
    }
  }

  /** Fixed-width fields compare as numbers, then by what follows them. */
  lemma PadOrder(m: nat, n: nat, w: nat, x: string, y: string)
    requires w > 0 && m < Pow10(w) && n < Pow10(w)
    ensures TextLess(Pad(m, w) + x, Pad(n, w) + y) <==> m < n || (m == n && TextLess(x, y))
  {
    PadLength(m, w);
    PadLength(n, w);
    ValuePad(m, w);
    ValuePad(n, w);
    DigitOrder(Pad(m, w), Pad(n, w));
    if m == n {
      CommonPrefix(Pad(m, w), x, y);
    } else {
      assert Pad(n, w)[..w] == Pad(n, w) && Pad(m, w)[..w] == Pad(m, w);
      Diverge(Pad(m, w), Pad(n, w), x, y);
    }
  }

  /** The bytes of s from position i on begin with t. */
  predicate HasAt(s: string, i: nat, t: string) {
    i + |t| <= |s| && s[i..i + |t|] == t
  }

  /** strings.Contains, and SQLite's instr(s, t) > 0. */
  predicate Contains(s: string, t: string) {
    exists i :: 0 <= i <= |s| - |t| && HasAt(s, i, t)
  }

  /** strings.Join. */
  function Join(parts: seq<string>, sep: string): string {
    if |parts| == 0 then ""
    else if |parts| == 1 then parts[0]
    else parts[0] + sep + Join(parts[1..], sep)
  }

  function LowerChar(c: char): char {
    if 'A' <= c <= 'Z' then (c as int + 32) as char else c
  }

  /** strings.ToLower on ASCII text. */
  function Lower(s: string): string {
    seq(|s|, i requires 0 <= i < |s| => LowerChar(s[i]))
  }

  function HexDigit(n: nat): char
    requires n < 16
  {
    "0123456789abcdef"[n]
  }
}
