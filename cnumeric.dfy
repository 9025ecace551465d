/** The pieces of the C library the interpreter leans on: `isspace`, `atoi`,
    `printf("%d")` and the truncating `/` of C `int`. */
module CNumeric {
  import opened Base

  /** `isspace` in the "C" locale. */
  predicate IsSpace(c: char) {
    c == ' ' || c == '\t' || c == '\n' || c == '\U{0B}' || c == '\U{0C}' || c == '\r'
  }

  predicate IsDigit(c: char) {
    '0' <= c <= '9'
  }

  predicate AllDigits(s: string) {
    forall k | 0 <= k < |s| :: IsDigit(s[k])
  }

  function DigitChar(d: nat): (c: char)
    requires d < 10
    ensures IsDigit(c) && c as int - '0' as int == d
  {
    ('0' as int + d) as char
  }

  /** What is left of `s` once `atoi` has skipped its leading white space. */
  function SkipSpace(s: string): (r: string)
    ensures |r| <= |s| && r == s[|s| - |r|..]
    ensures r == [] || !IsSpace(r[0])
    ensures forall k | 0 <= k < |s| - |r| :: IsSpace(s[k])
  {
    if s != [] && IsSpace(s[0]) then SkipSpace(s[1..]) else s
  }

  /** The longest prefix of `s` made of decimal digits. */
  function LeadingDigits(s: string): (r: string)
    ensures |r| <= |s| && r == s[..|r|] && AllDigits(r)
    ensures |r| < |s| ==> !IsDigit(s[|r|])
  {
    if s != [] && IsDigit(s[0]) then [s[0]] + LeadingDigits(s[1..]) else []
  }

  /** The number a run of decimal digits denotes, most significant first. */
  function DigitsValue(ds: string): nat
    requires AllDigits(ds)
  {
    if ds == [] then 0
    else
      var last := ds[|ds| - 1];
      assert IsDigit(last);
      DigitsValue(ds[..|ds| - 1]) * 10 + (last as int - '0' as int)
  }

  /** `atoi`, read as `strtol(s, NULL, 10)`: optional white space, an optional
      sign, then the longest run of digits; no digits at all gives 0. The
      value is the mathematical one: where it leaves the `int` range the C
      behaviour is undefined, and callers decide what that means. */
  function Atoi(s: string): int {
    var t := SkipSpace(s);
    if t != [] && t[0] == '-' then 0 - DigitsValue(LeadingDigits(t[1..]))
    else if t != [] && t[0] == '+' then DigitsValue(LeadingDigits(t[1..]))
    else DigitsValue(LeadingDigits(t))
  }

  /** The decimal digits of `n`, without leading zeros. */
  function Decimal(n: nat): (r: string)
    ensures r != [] && AllDigits(r)
  {
    if n < 10 then [DigitChar(n)] else Decimal(n / 10) + [DigitChar(n % 10)]
  }

  /** `printf("%d", v)`. */
  function IntToString(v: int): (r: string)
    ensures r != [] && (r[0] == '-' || IsDigit(r[0]))
    ensures forall k | 0 < k < |r| :: IsDigit(r[k])
  {
    if v < 0 then "-" + Decimal(-v) else Decimal(v)
  }

  lemma {:induction false} DecimalValue(n: nat)
    ensures DigitsValue(Decimal(n)) == n
  {
    if n >= 10 {
      DecimalValue(n / 10);
      var d := Decimal(n / 10) + [DigitChar(n % 10)];
      assert d[..|d| - 1] == Decimal(n / 10);
    }
  }

  lemma {:induction false} LeadingDigitsOfDigits(s: string)
    requires AllDigits(s)
    ensures LeadingDigits(s) == s
  {
    if s != [] {
      LeadingDigitsOfDigits(s[1..]);
      assert s == [s[0]] + s[1..];
    }
  }

  /** `atoi` reads back what `Decimal` writes. */
  lemma AtoiDecimal(n: nat)
    ensures Atoi(Decimal(n)) == n
  {
    var d := Decimal(n);
    assert SkipSpace(d) == d;
    LeadingDigitsOfDigits(d);
    DecimalValue(n);
  }

  /** Round trip: `atoi` of the `%d` rendering of any integer is that integer. */
  lemma AtoiIntToString(v: int)
    ensures Atoi(IntToString(v)) == v
  {
    if v < 0 {
      var t := "-" + Decimal(-v);
      assert SkipSpace(t) == t;
      assert t[1..] == Decimal(-v);
      LeadingDigitsOfDigits(Decimal(-v));
      DecimalValue(-v);
    } else {
      AtoiDecimal(v);
    }
  }

  /** `atoi`'s leniency: text that (after white space and a sign) does not
      start with a digit reads as 0. */
  lemma AtoiNonNumeric(s: string)
    requires var t := SkipSpace(s);
             var u := if t != [] && (t[0] == '-' || t[0] == '+') then t[1..] else t;
             u == [] || !IsDigit(u[0])
    ensures Atoi(s) == 0
  {
  }

  /** C99 `/` on `int`: the quotient truncated toward zero. */
  function CDiv(a: int, b: int): int
    requires b != 0
  {
    if a >= 0 then (if b > 0 then a / b else -(a / -b))
    else (if b > 0 then -(-a / b) else -a / -b)
  }

  function Abs(x: int): int {
    if x < 0 then -x else x
  }

  /** `CDiv` is truncating division: the remainder it leaves has the sign of
      the dividend and is smaller than the divisor in magnitude (unlike
      Dafny's Euclidean `/`, whose remainder is never negative). */
  lemma CDivTruncates(a: int, b: int)
    requires b != 0
    ensures var r := a - CDiv(a, b) * b;
            (a >= 0 ==> 0 <= r < Abs(b)) && (a < 0 ==> -Abs(b) < r <= 0)
    ensures Abs(CDiv(a, b)) <= Abs(a)
  {
    var p, q := Abs(a), Abs(b);
    var m, d := p / q, CDiv(a, b);
    DivRem(p, q);
    DivBound(p, q);
    if a >= 0 && b > 0 {
      assert d == m && b == q;
      SameProduct(d, b, m, q);
    } else if a >= 0 && b < 0 {
      assert d == -m && b == -q;
      NegTimesNeg(m, q);
      SameProduct(d, b, -m, -q);
    } else if a < 0 && b > 0 {
      assert d == -m && b == q;
      NegTimesPos(m, q);
      SameProduct(d, b, -m, q);
    } else {
      assert d == m && b == -q;
      NegTimesPos(q, m);
      SameProduct(d, b, m, -q);
    }
  }

  lemma SameProduct(x: int, y: int, x': int, y': int)
    requires x == x' && y == y'
    ensures x * y == x' * y'
  {
  }

  lemma DivRem(p: nat, q: nat)
    requires q > 0
    ensures p == (p / q) * q + p % q && 0 <= p % q < q
  {
  }

  lemma NegTimesNeg(x: int, y: int)
    ensures (-x) * (-y) == x * y
  {
  }

  lemma NegTimesPos(x: int, y: int)
    ensures (-x) * y == -(x * y)
  {
  }

  lemma DivBound(p: nat, q: nat)
    requires q > 0
    ensures p / q <= p
  {
    var m := p / q;
    assert p == m * q + p % q;
    assert m * q == m + m * (q - 1);
    MulNonNegative(m, q - 1);
  }

  lemma DivLess(p: nat, q: nat)
    requires q >= 2 && p > 0
    ensures p / q < p
  {
    var m := p / q;
    assert p == m * q + p % q;
    assert m * q == 2 * m + m * (q - 2);
    MulNonNegative(m, q - 2);
  }

  lemma MulNonNegative(x: nat, y: nat)
    ensures x * y >= 0
  {
  }

  /** The one `int` division that overflows is `INT_MIN / -1`. */
  lemma CDivInRange(a: int, b: int)
    requires InInt32(a) && InInt32(b) && b != 0
    ensures InInt32(CDiv(a, b)) <==> !(a == -0x8000_0000 && b == -1)
  {
    CDivTruncates(a, b);
    if a == -0x8000_0000 && b < -1 {
      DivLess(0x8000_0000, -b);
    }
  }
}
