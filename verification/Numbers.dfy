/** Setpoints: which numbers are accepted and how they are written (driver.py, _format_number). */
module Numbers {

  import opened Wrappers
  import opened Errors

  /** decimal.Decimal, finite: sign, coefficient and exponent. */
  datatype Decimal = Decimal(neg: bool, coeff: nat, exp: int)

  /** What the caller passes: a finite number as Decimal(str(value)) reads it, an infinity or a NaN, or
      something that is not a real number. */
  datatype Input = Finite(d: Decimal) | NotFinite | NotReal

  function Ten(n: nat): nat {
    if n == 0 then 1 else 10 * Ten(n - 1)
  }

  function Signed(d: Decimal): int {
    if d.neg then 0 - d.coeff else d.coeff
  }

  /** c times ten to the e */
  function Shifted(c: int, e: int): real
    decreases if e < 0 then -e else e
  {
    if e == 0 then c as real else if e > 0 then 10.0 * Shifted(c, e - 1) else Shifted(c, e + 1) / 10.0
  }

  /** The number a decimal stands for. */
  function Value(d: Decimal): real {
    Shifted(Signed(d), d.exp)
  }

  /** The number in units of ten to the e. */
  function Scaled(d: Decimal, e: int): int
    requires e <= d.exp
  {
    Signed(d) * Ten(d.exp - e)
  }

  function Lower(a: int, b: int): int {
    if a < b then a else b
  }

  predicate AtMost(a: Decimal, b: Decimal) {
    var e := Lower(a.exp, b.exp);
    Scaled(a, e) <= Scaled(b, e)
  }

  /** The number without its sign, in units of ten to the e. */
  function Units(d: Decimal, e: int): nat
    requires e <= d.exp
  {
    TenIsPositive(d.exp - e);
    ProductIsNat(d.coeff, Ten(d.exp - e));
    d.coeff * Ten(d.exp - e)
  }

  lemma ProductIsNat(c: nat, t: nat)
    ensures c * t >= 0
  {
  }

  lemma UnitsArePositive(d: Decimal, e: int)
    requires d.coeff > 0 && e <= d.exp
    ensures Units(d, e) > 0
  {
    TenIsPositive(d.exp - e);
  }

  /** The exact remainder of the division of a by b, with the sign of a. */
  function Remainder(a: Decimal, b: Decimal): Decimal
    requires b.coeff > 0
  {
    var e := Lower(a.exp, b.exp);
    UnitsArePositive(b, e);
    Decimal(a.neg, Units(a, e) % Units(b, e), e)
  }

  lemma {:induction false} TenIsPositive(n: nat)
    ensures Ten(n) > 0
  {
    if n > 0 {
      TenIsPositive(n - 1);
    }
  }

  lemma {:induction false} ShiftedCompares(x: int, y: int, e: int)
    ensures x <= y <==> Shifted(x, e) <= Shifted(y, e)
    decreases if e < 0 then -e else e
  {
    if e > 0 {
      ShiftedCompares(x, y, e - 1);
    } else if e < 0 {
      ShiftedCompares(x, y, e + 1);
    }
  }

  lemma {:induction false} ShiftedTimes(k: int, c: int, e: int)
    ensures Shifted(k * c, e) == k as real * Shifted(c, e)
    decreases if e < 0 then -e else e
  {
    if e == 0 {
      assert (k * c) as real == k as real * c as real;
    } else if e > 0 {
      ShiftedTimes(k, c, e - 1);
    } else {
      ShiftedTimes(k, c, e + 1);
    }
  }

  /** Ten of a unit is one of the next. */
  lemma ShiftedNext(c: int, e: int)
    ensures Shifted(10 * c, e) == Shifted(c, e + 1)
  {
    ShiftedTimes(10, c, e);
  }

  lemma {:induction false} ShiftedRescales(c: int, high: int, low: int)
    requires low <= high
    ensures Shifted(c, high) == Shifted(c * Ten(high - low), low)
    decreases high - low
  {
    if low < high {
      ShiftedRescales(c, high, low + 1);
      ShiftedNext(c * Ten(high - low - 1), low);
      TenTimes(c, Ten(high - low - 1));
    }
  }

  lemma TenTimes(b: int, t: int)
    ensures b * (10 * t) == 10 * (b * t)
  {
  }

  /** In units of ten to any lower exponent a decimal is a whole number. */
  lemma ValueOfScaled(d: Decimal, e: int)
    requires e <= d.exp
    ensures Value(d) == Shifted(Scaled(d, e), e)
  {
    ShiftedRescales(Signed(d), d.exp, e);
  }

  /** Comparing decimals compares the numbers. */
  lemma AtMostIsLess(a: Decimal, b: Decimal)
    ensures AtMost(a, b) <==> Value(a) <= Value(b)
  {
    var e := Lower(a.exp, b.exp);
    ValueOfScaled(a, e);
    ValueOfScaled(b, e);
    ShiftedCompares(Scaled(a, e), Scaled(b, e), e);
  }

  /** a is k times b. */
  predicate IsTimes(k: int, b: real, a: real) {
    a == k as real * b
  }

  lemma ShiftedMultiple(k: int, y: int, x: int, e: int)
    ensures IsTimes(k, Shifted(y, e), Shifted(x, e)) <==> x == k * y
  {
    ShiftedTimes(k, y, e);
    ShiftedCompares(x, k * y, e);
    ShiftedCompares(k * y, x, e);
  }

  lemma RemainderOfShifted(y: int, x: int, e: int)
    requires y != 0
    ensures x % y == 0 <==> exists k: int :: IsTimes(k, Shifted(y, e), Shifted(x, e))
  {
    if x % y == 0 {
      ShiftedMultiple(x / y, y, x, e);
    }
    if k: int :| IsTimes(k, Shifted(y, e), Shifted(x, e)) {
      ShiftedMultiple(k, y, x, e);
      MultipleHasNoRemainder(k, y);
    }
  }

  /** Whole units, counted without signs, leave no remainder exactly when the signed ones are a multiple. */
  lemma SignsDoNotMatter(x: nat, y: nat, sx: int, sy: int)
    requires y > 0 && (sx == x || sx == 0 - x) && (sy == y || sy == 0 - y)
    ensures x % y == 0 <==> sx % sy == 0
  {
    if x % y == 0 {
      SignedMultiple(x, y, sx, sy);
    }
    if sx % sy == 0 {
      SignedMultiple(sx, sy, x, y);
    }
  }

  lemma SignedMultiple(x: int, y: int, sx: int, sy: int)
    requires y != 0 && (sx == x || sx == 0 - x) && (sy == y || sy == 0 - y) && x % y == 0
    ensures sx % sy == 0
  {
    var q := x / y;
    SignedProducts(q, y);
    MultipleHasNoRemainder(if (sx == x) == (sy == y) then q else 0 - q, sy);
  }

  lemma SignedProducts(q: int, y: int)
    ensures (0 - q) * y == 0 - q * y && (0 - q) * (0 - y) == q * y && q * (0 - y) == 0 - q * y
  {
  }

  /** The exact remainder is zero exactly for the whole multiples. */
  lemma RemainderIsZero(a: Decimal, b: Decimal)
    requires b.coeff > 0
    ensures Remainder(a, b).coeff == 0 <==> exists k: int :: IsTimes(k, Value(b), Value(a))
  {
    var e := Lower(a.exp, b.exp);
    UnitsArePositive(b, e);
    ValueOfScaled(a, e);
    ValueOfScaled(b, e);
    SignedUnits(a, e);
    SignedUnits(b, e);
    SignsDoNotMatter(Units(a, e), Units(b, e), Scaled(a, e), Scaled(b, e));
    RemainderOfShifted(Scaled(b, e), Scaled(a, e), e);
  }

  lemma SignedUnits(d: Decimal, e: int)
    requires e <= d.exp
    ensures Scaled(d, e) == if d.neg then 0 - Units(d, e) else Units(d, e)
  {
    assert (0 - d.coeff) * Ten(d.exp - e) == 0 - d.coeff * Ten(d.exp - e);
  }

  lemma MultipleHasNoRemainder(k: int, y: int)
    requires y != 0
    ensures (k * y) % y == 0
  {
    var q, r := (k * y) / y, (k * y) % y;
    assert (k - q) * y == r;
    SmallMultiple(k - q, y);
  }

  lemma SmallMultiple(m: int, y: int)
    requires 0 <= m * y < (if y > 0 then y else -y)
    ensures m * y == 0
  {
    if y > 0 {
      SmallNatMultiple(m, y);
    } else if y < 0 {
      assert (-m) * (-y) == m * y;
      SmallNatMultiple(-m, -y);
    }
  }

  lemma SmallNatMultiple(m: int, y: nat)
    requires 0 <= m * y < y
    ensures m == 0
  {
    assert m >= 1 ==> (m - 1) * y >= 0;
    assert m <= -1 ==> (-1 - m) * y >= 0;
  }

  // ----- the text -----

  const DIGITS := "0123456789"

  predicate IsDigit(c: char) {
    '0' <= c <= '9'
  }

  predicate AllDigits(s: string) {
    forall i :: 0 <= i < |s| ==> IsDigit(s[i])
  }

  function Digits(n: nat): (s: string)
    ensures |s| > 0 && AllDigits(s)
  {
    if n < 10 then [DIGITS[n]] else Digits(n / 10) + [DIGITS[n % 10]]
  }

  function Zeros(n: nat): string {
    seq(n, _ => '0')
  }

  /** Drop the factors of ten from the coefficient; zero gets exponent zero. */
  function Normalize(d: Decimal): Decimal
    decreases d.coeff
  {
    if d.coeff == 0 then d.(exp := 0)
    else if d.coeff % 10 == 0 then Normalize(Decimal(d.neg, d.coeff / 10, d.exp + 1))
    else d
  }

  /** The digits of a decimal, with the point where its exponent puts it. */
  function Unsigned(d: Decimal): string {
    var digits := Digits(d.coeff);
    if d.exp >= 0 then digits + Zeros(d.exp)
    else
      var k := -d.exp;
      if |digits| > k then digits[..|digits| - k] + "." + digits[|digits| - k..]
      else "0." + Zeros(k - |digits|) + digits
  }

  /** a % b == 0, the remainder being rounded first. */
  predicate Divides(b: Decimal, a: Decimal)
    requires b.coeff > 0
  {
    Round(Remainder(a, b)).coeff == 0
  }

  /** format(d, "f") */
  function Fixed(d: Decimal): string {
    if d.neg then "-" + Unsigned(d) else Unsigned(d)
  }

  /** The digits the decimal context keeps. */
  const PRECISION: nat := 28

  /** The lowest exponent of the decimal context: what lies below underflows. */
  const TINY: int := -1000026

  /** How many digits rounding drops: those beyond the precision, and those below the lowest exponent. */
  function Excess(d: Decimal): nat {
    var long, low := |Digits(d.coeff)| - PRECISION, TINY - d.exp;
    if long <= 0 && low <= 0 then 0 else if long > low then long else low
  }

  /** Round the coefficient c, half to even, after dropping a unit t of it. */
  function HalfEven(c: nat, t: nat): nat
    requires t > 0
  {
    var q, r := c / t, c % t;
    if 2 * r > t || (2 * r == t && q % 2 == 1) then q + 1 else q
  }

  /** The rounding that normalize() applies before it drops zeros, and % to its result. */
  function Round(d: Decimal): Decimal {
    var k := Excess(d);
    TenIsPositive(k);
    Decimal(d.neg, HalfEven(d.coeff, Ten(k)), d.exp + k)
  }

  function Rendered(d: Decimal): string {
    var text := Fixed(Normalize(Round(d)));
    if text == "-0" then "0" else text
  }

  function FormatNumber(name: string, input: Input, minimum: Decimal, maximum: Decimal, resolution: Option<Decimal>): Result<string, Error>
    requires resolution.Some? ==> resolution.value.coeff > 0
  {
    match input
    case NotReal => Failure(ValidationError(name + " must be a real number"))
    case NotFinite => Failure(ValidationError(name + " must be finite"))
    case Finite(d) =>
      if !(AtMost(minimum, d) && AtMost(d, maximum)) then Failure(ValidationError(name + " must be between"))
      else if resolution.Some? && !Divides(resolution.value, d) then Failure(ValidationError(name + " must align to the resolution"))
      else Success(Rendered(d))
  }

  /** A remainder that is not zero but underflows to it. */
  predicate Underflows(r: Decimal) {
    r.coeff > 0 && r.exp < TINY && 2 * r.coeff <= Ten(TINY - r.exp)
  }

  /** A number is accepted exactly when it lies within the range and, where there is a resolution, is a whole
      multiple of it or so little off one that the difference underflows. */
  lemma AcceptedNumbers(name: string, input: Input, minimum: Decimal, maximum: Decimal, resolution: Option<Decimal>)
    requires resolution.Some? ==> resolution.value.coeff > 0
    ensures FormatNumber(name, input, minimum, maximum, resolution).Success? <==>
      && input.Finite?
      && Value(minimum) <= Value(input.d) <= Value(maximum)
      && (resolution.Some? ==>
            || (exists k: int :: IsTimes(k, Value(resolution.value), Value(input.d)))
            || Underflows(Remainder(input.d, resolution.value)))
  {
    if input.Finite? {
      AtMostIsLess(minimum, input.d);
      AtMostIsLess(input.d, maximum);
      if resolution.Some? {
        RemainderIsZero(input.d, resolution.value);
        RoundsToZero(Remainder(input.d, resolution.value));
      }
    }
  }

  /** With exponents within the decimal context's range it is the whole multiples alone. */
  lemma AcceptedMultiples(name: string, input: Input, minimum: Decimal, maximum: Decimal, resolution: Decimal)
    requires resolution.coeff > 0 && resolution.exp >= TINY && (input.Finite? ==> input.d.exp >= TINY)
    ensures FormatNumber(name, input, minimum, maximum, Some(resolution)).Success? <==>
      && input.Finite?
      && Value(minimum) <= Value(input.d) <= Value(maximum)
      && exists k: int :: IsTimes(k, Value(resolution), Value(input.d))
  {
    AcceptedNumbers(name, input, minimum, maximum, Some(resolution));
  }

  // ----- reading it back -----

  function DigitOf(c: char): nat {
    if IsDigit(c) then c as int - '0' as int else 0
  }

  /** The number a run of digits stands for. */
  function NatOf(s: string): nat {
    if s == [] then 0 else 10 * NatOf(s[..|s| - 1]) + DigitOf(s[|s| - 1])
  }

  /** Where the decimal point stands, or the length of the text. */
  function DotAt(text: string): (i: nat)
    ensures i <= |text|
    ensures i < |text| ==> text[i] == '.'
    ensures forall j :: 0 <= j < i ==> text[j] != '.'
  {
    if text == [] || text[0] == '.' then 0 else 1 + DotAt(text[1..])
  }

  function ParseUnsigned(text: string): Decimal {
    var dot := DotAt(text);
    if dot == |text| then Decimal(false, NatOf(text), 0)
    else Decimal(false, NatOf(text[..dot] + text[dot + 1..]), dot + 1 - |text|)
  }

  /** Read a plain number: an optional sign, digits, and an optional fraction. */
  function Parse(text: string): Decimal {
    if text != [] && text[0] == '-' then ParseUnsigned(text[1..]).(neg := true) else ParseUnsigned(text)
  }

  lemma {:induction false} DigitsRoundTrip(n: nat)
    ensures NatOf(Digits(n)) == n
  {
    var s := Digits(n);
    if n < 10 {
      assert s[..0] == [];
      assert NatOf(s[..0]) == 0;
    } else {
      DigitsRoundTrip(n / 10);
      assert s[..|s| - 1] == Digits(n / 10);
      assert DigitOf(DIGITS[n % 10]) == n % 10;
    }
  }

  lemma {:induction false} NatOfTrailingZeros(s: string, k: nat)
    ensures NatOf(s + Zeros(k)) == NatOf(s) * Ten(k)
  {
    if k == 0 {
      assert s + Zeros(0) == s;
    } else {
      assert (s + Zeros(k))[..|s| + k - 1] == s + Zeros(k - 1);
      NatOfTrailingZeros(s, k - 1);
      assert NatOf(s + Zeros(k)) == 10 * NatOf(s + Zeros(k - 1));
      TenTimes(NatOf(s), Ten(k - 1));
    }
  }

  lemma {:induction false} NatOfLeadingZeros(k: nat, s: string)
    ensures NatOf(Zeros(k) + s) == NatOf(s)
  {
    if s == [] {
      assert Zeros(k) + s == [] + Zeros(k);
      NatOfTrailingZeros([], k);
    } else {
      assert (Zeros(k) + s)[..k + |s| - 1] == Zeros(k) + s[..|s| - 1];
      NatOfLeadingZeros(k, s[..|s| - 1]);
    }
  }

  lemma DotAfterDigits(a: string, b: string)
    requires AllDigits(a) && AllDigits(b)
    ensures DotAt(a + b) == |a + b|
    ensures ParseUnsigned(a + "." + b) == Decimal(false, NatOf(a + b), -|b|)
  {
    var plain := a + b;
    assert AllDigits(plain);
    assert DotAt(plain) == |plain|;
    var text := a + "." + b;
    assert forall j :: 0 <= j < |a| ==> text[j] == a[j];
    assert text[|a|] == '.';
    assert DotAt(text) == |a|;
    assert text[..|a|] == a && text[|a| + 1..] == b;
  }

  lemma UnsignedParses(d: Decimal)
    ensures ParseUnsigned(Unsigned(d)) ==
      if d.exp >= 0 then Decimal(false, d.coeff * Ten(d.exp), 0) else Decimal(false, d.coeff, d.exp)
  {
    var digits := Digits(d.coeff);
    DigitsRoundTrip(d.coeff);
    if d.exp >= 0 {
      DotAfterDigits(digits, Zeros(d.exp));
      NatOfTrailingZeros(digits, d.exp);
      assert (digits + Zeros(d.exp))[..|digits| + d.exp] == digits + Zeros(d.exp);
    } else if |digits| > -d.exp {
      var whole := |digits| + d.exp;
      assert Unsigned(d) == digits[..whole] + "." + digits[whole..];
      SplitDigitsParse(digits, whole);
    } else {
      FilledDigitsParse(digits, -d.exp - |digits|);
    }
  }

  lemma SplitDigitsParse(digits: string, whole: nat)
    requires whole <= |digits| && AllDigits(digits)
    ensures ParseUnsigned(digits[..whole] + "." + digits[whole..]) == Decimal(false, NatOf(digits), whole - |digits|)
  {
    DotAfterDigits(digits[..whole], digits[whole..]);
    SplitJoins(digits, whole);
  }

  lemma SplitJoins(digits: string, whole: nat)
    requires whole <= |digits|
    ensures digits[..whole] + digits[whole..] == digits && |digits[whole..]| == |digits| - whole
  {
  }

  lemma FilledDigitsParse(digits: string, fill: nat)
    requires AllDigits(digits)
    ensures ParseUnsigned("0." + Zeros(fill) + digits) == Decimal(false, NatOf(digits), 0 - fill - |digits|)
  {
    var rest := Zeros(fill) + digits;
    DotAfterDigits("0", rest);
    PointAfterZero(fill, digits);
    NatOfLeadingZeros(fill + 1, digits);
  }

  lemma PointAfterZero(fill: nat, digits: string)
    ensures "0." + Zeros(fill) + digits == "0" + "." + (Zeros(fill) + digits)
    ensures "0" + (Zeros(fill) + digits) == Zeros(fill + 1) + digits
  {
  }

  lemma UnsignedHasNoSign(d: Decimal)
    ensures Unsigned(d) != [] && IsDigit(Unsigned(d)[0])
  {
  }

  /** Writing a positive exponent out as zeros keeps the value. */
  lemma SpelledOut(d: Decimal)
    requires d.exp >= 0
    ensures Value(Decimal(d.neg, d.coeff * Ten(d.exp), 0)) == Value(d)
  {
    ValueOfScaled(d, 0);
    var out := Decimal(d.neg, d.coeff * Ten(d.exp), 0);
    assert Signed(out) == Signed(d) * Ten(d.exp);
  }

  lemma FixedParses(d: Decimal)
    ensures Value(Parse(Fixed(d))) == Value(d)
  {
    UnsignedParses(d);
    UnsignedHasNoSign(d);
    var body := Unsigned(d);
    assert ("-" + body)[1..] == body;
    assert Parse(Fixed(d)) == ParseUnsigned(body).(neg := d.neg);
    if d.exp >= 0 {
      SpelledOut(d);
    }
  }

  lemma {:induction false} NormalizeKeepsValue(d: Decimal)
    ensures Value(Normalize(d)) == Value(d)
    decreases d.coeff
  {
    if d.coeff == 0 {
      ShiftedTimes(0, 0, d.exp);
    } else if d.coeff % 10 == 0 {
      var less := Decimal(d.neg, d.coeff / 10, d.exp + 1);
      NormalizeKeepsValue(less);
      ShiftedNext(Signed(less), d.exp);
      assert Signed(d) == 10 * Signed(less);
    }
  }

  /** The text parses back to the rounded number. */
  lemma RenderingParses(d: Decimal)
    ensures Value(Parse(Rendered(d))) == Value(Round(d))
  {
    var n := Normalize(Round(d));
    NormalizeKeepsValue(Round(d));
    FixedParses(n);
    if Fixed(n) == "-0" {
      ZeroParses();
    }
  }

  lemma ZeroParses()
    ensures Value(Parse("-0")) == 0.0 && Value(Parse("0")) == 0.0
  {
    DotAfterDigits("0", "");
    assert "0" + "" == "0";
    assert "-0"[1..] == "0";
    assert NatOf("0") == 0 by {
      assert "0"[..0] == [];
    }
  }

  // ----- one text per number -----

  predicate IsNormal(d: Decimal) {
    if d.coeff == 0 then d.exp == 0 else d.coeff % 10 != 0
  }

  lemma {:induction false} NormalizeIsNormal(d: Decimal)
    ensures IsNormal(Normalize(d))
    ensures (Normalize(d).coeff == 0) == (d.coeff == 0)
    decreases d.coeff
  {
    if d.coeff != 0 && d.coeff % 10 == 0 {
      NormalizeIsNormal(Decimal(d.neg, d.coeff / 10, d.exp + 1));
    }
  }

  /** Two normal decimals with the same value have the same exponent and the same signed coefficient. */
  lemma NormalFormIsUnique(a: Decimal, b: Decimal)
    requires IsNormal(a) && IsNormal(b) && Value(a) == Value(b)
    ensures a.exp == b.exp && Signed(a) == Signed(b)
  {
    if a.exp <= b.exp {
      NormalFormOrdered(a, b);
    } else {
      NormalFormOrdered(b, a);
    }
  }

  lemma NormalFormOrdered(a: Decimal, b: Decimal)
    requires IsNormal(a) && IsNormal(b) && Value(a) == Value(b) && a.exp <= b.exp
    ensures a.exp == b.exp && Signed(a) == Signed(b)
  {
    var n := b.exp - a.exp;
    ValueOfScaled(b, a.exp);
    ShiftedCompares(Signed(a), Scaled(b, a.exp), a.exp);
    ShiftedCompares(Scaled(b, a.exp), Signed(a), a.exp);
    if n > 0 {
      TenIsPositive(n);
      TenTimes(Signed(b), Ten(n - 1));
      TenfoldCoefficient(a, Signed(b) * Ten(n - 1));
      ZeroFactor(Signed(b), Ten(n));
    }
  }

  lemma TenfoldCoefficient(d: Decimal, t: int)
    requires Signed(d) == 10 * t
    ensures d.coeff % 10 == 0
  {
  }

  lemma ZeroFactor(b: int, t: int)
    requires b * t == 0 && t > 0
    ensures b == 0
  {
  }

  /** A decimal is its normal form with zeros put back. */
  lemma {:induction false} NormalizeDropsZeros(d: Decimal) returns (j: nat)
    requires d.coeff > 0
    ensures d.coeff == Normalize(d).coeff * Ten(j)
    ensures Normalize(d).exp == d.exp + j && Normalize(d).neg == d.neg
    decreases d.coeff
  {
    j := 0;
    if d.coeff % 10 == 0 {
      var i := NormalizeDropsZeros(Decimal(d.neg, d.coeff / 10, d.exp + 1));
      TenTimes(Normalize(d).coeff, Ten(i));
      j := i + 1;
    }
  }

  lemma {:induction false} NormalizeShrinks(d: Decimal)
    ensures Normalize(d).coeff <= d.coeff
    decreases d.coeff
  {
    if d.coeff != 0 && d.coeff % 10 == 0 {
      NormalizeShrinks(Decimal(d.neg, d.coeff / 10, d.exp + 1));
    }
  }

  /** No way of writing a number has a smaller coefficient than its normal form. */
  lemma NormalIsShortest(d: Decimal, other: Decimal)
    requires Value(d) == Value(other)
    ensures Normalize(d).coeff <= other.coeff
  {
    NormalizeKeepsValue(d);
    NormalizeKeepsValue(other);
    NormalizeIsNormal(d);
    NormalizeIsNormal(other);
    NormalFormIsUnique(Normalize(d), Normalize(other));
    NormalizeShrinks(other);
  }

  // ----- rounding -----

  lemma {:induction false} TenGrows(m: nat, n: nat)
    requires m <= n
    ensures Ten(m) <= Ten(n)
  {
    if m < n {
      TenGrows(m, n - 1);
      TenIsPositive(n - 1);
    }
  }

  lemma {:induction false} TenOfSum(m: nat, n: nat)
    ensures Ten(m + n) == Ten(m) * Ten(n)
  {
    if m > 0 {
      TenOfSum(m - 1, n);
      TenTimes(Ten(n), Ten(m - 1));
    }
  }

  lemma {:induction false} DigitsLength(n: nat)
    ensures n < Ten(|Digits(n)|)
    ensures n > 0 ==> Ten(|Digits(n)| - 1) <= n
  {
    if n >= 10 {
      DigitsLength(n / 10);
    }
  }

  /** Dropping no more than zeros is exact; dropping anything else is not. */
  lemma HalfEvenIsExact(c: nat, t: nat)
    requires t > 0
    ensures HalfEven(c, t) * t == c <==> c % t == 0
  {
    var q, r := c / t, c % t;
    assert q * t + r == c;
    assert (q + 1) * t == q * t + t;
  }

  lemma RoundedValue(d: Decimal)
    ensures Value(Round(d)) == Value(d) <==> (TenIsPositive(Excess(d)); d.coeff % Ten(Excess(d)) == 0)
  {
    var k := Excess(d);
    TenIsPositive(k);
    HalfEvenIsExact(d.coeff, Ten(k));
    ValueOfScaled(Round(d), d.exp);
    ShiftedCompares(Scaled(Round(d), d.exp), Signed(d), d.exp);
    ShiftedCompares(Signed(d), Scaled(Round(d), d.exp), d.exp);
    SignedProduct(d.neg, Round(d).coeff, Ten(k), d.coeff);
  }

  lemma SignedProduct(neg: bool, q: nat, t: nat, c: nat)
    ensures (if neg then 0 - q else q) * t == (if neg then 0 - c else c) <==> q * t == c
  {
    assert (0 - q) * t == 0 - q * t;
  }

  /** The normal form has at most 28 digits and does not reach below the lowest exponent. */
  predicate Fits(d: Decimal) {
    Normalize(d).coeff < Ten(PRECISION) && Normalize(d).exp >= TINY
  }

  /** Rounding drops zeros only exactly when the normal form fits. */
  lemma ExcessIsZeros(d: Decimal)
    ensures Fits(d) <==> (TenIsPositive(Excess(d)); d.coeff % Ten(Excess(d)) == 0)
  {
    var k := Excess(d);
    TenIsPositive(k);
    if d.coeff == 0 {
      ZeroFits(d);
    } else {
      if Fits(d) {
        EnoughZeros(d, k);
      }
      if d.coeff % Ten(k) == 0 {
        KeptDigits(d, k);
      }
    }
  }

  lemma ZeroFits(d: Decimal)
    requires d.coeff == 0
    ensures Fits(d)
  {
    TenIsPositive(PRECISION);
  }

  /** A normal form that fits leaves at least as many zeros as rounding drops digits. */
  lemma EnoughZeros(d: Decimal, k: nat)
    requires d.coeff > 0 && k == Excess(d) && Fits(d)
    ensures (TenIsPositive(k); d.coeff % Ten(k) == 0)
  {
    TenIsPositive(k);
    var m := Normalize(d).coeff;
    var j := NormalizeDropsZeros(d);
    if j < |Digits(d.coeff)| - PRECISION {
      TooFewZeros(d.coeff, m, j);
    }
    TenOfSum(k, j - k);
    FactorDivides(m, Ten(k), Ten(j - k));
  }

  lemma TooFewZeros(c: nat, m: nat, j: nat)
    requires c > 0 && j < |Digits(c)| - PRECISION && m < Ten(PRECISION)
    ensures c != m * Ten(j)
  {
    var k := |Digits(c)| - PRECISION;
    DigitsLength(c);
    TenGrows(j, k - 1);
    TenOfSum(PRECISION, k - 1);
    TenIsPositive(k - 1);
    LargerProduct(m, Ten(PRECISION), Ten(j), Ten(k - 1));
  }

  lemma LargerProduct(m: nat, p: nat, a: nat, b: nat)
    requires m < p && a <= b && b > 0
    ensures m * a < p * b
  {
    assert m * a <= m * b;
    assert (p - m) * b > 0;
  }

  lemma FactorDivides(m: nat, t: nat, u: nat)
    requires t > 0
    ensures (m * (t * u)) % t == 0
  {
    assert m * (t * u) == (m * u) * t;
    MultipleHasNoRemainder(m * u, t);
  }

  lemma KeptDigits(d: Decimal, k: nat)
    requires d.coeff > 0 && k == Excess(d) && (TenIsPositive(k); d.coeff % Ten(k) == 0)
    ensures Fits(d)
  {
    TenIsPositive(k);
    HalfEvenOfMultiple(d.coeff, Ten(k));
    RoundedValue(d);
    KeptIsShort(d.coeff, Round(d).coeff, k);
    KeptIsNormal(d, Round(d));
  }

  lemma HalfEvenOfMultiple(c: nat, t: nat)
    requires t > 0 && c > 0 && c % t == 0
    ensures HalfEven(c, t) > 0 && HalfEven(c, t) * t == c
  {
    assert (c / t) * t == c;
  }

  lemma KeptIsShort(c: nat, q: nat, k: nat)
    requires q * Ten(k) == c && |Digits(c)| <= PRECISION + k
    ensures q < Ten(PRECISION)
  {
    DigitsLength(c);
    TenGrows(|Digits(c)|, PRECISION + k);
    TenOfSum(PRECISION, k);
    SmallerFactor(q, Ten(PRECISION), Ten(k));
  }

  lemma KeptIsNormal(d: Decimal, kept: Decimal)
    requires Value(d) == Value(kept) && kept.coeff > 0 && kept.coeff < Ten(PRECISION) && kept.exp >= TINY
    ensures Fits(d)
  {
    NormalIsShortest(d, kept);
    NormalizeKeepsValue(d);
    NormalizeKeepsValue(kept);
    NormalizeIsNormal(d);
    NormalizeIsNormal(kept);
    NormalFormIsUnique(Normalize(d), Normalize(kept));
    var j := NormalizeDropsZeros(kept);
  }

  /** A number rounds to zero exactly when it is zero or at most half of the smallest positive number. */
  lemma RoundsToZero(d: Decimal)
    ensures Round(d).coeff == 0 <==> d.coeff == 0 || Underflows(d)
  {
    var k := Excess(d);
    TenIsPositive(k);
    HalfEvenOfLittle(d.coeff, Ten(k));
    var long := |Digits(d.coeff)| - PRECISION;
    if d.coeff > 0 && k == long > 0 {
      DigitsLength(d.coeff);
      TenGrows(k + 1, |Digits(d.coeff)| - 1);
      assert d.coeff >= 10 * Ten(k);
      if d.exp < TINY {
        TenGrows(TINY - d.exp, k);
      }
    }
  }

  lemma HalfEvenOfLittle(c: nat, t: nat)
    requires t > 0
    ensures HalfEven(c, t) == 0 <==> 2 * c <= t && (t > 1 || c == 0)
  {
    if c < t {
      assert c / t == 0 && c % t == c;
    } else {
      assert c / t >= 1;
    }
  }

  lemma SmallerFactor(q: nat, p: nat, t: nat)
    requires q * t < p * t
    ensures q < p
  {
  }

  /** The text parses back to exactly the number it was made from, if and only if the number has at most 28
      significant digits and none below the lowest exponent. */
  lemma RenderingRoundTrip(d: Decimal)
    ensures Value(Parse(Rendered(d))) == Value(d) <==> Fits(d)
  {
    RenderingParses(d);
    RoundedValue(d);
    ExcessIsZeros(d);
  }

  // ----- equal numbers -----

  lemma DigitsOfTenfold(c: nat)
    requires c > 0
    ensures |Digits(10 * c)| == |Digits(c)| + 1
  {
  }

  lemma HalfEvenOfTenfold(c: nat, t: nat)
    requires t > 0
    ensures HalfEven(10 * c, 10 * t) == HalfEven(c, t)
  {
    var q, r := c / t, c % t;
    assert 10 * c == q * (10 * t) + 10 * r;
    DivisionIsUnique(10 * c, 10 * t, q, 10 * r);
  }

  lemma DivisionIsUnique(c: nat, t: nat, q: nat, r: nat)
    requires c == q * t + r && r < t
    ensures c / t == q && c % t == r
  {
    var m := c / t - q;
    assert m * t == r - c % t;
    if m * t >= 0 {
      SmallNatMultiple(m, t);
    } else {
      assert (-m) * t == -(m * t);
      SmallNatMultiple(-m, t);
    }
  }

  /** A zero moved from the coefficient to the exponent changes nothing. */
  lemma TenfoldRoundsAlike(d: Decimal, less: Decimal)
    requires less.coeff > 0 && d == Decimal(less.neg, 10 * less.coeff, less.exp - 1)
    ensures Excess(d) > 0 ==> Round(d) == Round(less)
    ensures Excess(d) == 0 ==> Round(d) == d && Round(less) == less
  {
    DigitsOfTenfold(less.coeff);
    var k := Excess(less);
    TenIsPositive(k);
    if Excess(d) > 0 {
      assert Excess(d) == k + 1;
      HalfEvenOfTenfold(less.coeff, Ten(k));
    }
  }

  lemma {:induction false} NormalRoundsAlike(d: Decimal)
    requires d.coeff > 0
    ensures Normalize(Round(d)) == Normalize(Round(Normalize(d)))
    decreases d.coeff
  {
    if d.coeff % 10 == 0 {
      var less := Decimal(d.neg, d.coeff / 10, d.exp + 1);
      TenfoldRoundsAlike(d, less);
      NormalRoundsAlike(less);
      assert Normalize(d) == Normalize(less);
    }
  }

  lemma ZeroIsPlain(r: Decimal)
    requires r.coeff == 0
    ensures Fixed(Normalize(r)) == if r.neg then "-0" else "0"
  {
    assert Digits(0) == "0";
    assert "0" + Zeros(0) == "0";
  }

  lemma RenderedZero(d: Decimal)
    requires d.coeff == 0
    ensures Rendered(d) == "0"
  {
    TenIsPositive(Excess(d));
    assert Round(d).coeff == 0;
    ZeroIsPlain(Round(d));
  }

  /** Equal numbers render alike, however they are written; and no two numbers of at most 28 digits
      share a text. */
  lemma EqualNumbersRenderAlike(a: Decimal, b: Decimal)
    ensures Value(a) == Value(b) ==> Rendered(a) == Rendered(b)
    ensures Fits(a) && Fits(b) && Rendered(a) == Rendered(b) ==> Value(a) == Value(b)
  {
    if Value(a) == Value(b) {
      EqualRenderAlike(a, b);
    } else if Fits(a) && Fits(b) {
      RenderingRoundTrip(a);
      RenderingRoundTrip(b);
    }
  }

  lemma EqualRenderAlike(a: Decimal, b: Decimal)
    requires Value(a) == Value(b)
    ensures Rendered(a) == Rendered(b)
  {
    SameNormalForm(a, b);
    if a.coeff == 0 {
      RenderedZero(a);
      RenderedZero(b);
    } else {
      NormalRoundsAlike(a);
      NormalRoundsAlike(b);
    }
  }

  lemma SameNormalForm(a: Decimal, b: Decimal)
    requires Value(a) == Value(b)
    ensures (a.coeff == 0) == (b.coeff == 0) && (a.coeff != 0 ==> Normalize(a) == Normalize(b))
  {
    NormalizeKeepsValue(a);
    NormalizeKeepsValue(b);
    NormalizeIsNormal(a);
    NormalizeIsNormal(b);
    NormalFormIsUnique(Normalize(a), Normalize(b));
  }

  // ----- the form of the text -----

  /** Digits with at most one point between them; a fraction does not end in zero; a whole part of more
      than one digit does not begin with zero. */
  predicate Canonical(text: string) {
    && text != []
    && var dot := DotAt(text);
    && 0 < dot
    && AllDigits(text[..dot])
    && (text[0] == '0' ==> dot == 1)
    && (dot < |text| ==> AllDigits(text[dot + 1..]) && dot + 1 < |text| && text[|text| - 1] != '0')
  }

  lemma {:induction false} DigitsEnds(n: nat)
    ensures var s := Digits(n); s[|s| - 1] == DIGITS[n % 10]
    ensures n > 0 ==> Digits(n)[0] != '0'
  {
    if n >= 10 {
      DigitsEnds(n / 10);
    }
  }

  lemma UnsignedIsCanonical(d: Decimal)
    requires IsNormal(d)
    ensures Canonical(Unsigned(d))
  {
    var digits := Digits(d.coeff);
    var text := Unsigned(d);
    DigitsEnds(d.coeff);
    if d.exp >= 0 {
      DotAfterDigits(digits, Zeros(d.exp));
      assert AllDigits(text);
      assert text[..|text|] == text;
      if d.coeff == 0 {
        assert text == "0";
      }
    } else if |digits| > -d.exp {
      var whole := |digits| + d.exp;
      PointedText(digits[..whole], digits[whole..]);
    } else {
      var rest := Zeros(-d.exp - |digits|) + digits;
      assert text == "0" + "." + rest;
      PointedText("0", rest);
    }
  }

  lemma PointedText(a: string, b: string)
    requires a != [] && AllDigits(a) && AllDigits(b) && b != [] && b[|b| - 1] != '0'
    requires a[0] == '0' ==> |a| == 1
    ensures Canonical(a + "." + b)
  {
    var text := a + "." + b;
    assert forall j :: 0 <= j < |a| ==> text[j] == a[j];
    assert text[|a|] == '.';
    assert DotAt(text) == |a|;
    assert text[..|a|] == a && text[|a| + 1..] == b;
  }

  /** The text has no exponent, no trailing fractional zero and no minus zero. */
  lemma RenderedForm(d: Decimal)
    ensures var text := Rendered(d);
      if Value(Round(d)) < 0.0 then text != [] && text[0] == '-' && Canonical(text[1..]) && text[1..] != "0"
      else Canonical(text)
  {
    var r := Round(d);
    var n := Normalize(r);
    NormalizeIsNormal(r);
    NormalizeKeepsSign(r);
    UnsignedIsCanonical(n);
    SignOfValue(r);
    if r.coeff == 0 {
      ZeroIsPlain(r);
      DotAfterDigits("0", "");
      assert "0" + "" == "0" && "0"[..1] == "0";
    } else if n.neg {
      assert Fixed(n)[1..] == Unsigned(n);
      if Unsigned(n) == "0" {
        FixedParses(n);
        ZeroParses();
        SignOfValue(n);
      }
    } else {
      UnsignedHasNoSign(n);
    }
  }

  lemma {:induction false} NormalizeKeepsSign(d: Decimal)
    ensures Normalize(d).neg == d.neg
    decreases d.coeff
  {
    if d.coeff != 0 && d.coeff % 10 == 0 {
      NormalizeKeepsSign(Decimal(d.neg, d.coeff / 10, d.exp + 1));
    }
  }

  lemma SignOfValue(d: Decimal)
    ensures Value(d) < 0.0 <==> d.neg && d.coeff > 0
    ensures Value(d) == 0.0 <==> d.coeff == 0
  {
    ShiftedTimes(0, 0, d.exp);
    ShiftedCompares(Signed(d), 0, d.exp);
    ShiftedCompares(0, Signed(d), d.exp);
  }

  /** Rounding keeps the sign and the first 28 digits, as far as they are not below the context's range, and takes
      the nearest number that has no others, of two equally near ones the even one. */
  lemma RoundedToNearest(d: Decimal)
    ensures
      var r := Round(d);
      && r.neg == d.neg && r.exp >= d.exp && r.exp >= d.exp + |Digits(d.coeff)| - 28 && r.exp >= -1000026
      && r.exp in {d.exp, d.exp + |Digits(d.coeff)| - 28, -1000026}
      && var unit: int, error: int := Ten(r.exp - d.exp), r.coeff * Ten(r.exp - d.exp) - d.coeff;
         && 0 - unit <= 2 * error <= unit
         && (2 * error == unit || 2 * error == 0 - unit ==> r.coeff % 2 == 0)
  {
    TenIsPositive(Excess(d));
    NearestEven(d.coeff, Ten(Excess(d)));
  }

  lemma NearestEven(c: nat, t: nat)
    requires t > 0
    ensures
      var error: int := HalfEven(c, t) * t - c;
      && 0 - t <= 2 * error <= t
      && (2 * error == t || 2 * error == 0 - t ==> HalfEven(c, t) % 2 == 0)
  {
    assert c == (c / t) * t + c % t;
    assert (c / t + 1) * t == (c / t) * t + t;
  }

  // ----- setpoints -----

  datatype Quantity = Voltage | Current

  const MILLI := Decimal(false, 1, -3)
  const CENTI := Decimal(false, 1, -2)

  function Maximum(q: Quantity): Decimal {
    if q == Voltage then Decimal(false, 32, 0) else Decimal(false, 32, -1)
  }

  /** _setpoint: from zero to the quantity's maximum, in steps of the model's resolution. */
  function Setpoint(q: Quantity, input: Input, resolution: Decimal): Result<string, Error>
    requires resolution == MILLI || resolution == CENTI
  {
    FormatNumber(if q == Voltage then "voltage" else "current", input, Decimal(false, 0, 0), Maximum(q), Some(resolution))
  }

  /** The text of an accepted setpoint is canonical, and reads back as the number the caller asked for exactly
      when that fits; written with exponents within the decimal context's range it always does, and needs
      at most five significant digits. */
  lemma AcceptedSetpointIsExact(q: Quantity, d: Decimal, resolution: Decimal)
    requires resolution == MILLI || resolution == CENTI
    requires Setpoint(q, Finite(d), resolution).Success?
    ensures var text := Setpoint(q, Finite(d), resolution).value;
      Canonical(text) && (Value(Parse(text)) == Value(d) <==> Fits(d))
    ensures d.exp >= TINY ==> Fits(d) && Normalize(d).coeff <= 32000
  {
    AcceptedNumbers(if q == Voltage then "voltage" else "current", Finite(d), Decimal(false, 0, 0), Maximum(q), Some(resolution));
    assert Value(Decimal(false, 0, 0)) == 0.0;
    RenderedForm(d);
    RoundedSign(d);
    RenderingRoundTrip(d);
    if d.exp >= TINY {
      SetpointIsShort(q, d, resolution);
      TenGrows(5, PRECISION);
      assert Ten(5) == 100000;
      NormalizeRaises(d);
    }
  }

  lemma RoundedSign(d: Decimal)
    requires Value(d) >= 0.0
    ensures Value(Round(d)) >= 0.0
  {
    SignOfValue(d);
    SignOfValue(Round(d));
    if d.coeff == 0 {
      TenIsPositive(Excess(d));
    }
  }

  lemma {:induction false} NormalizeRaises(d: Decimal)
    requires d.exp >= TINY
    ensures Normalize(d).exp >= TINY
    decreases d.coeff
  {
    if d.coeff != 0 && d.coeff % 10 == 0 {
      NormalizeRaises(Decimal(d.neg, d.coeff / 10, d.exp + 1));
    }
  }

  predicate IsWhole(x: real) {
    x.Floor as real == x
  }

  /** Voltages go from 0 to 32 and currents from 0 to 3.2, in steps of a thousandth or a hundredth, whichever the
      model's resolution is. */
  lemma AcceptedSetpoints(q: Quantity, d: Decimal, resolution: Decimal, step: real)
    requires
      || (resolution == Decimal(false, 1, -3) && step == 0.001)
      || (resolution == Decimal(false, 1, -2) && step == 0.01)
    requires d.exp >= -1000026
    ensures Setpoint(q, Finite(d), resolution).Success? <==>
      0.0 <= Value(d) <= (if q.Voltage? then 32.0 else 3.2) && IsWhole(Value(d) / step)
  {
    PowersOfTenth();
    assert Value(resolution) == step && Value(Maximum(q)) == if q.Voltage? then 32.0 else 3.2;
    SetpointMultiples(q, d, resolution);
    WholeSteps(Value(d), step);
  }

  ghost predicate IsMultiple(v: real, step: real) {
    exists k: int :: IsTimes(k, step, v)
  }

  lemma SetpointMultiples(q: Quantity, d: Decimal, resolution: Decimal)
    requires d.exp >= TINY && (resolution == MILLI || resolution == CENTI)
    ensures Setpoint(q, Finite(d), resolution).Success? <==>
      0.0 <= Value(d) <= Value(Maximum(q)) && IsMultiple(Value(d), Value(resolution))
  {
    var zero := Decimal(false, 0, 0);
    assert Value(zero) == 0.0;
    AcceptedMultiples(if q == Voltage then "voltage" else "current", Finite(d), zero, Maximum(q), resolution);
  }

  /** The range holds whatever the number's exponent. */
  lemma SetpointRange(q: Quantity, d: Decimal, resolution: Decimal)
    requires resolution == MILLI || resolution == CENTI
    requires Setpoint(q, Finite(d), resolution).Success?
    ensures 0.0 <= Value(d) <= if q.Voltage? then 32.0 else 3.2
  {
    var zero := Decimal(false, 0, 0);
    PowersOfTenth();
    assert Value(zero) == 0.0;
    assert Value(Maximum(q)) == if q.Voltage? then 32.0 else 3.2;
    AtMostIsLess(zero, d);
    AtMostIsLess(d, Maximum(q));
  }

  lemma PowersOfTenth()
    ensures Shifted(1, -2) == 0.01 && Shifted(1, -3) == 0.001 && Shifted(32, -1) == 3.2 && Shifted(32, 0) == 32.0
  {
    assert Shifted(1, -1) == Shifted(1, 0) / 10.0;
    assert Shifted(1, -2) == Shifted(1, -1) / 10.0;
    assert Shifted(1, -3) == Shifted(1, -2) / 10.0;
    assert Shifted(32, -1) == Shifted(32, 0) / 10.0;
  }

  lemma WholeSteps(v: real, step: real)
    requires step > 0.0
    ensures IsMultiple(v, step) <==> IsWhole(v / step)
  {
    if k: int :| IsTimes(k, step, v) {
      assert v / step == k as real;
    }
    if IsWhole(v / step) {
      var k := (v / step).Floor;
      assert v == k as real * step;
      assert IsTimes(k, step, v);
    }
  }

  /** Whatever is no setpoint is refused with a validation error, an infinity and a text included. */
  lemma RefusedSetpoint(q: Quantity, input: Input, resolution: Decimal)
    requires resolution == MILLI || resolution == CENTI
    ensures var r := Setpoint(q, input, resolution);
      && (r.Success? ==> input.Finite?)
      && (r.Failure? ==> r.error.South? && r.error.cls == "SPD3000ValidationError" && r.error.at == Position(None, None, None))
  {
  }

  // ----- where it fails -----

  /** 1.0000000000000000000000000001 */
  function LongDuration(): Decimal {
    Decimal(false, Ten(PRECISION) + 1, -28)
  }

  /** A duration with 29 significant digits is accepted, there being no resolution for it, and rounded. */
  lemma LongDurationIsRounded()
    ensures var d := LongDuration();
      && FormatNumber("duration_s", Finite(d), Decimal(false, 0, 0), Decimal(false, 10000, 0), None).Success?
      && !Fits(d) && Value(Parse(Rendered(d))) != Value(d)
  {
    var d := LongDuration();
    TenIsPositive(27);
    DurationInRange(d);
    AboveTensIsNormal(d, PRECISION);
    RenderingRoundTrip(d);
  }

  lemma DurationInRange(d: Decimal)
    requires d == LongDuration()
    ensures AtMost(Decimal(false, 0, 0), d) && AtMost(d, Decimal(false, 10000, 0))
  {
    var t := Ten(28);
    TenIsPositive(28);
    assert Scaled(Decimal(false, 10000, 0), -28) == 10000 * t;
    assert Scaled(d, -28) == t + 1;
  }

  lemma AboveTensIsNormal(d: Decimal, n: nat)
    requires n > 0 && d.coeff == Ten(n) + 1
    ensures Normalize(d) == d
  {
    TenIsPositive(n);
    OneAboveTens(Ten(n - 1));
  }

  lemma OneAboveTens(t: nat)
    ensures (10 * t + 1) % 10 == 1
  {
  }

  /** A number just below the decimal context's range is accepted as a setpoint, though no multiple of the
      resolution, and written as zero. */
  lemma TinySetpointIsLost(d: Decimal)
    requires d == Decimal(false, 1, TINY - 1)
    ensures Setpoint(Voltage, Finite(d), MILLI) == Success("0") && Value(d) > 0.0
    ensures !exists k: int :: IsTimes(k, Value(MILLI), Value(d))
  {
    var r := Remainder(d, MILLI);
    TinyRemainder(d);
    RemainderIsZero(d, MILLI);
    SignOfValue(d);
    assert Ten(1) == 10 && Underflows(r);
    TinyIsZero(d);
    TinyIsInRange(d);
    AcceptedNumbers("voltage", Finite(d), Decimal(false, 0, 0), Maximum(Voltage), Some(MILLI));
  }

  lemma TinyRemainder(d: Decimal)
    requires d.coeff == 1 && !d.neg && d.exp < -3
    ensures Remainder(d, MILLI) == d
  {
    var n := -3 - d.exp;
    TenIsPositive(n - 1);
    assert Units(MILLI, d.exp) == Ten(n) == 10 * Ten(n - 1);
    assert Ten(0) == 1;
    assert Units(d, d.exp) == 1;
    OneIsItsRemainder(Ten(n));
  }

  lemma OneIsItsRemainder(y: nat)
    requires y > 1
    ensures 1 % y == 1
  {
  }

  lemma TinyIsZero(d: Decimal)
    requires d == Decimal(false, 1, TINY - 1)
    ensures Rendered(d) == "0"
  {
    assert Ten(1) == 10;
    RoundsToZero(d);
    ZeroIsPlain(Round(d));
  }

  lemma TinyIsInRange(d: Decimal)
    requires d.coeff == 1 && !d.neg && d.exp < 0
    ensures 0.0 <= Value(d) <= Value(Maximum(Voltage)) && Value(Decimal(false, 0, 0)) == 0.0
  {
    SignOfValue(d);
    AtMostIsLess(d, Maximum(Voltage));
    TenIsPositive(-d.exp);
  }

  lemma SetpointIsShort(q: Quantity, d: Decimal, resolution: Decimal)
    requires resolution == MILLI || resolution == CENTI
    requires 0.0 <= Value(d) <= Value(Maximum(q))
    requires exists k: int :: IsTimes(k, Value(resolution), Value(d))
    ensures Normalize(d).coeff <= 32000
  {
    var k: int :| IsTimes(k, Value(resolution), Value(d));
    StepCount(q, k, resolution, Value(d));
    NormalIsShortest(d, Decimal(false, k, resolution.exp));
  }

  lemma StepCount(q: Quantity, k: int, resolution: Decimal, v: real)
    requires resolution == MILLI || resolution == CENTI
    requires v == k as real * Value(resolution) && 0.0 <= v <= Value(Maximum(q))
    ensures 0 <= k <= 32000 && v == Value(Decimal(false, k, resolution.exp))
  {
    assert Shifted(k, -1) == Shifted(k, 0) / 10.0;
    assert Shifted(k, -2) == Shifted(k, -1) / 10.0;
    assert Shifted(k, -3) == Shifted(k, -2) / 10.0;
    assert Value(MILLI) == 0.001 && Value(CENTI) == 0.01 by {
      assert Shifted(1, -3) == Shifted(1, -2) / 10.0;
    }
  }
}
