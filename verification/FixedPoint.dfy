/** 16.16 fixed-point numbers (nucleus/vm/math.h). Machine integers are modelled by
    their values, with every wrap-around written out. */
module FixedPoint {

  const TWO16 := 0x1_0000
  const TWO31 := 0x8000_0000
  const TWO32 := 0x1_0000_0000
  const TWO64 := 0x1_0000_0000_0000_0000

  predicate IsInt32(x: int) {
    -TWO31 <= x < TWO31
  }

  /** Conversion to a signed 32-bit integer. */
  function Wrap(x: int): (r: int)
    ensures IsInt32(r) && (IsInt32(x) ==> r == x)
  {
    (x + TWO31) % TWO32 - TWO31
  }

  /** C division: towards zero. */
  function TruncDiv(a: int, b: int): int
    requires b != 0
  {
    if a >= 0 then a / b else -((-a) / b)
  }

  /** `nu_fmul`: both factors sign-extended to unsigned 64 bits, multiplied there,
      shifted and cut to 32 bits. */
  function Fmul(a: int, b: int): int {
    Wrap(((a % TWO64) * (b % TWO64)) % TWO64 / TWO16)
  }

  function Fdiv(a: int, b: int): int
    requires b != 0
  {
    Wrap(TruncDiv(a * TWO16, b))
  }

  function Itof(a: int): int {
    Wrap(a * TWO16)
  }

  function Ftoi(a: int): int {
    a / TWO16
  }

  // ----- congruences

  ghost predicate Congruent(x: int, y: int, m: int) {
    exists k: int :: x == y + k * m
  }

  lemma {:induction false} ModCongruent(x: int, m: int)
    requires m > 0
    ensures Congruent(x % m, x, m)
  {
    assert x % m == x + (-(x / m)) * m;
  }

  lemma {:induction false} ProductCongruent(a: int, b: int, c: int, d: int, m: int)
    requires Congruent(a, c, m) && Congruent(b, d, m)
    ensures Congruent(a * b, c * d, m)
  {
    var k :| a == c + k * m;
    var l :| b == d + l * m;
    var j := k * d + c * l + k * l * m;
    Expand(c, k, d, l, m);
    assert a * b == c * d + j * m;
  }

  lemma {:induction false} Expand(c: int, k: int, d: int, l: int, m: int)
    ensures (c + k * m) * (d + l * m) == c * d + (k * d + c * l + k * l * m) * m
  {
    calc {
      (c + k * m) * (d + l * m);
      c * d + c * (l * m) + (k * m) * d + (k * m) * (l * m);
      c * d + (c * l) * m + (k * d) * m + (k * l * m) * m;
    }
  }

  /** Cutting to 64 bits before the shift does not change the low 32 bits after it. */
  lemma {:induction false} ShiftCongruent(x: int, y: int)
    requires Congruent(x, y, TWO64)
    ensures Wrap(x / TWO16) == Wrap(y / TWO16)
  {
    var k :| x == y + k * TWO64;
    assert x / TWO16 == y / TWO16 + k * 0x1_0000_0000_0000;
    WrapShift(y / TWO16, k * 0x1_0000);
  }

  lemma {:induction false} WrapShift(x: int, k: int)
    ensures Wrap(x + k * TWO32) == Wrap(x)
  {
    assert (x + TWO31 + k * TWO32) % TWO32 == (x + TWO31) % TWO32;
  }

  /** The unsigned product gives the rounded-down signed product of any two factors. */
  lemma {:induction false} FmulFloor(a: int, b: int)
    ensures Fmul(a, b) == Wrap(a * b / 0x1_0000)
  {
    ModCongruent(a, TWO64);
    ModCongruent(b, TWO64);
    ProductCongruent(a % TWO64, b % TWO64, a, b, TWO64);
    var p := (a % TWO64) * (b % TWO64);
    var k :| p == a * b + k * TWO64;
    assert p % TWO64 == a * b + (k - p / TWO64) * TWO64;
    assert Congruent(p % TWO64, a * b, TWO64);
    ShiftCongruent(p % TWO64, a * b);
  }

  lemma {:induction false} TruncDivRemainder(n: int, b: int)
    requires b != 0
    ensures 0 - Abs(b) < n - TruncDiv(n, b) * b < Abs(b)
    ensures if n >= 0 then 0 <= TruncDiv(n, b) * b <= n else n <= TruncDiv(n, b) * b <= 0
  {
    if n >= 0 {
      Quotient(n, b);
    } else {
      Quotient(-n, b);
      Negated((-n) / b, b);
    }
  }

  lemma {:induction false} Negated(q: int, b: int)
    ensures (-q) * b == -(q * b)
  {
  }

  /** The quotient of a natural number, multiplied back. */
  lemma {:induction false} Quotient(n: nat, b: int)
    requires b != 0
    ensures 0 <= n / b * b <= n < n / b * b + Abs(b)
  {
    var q, r := n / b, n % b;
    assert n == q * b + r;
    SmallMultiple(q, b);
  }

  lemma {:induction false} SmallMultiple(q: int, b: int)
    requires 0 - Abs(b) < q * b
    ensures 0 <= q * b
  {
    if q * b < 0 {
      if b > 0 { MulAtLeast(-q, b); Negated(q, b); } else { MulAtLeast(q, -b); Negated(b, q); }
    }
  }

  function Abs(x: int): nat {
    if x < 0 then -x else x
  }

  /** Dividing and multiplying back is off by less than one unit plus the part of
      the divisor that the quotient could not express, when the quotient fits; and
      it is exact when the division is. */
  lemma {:induction false} DivMul(a: int, b: int)
    requires IsInt32(a) && b != 0 && IsInt32(TruncDiv(a * TWO16, b))
    ensures Abs(a - Fmul(Fdiv(a, b), b)) * TWO16 < Abs(b) + TWO16
    ensures TruncDiv(a * TWO16, b) * b == a * TWO16 ==> Fmul(Fdiv(a, b), b) == a
  {
    var q := TruncDiv(a * TWO16, b);
    FmulFloor(q, b);
    TruncDivRemainder(a * TWO16, b);
    BackFits(a, q * b);
  }

  lemma {:induction false} BackFits(a: int, p: int)
    requires IsInt32(a) && if a >= 0 then 0 <= p <= a * TWO16 else a * TWO16 <= p <= 0
    ensures IsInt32(p / TWO16) && p == p / TWO16 * TWO16 + p % TWO16
  {
  }

  /** An integer survives the trip through fixed point exactly if it has 16 bits. */
  lemma {:induction false} ItofFtoi(a: int)
    requires IsInt32(a)
    ensures Ftoi(Itof(a)) == a <==> -0x8000 <= a < 0x8000
  {
  }

  // ----- what the operations mean, in numbers

  /** Conversion keeps the value modulo 2^32. */
  lemma {:induction false} WrapIff(x: int, r: int)
    ensures Wrap(x) == r <==> -0x8000_0000 <= r < 0x8000_0000 && (x - r) % 0x1_0000_0000 == 0
  {
    var y, z := x + TWO31, r + TWO31;
    var k := (x - r) / TWO32;
    if (x - r) % TWO32 == 0 { assert y == z + k * TWO32; }
  }

  /** An integer becomes itself times 2^16, if it has 16 bits, and that modulo 2^32 in any
      case. */
  lemma {:induction false} ItofScales(a: int)
    ensures -0x8000 <= a < 0x8000 ==> Itof(a) == a * 0x1_0000
    ensures -0x8000_0000 <= Itof(a) < 0x8000_0000 && (Itof(a) - a * 0x1_0000) % 0x1_0000_0000 == 0
  {
    var k := (a * TWO16 + TWO31) / TWO32;
    assert Itof(a) == a * TWO16 - k * TWO32;
  }

  /** A fixed-point value is rounded down, also if it is negative. */
  lemma {:induction false} FtoiFloor(x: int)
    ensures Ftoi(x) * 0x1_0000 <= x < (Ftoi(x) + 1) * 0x1_0000
  {
  }

  /** A quotient that fits is rounded towards zero. */
  lemma {:induction false} FdivTowardsZero(a: int, b: int)
    requires b != 0 && -0x8000_0000 <= TruncDiv(a * 0x1_0000, b) < 0x8000_0000
    ensures var p, d := Fdiv(a, b) * b, if b < 0 then -b else b;
            if a >= 0 then 0 <= p <= a * 0x1_0000 < p + d else p - d < a * 0x1_0000 <= p <= 0
  {
    TruncDivRemainder(a * TWO16, b);
  }

  // ----- decimal numerals

  predicate IsDigit(c: char) {
    '0' <= c <= '9'
  }

  predicate AllDigits(s: string) {
    forall i :: 0 <= i < |s| ==> IsDigit(s[i])
  }

  function DigitValue(c: char): nat
    requires IsDigit(c)
  {
    (c as int) - ('0' as int)
  }

  /** The number a digit string denotes. */
  function Decimal(s: string): nat
    requires AllDigits(s)
  {
    if s == [] then 0 else Decimal(s[..|s| - 1]) * 10 + DigitValue(s[|s| - 1])
  }

  function Pow10(n: nat): (r: nat)
    ensures r > 0
  {
    if n == 0 then 1 else 10 * Pow10(n - 1)
  }

  lemma {:induction false} DecimalBound(s: string)
    requires AllDigits(s)
    ensures Decimal(s) < Pow10(|s|)
    decreases |s|
  {
    if s != [] { DecimalBound(s[..|s| - 1]); }
  }

  lemma {:induction false} DecimalSnoc(s: string, c: char)
    requires AllDigits(s) && IsDigit(c)
    ensures AllDigits(s + [c]) && Decimal(s + [c]) == Decimal(s) * 10 + DigitValue(c)
  {
    assert (s + [c])[..|s|] == s;
  }

  /** Digits count from `0`, each place ten times the one behind it. */
  lemma {:induction false} DecimalPlaces(s: string, c: char)
    requires AllDigits(s) && '0' <= c <= '9'
    ensures Decimal("") == 0 && AllDigits(s + [c])
    ensures Decimal(s + [c]) == 10 * Decimal(s) + (c as int - '0' as int)
    ensures Pow10(0) == 1 && Pow10(|s| + 1) == 10 * Pow10(|s|)
  {
    DecimalSnoc(s, c);
  }

  datatype Result<T> = Good(value: T) | Invalid

  /** `nu_iparse` on a digit string: the decimal value cut to 32 bits. (The source
      lets a signed accumulator overflow; two's complement is assumed.) */
  method Iparse(s: string) returns (r: Result<int>)
    ensures AllDigits(s) ==> r == Good(Wrap(Decimal(s)))
    ensures r.Good? ==> IsInt32(r.value)
    ensures r.Invalid? <==>
      exists i :: 0 <= i < |s| && !IsDigit(s[i]) && !(i == 0 && s[i] == '-')
    ensures |s| > 0 && s[0] == '-' && AllDigits(s[1..]) ==> r == Good(Wrap(0 - Decimal(s[1..])))
  {
    hide Decimal, Wrap, DigitValue;
    var value, sign, i := 0, false, 0;
    assert Decimal("") == 0 == Wrap(0) by { NoDigits(); }
    while i < |s|
      invariant 0 <= i <= |s| && IsInt32(value)
      invariant sign <==> i > 0 && s[0] == '-'
      invariant forall j :: 0 <= j < i ==> IsDigit(s[j]) || (j == 0 && s[j] == '-')
      invariant AllDigits(Digits(s, i)) && value == Wrap(Decimal(Digits(s, i)))
    {
      if s[i] == '-' {
        if i != 0 { return Invalid; }
        sign := true;
      } else {
        if !IsDigit(s[i]) { return Invalid; }
        DigitsSnoc(s, i);
        DecimalSnoc(Digits(s, i), s[i]);
        WrapStep(Decimal(Digits(s, i)), DigitValue(s[i]));
        value := Wrap(value * 10 + DigitValue(s[i]));
      }
      i := i + 1;
    }
    assert !sign ==> Digits(s, |s|) == s;
    assert sign ==> Digits(s, |s|) == s[1..];
    WrapNegate(Decimal(Digits(s, |s|)));
    return Good(if sign then Wrap(-value) else value);
  }

  /** The first `i` characters of a numeral without a leading minus. */
  ghost function Digits(s: string, i: nat): string
    requires i <= |s|
  {
    if i > 0 && s[0] == '-' then s[1..i] else s[..i]
  }

  lemma {:induction false} DigitsSnoc(s: string, i: nat)
    requires i < |s| && s[i] != '-'
    ensures Digits(s, i + 1) == Digits(s, i) + [s[i]]
  {
  }

  lemma {:induction false} WrapStep(x: int, d: int)
    ensures Wrap(Wrap(x) * 10 + d) == Wrap(x * 10 + d)
  {
    var k := (x + TWO31) / TWO32;
    assert Wrap(x) == x - k * TWO32;
    WrapShift(x * 10 + d, -(k * 10));
  }

  lemma {:induction false} WrapNegate(x: int)
    ensures Wrap(-Wrap(x)) == Wrap(-x)
  {
    var k := (x + TWO31) / TWO32;
    assert Wrap(x) == x - k * TWO32;
    WrapShift(-x, k);
  }

  /** Setting bit `k` of a number. */
  function OrBit(x: nat, k: nat): nat {
    if x / Pow2(k) % 2 == 1 then x else x + Pow2(k)
  }

  function Pow2(n: nat): (r: nat)
    ensures r > 0
  {
    if n == 0 then 1 else 2 * Pow2(n - 1)
  }

  lemma {:induction false} DecimalConcat(a: string, b: string)
    requires AllDigits(a) && AllDigits(b)
    ensures AllDigits(a + b) && Decimal(a + b) == Decimal(a) * Pow10(|b|) + Decimal(b)
    decreases |b|
  {
    if b == [] {
      assert a + b == a;
    } else {
      var b' := b[..|b| - 1];
      DecimalConcat(a, b');
      DecimalSnoc(a + b', b[|b| - 1]);
      assert a + b == (a + b') + [b[|b| - 1]];
      Shift(Decimal(a), Pow10(|b'|), Decimal(b'));
    }
  }

  lemma {:induction false} Shift(a: nat, p: nat, b: nat)
    ensures (a * p + b) * 10 == a * (10 * p) + b * 10
  {
  }

  /** Where the first dot is, or the length if there is none. */
  ghost function Dot(s: string): (p: nat)
    ensures p <= |s| && (p < |s| ==> s[p] == '.')
    ensures forall i :: 0 <= i < p ==> s[i] != '.'
    decreases |s|
  {
    if s == [] || s[0] == '.' then 0 else 1 + Dot(s[1..])
  }

  ghost function Whole(s: string): string { s[..Dot(s)] }

  ghost function Fraction(s: string): string { if Dot(s) < |s| then s[Dot(s) + 1..] else [] }

  /** Digits with at most one dot, as the lexer passes them. */
  ghost predicate IsNumeral(s: string) {
    AllDigits(Whole(s)) && AllDigits(Fraction(s))
  }

  /** The text without a leading minus. */
  ghost function Unsigned(s: string): string {
    if s != "" && s[0] == '-' then s[1..] else s
  }

  /** The value of a numeral times 2^16, rounded down and cut to 32 bits. */
  ghost function FixedValue(s: string): int
    requires IsNumeral(s)
  {
    AllJoined(s);
    Wrap(Decimal(Whole(s) + Fraction(s)) * TWO16 / Pow10(|Fraction(s)|))
  }

  lemma {:induction false} AllJoined(s: string)
    requires IsNumeral(s)
    ensures AllDigits(Whole(s) + Fraction(s))
  {
  }

  /** `nu_fparse`: a numeral with at most six fraction digits gives its value; longer
      fractions and other characters are refused. After a minus the source applies the
      logical not: it gives 2 for zero and 1 for all else. */
  method Fparse(s: string) returns (r: Result<int>)
    ensures IsNumeral(s) && |Fraction(s)| <= 6 ==> r == Good(FixedValue(s))
    ensures s != "" && s[0] == '-' && IsNumeral(s[1..]) && |Fraction(s[1..])| <= 6 ==>
              r == Good(if FixedValue(s[1..]) == 0 then 2 else 1)
    ensures IsNumeral(Unsigned(s)) && |Fraction(Unsigned(s))| > 6 ==> r == Invalid
    ensures (exists i :: 0 <= i < |s| && !IsDigit(s[i]) && s[i] != '.' && !(i == 0 && s[i] == '-')) ==> r == Invalid
  {
    hide IsNumeral, Wrap, Decimal, Pow10, AllDigits;
    ghost var u := Unsigned(s);
    if IsNumeral(s) { NoSign(s); }
    var legal, sign, inte, frac, dp := ScanParts(s);
    if !legal { return Invalid; }
    var fixed := FixedBits(inte, frac, dp);
    if IsNumeral(u) {
      NumeralValue(Whole(u), Fraction(u), fixed);
      BelowTwo32(inte, frac, dp);
      WrapZero(fixed);
    }
    if sign { fixed := (if fixed == 0 then 1 else 0) + 1; }
    return Good(Wrap(fixed));
  }

  /** The sign and the digits before and after the dot. */
  method ScanParts(s: string) returns (legal: bool, sign: bool, inte: nat, frac: nat, dp: nat)
    ensures (exists i :: 0 <= i < |s| && !IsDigit(s[i]) && s[i] != '.' && !(i == 0 && s[i] == '-')) ==> !legal
    ensures legal ==> dp <= 6 && frac < Pow10(dp) && (sign <==> s != "" && s[0] == '-')
    ensures var u := Unsigned(s);
            IsNumeral(u) ==>
              && (legal <==> |Fraction(u)| <= 6)
              && AllDigits(Whole(u)) && AllDigits(Fraction(u))
              && (legal ==> inte == Decimal(Whole(u)) % TWO32 && frac == Decimal(Fraction(u)) && dp == |Fraction(u)|)
  {
    hide Decimal, Pow10, AllDigits;
    ghost var u, k := Unsigned(s), |s| - |Unsigned(s)|;
    var fracFlag, i := false, 0;
    sign, inte, frac, dp := false, 0, 0, 0;
    ScannedStart(u);
    while i < |s|
      invariant 0 <= i <= |s| && dp <= 6 && frac < Pow10(dp)
      invariant sign <==> k == 1 && i > 0
      invariant forall j :: 0 <= j < i ==> IsDigit(s[j]) || s[j] == '.' || (j == 0 && s[j] == '-')
      invariant i < k ==> !fracFlag && inte == frac == dp == 0
      invariant IsNumeral(u) && k <= i ==> Scanned(u, i - k, fracFlag, inte, frac, dp)
    {
      var c := s[i];
      if IsNumeral(u) && k <= i {
        NumeralAt(u, i - k);
        ScannedStep(u, i - k, fracFlag, inte, frac, dp);
      }
      if c == '-' {
        if i != 0 { return false, sign, inte, frac, dp; }
        sign := true;
      } else if c == '.' {
        fracFlag := true;
      } else {
        if !IsDigit(c) { return false, sign, inte, frac, dp; }
        if fracFlag {
          if dp >= 6 {
            if IsNumeral(u) { ScannedLength(u, i - k, fracFlag, inte, frac, dp); }
            return false, sign, inte, frac, dp;
          }
          Pow10Step(frac, dp, c);
          frac := frac * 10 + DigitValue(c);
          dp := dp + 1;
        } else {
          inte := (inte * 10 + DigitValue(c)) % TWO32;
        }
      }
      i := i + 1;
    }
    if IsNumeral(u) { ScannedEnd(u, fracFlag, inte, frac, dp); }
    legal := true;
  }

  lemma {:induction false} NoSign(s: string)
    requires IsNumeral(s)
    ensures Unsigned(s) == s
  {
    if s != "" { NumeralAt(s, 0); }
  }

  lemma {:induction false} BelowTwo32(inte: nat, fraction: nat, dp: nat)
    requires fraction < Pow10(dp)
    ensures inte * TWO16 % TWO32 + fraction * TWO16 / Pow10(dp) < TWO32
  {
    var q := inte * TWO16 / TWO32;
    assert inte * TWO16 % TWO32 == (inte - q * TWO16) * TWO16;
    QuotientBelow(fraction, Pow10(dp), TWO16);
  }

  lemma {:induction false} WrapZero(x: nat)
    requires x < TWO32
    ensures Wrap(x) == 0 <==> x == 0
    ensures Wrap(1) == 1 && Wrap(2) == 2
  {
  }

  /** The accumulators hold what the first `i` characters of a numeral denote. */
  ghost predicate Scanned(s: string, i: nat, fracFlag: bool, inte: nat, frac: nat, dp: nat)
    requires i <= |s|
  {
    var p := Dot(s);
    if i <= p then
      !fracFlag && frac == dp == 0 && AllDigits(s[..i]) && inte == Decimal(s[..i]) % TWO32
    else
      && fracFlag && AllDigits(s[..p]) && inte == Decimal(s[..p]) % TWO32
      && dp == i - p - 1 && AllDigits(s[p + 1..i]) && frac == Decimal(s[p + 1..i])
  }

  lemma {:induction false} ScannedStart(s: string)
    ensures Scanned(s, 0, false, 0, 0, 0)
    ensures 0 < Pow10(0)
  {
  }

  lemma {:induction false} ScannedStep(s: string, i: nat, fracFlag: bool, inte: nat, frac: nat, dp: nat)
    requires i < |s| && IsNumeral(s) && Scanned(s, i, fracFlag, inte, frac, dp)
    ensures s[i] == '.' <==> i == Dot(s)
    ensures s[i] == '.' ==> Scanned(s, i + 1, true, inte, frac, dp)
    ensures IsDigit(s[i]) && fracFlag ==> Scanned(s, i + 1, true, inte, frac * 10 + DigitValue(s[i]), dp + 1)
    ensures IsDigit(s[i]) && !fracFlag ==>
              Scanned(s, i + 1, false, (inte * 10 + DigitValue(s[i])) % TWO32, frac, dp)
  {
    hide Decimal, DigitValue, IsNumeral;
    NumeralAt(s, i);
    var p := Dot(s);
    if i < p {
      DecimalSnoc(s[..i], s[i]);
      assert s[..i + 1] == s[..i] + [s[i]];
      ModStep(Decimal(s[..i]), DigitValue(s[i]));
    } else if i > p {
      DecimalSnoc(s[p + 1..i], s[i]);
      assert s[p + 1..i + 1] == s[p + 1..i] + [s[i]];
    } else {
      assert s[p + 1..i + 1] == [];
      assert Decimal([]) == 0 by { NoDigits(); }
    }
  }

  lemma {:induction false} NoDigits()
    ensures Decimal([]) == 0 == Wrap(0)
  {
  }

  lemma {:induction false} ModStep(x: nat, d: nat)
    ensures (x % TWO32 * 10 + d) % TWO32 == (x * 10 + d) % TWO32
  {
    var q := x / TWO32;
    assert x * 10 + d == (x % TWO32 * 10 + d) + (q * 10) * TWO32;
    ModShift(x % TWO32 * 10 + d, q * 10);
  }

  lemma {:induction false} ModShift(x: nat, k: nat)
    ensures (x + k * TWO32) % TWO32 == x % TWO32
  {
    var q := x / TWO32;
    assert x + k * TWO32 == (q + k) * TWO32 + x % TWO32;
  }

  lemma {:induction false} ScannedLength(s: string, i: nat, fracFlag: bool, inte: nat, frac: nat, dp: nat)
    requires i < |s| && fracFlag && dp >= 6 && Scanned(s, i, fracFlag, inte, frac, dp)
    ensures |Fraction(s)| > 6
  {
  }

  lemma {:induction false} ScannedEnd(s: string, fracFlag: bool, inte: nat, frac: nat, dp: nat)
    requires Scanned(s, |s|, fracFlag, inte, frac, dp)
    ensures AllDigits(Whole(s)) && inte == Decimal(Whole(s)) % TWO32
    ensures AllDigits(Fraction(s)) && frac == Decimal(Fraction(s)) && dp == |Fraction(s)|
  {
    assert s[..|s|] == s;
    assert Dot(s) < |s| ==> s[Dot(s) + 1..|s|] == Fraction(s);
  }

  lemma {:induction false} Pow10Step(frac: nat, dp: nat, c: char)
    requires frac < Pow10(dp) && IsDigit(c)
    ensures frac * 10 + DigitValue(c) < Pow10(dp + 1)
  {
  }

  lemma {:induction false} NumeralAt(s: string, i: nat)
    requires i < |s|
    ensures IsNumeral(s) ==> (if i == Dot(s) then s[i] == '.' else IsDigit(s[i]))
  {
    if IsNumeral(s) && i < Dot(s) { assert s[i] == Whole(s)[i]; }
    if IsNumeral(s) && i > Dot(s) { assert s[i] == Fraction(s)[i - Dot(s) - 1]; }
  }

  /** The long division of the fraction, one bit of the result a round. */
  method FixedBits(inte: nat, fraction: nat, dp: nat) returns (fixed: nat)
    requires fraction < Pow10(dp) && dp <= 6
    ensures fixed == inte * TWO16 % TWO32 + fraction * TWO16 / Pow10(dp)
  {
    var base, frac := Pow10(dp), fraction;
    fixed := inte * TWO16 % TWO32;
    ghost var m, q: nat := inte % TWO16, 0;
    assert fixed == m * TWO16;
    var i := 0;
    while i < 16
      invariant 0 <= i <= 16 && frac < base
      invariant fraction * Pow2(i) == q * base + frac
      invariant fixed == m * TWO16 + q * Pow2(16 - i)
    {
      BitStep(fraction, base, m, q, frac, i);
      frac := frac * 2;
      if frac >= base {
        fixed := OrBit(fixed, 15 - i);
        frac := frac - base;
        q := 2 * q + 1;
      } else {
        q := 2 * q;
      }
      i := i + 1;
    }
    Pow2Of16();
    DivIs(fraction * TWO16, base, q, frac);
  }

  /** One round of the division, whether or not its bit is set. */
  lemma {:induction false} BitStep(f: nat, base: nat, m: nat, q: nat, frac: nat, i: nat)
    requires i < 16 && f * Pow2(i) == q * base + frac
    ensures f * Pow2(i + 1) == (2 * q) * base + 2 * frac == (2 * q + 1) * base + (2 * frac - base)
    ensures q * Pow2(16 - i) == (2 * q) * Pow2(15 - i)
    ensures m * TWO16 + (2 * q + 1) * Pow2(15 - i) == OrBit(m * TWO16 + q * Pow2(16 - i), 15 - i)
  {
    Double(f, i, q * base + frac);
    BitClear(m, q, i);
    Twice(q, base);
    Twice(q, Pow2(15 - i));
  }

  lemma {:induction false} Twice(q: nat, b: nat)
    ensures 2 * (q * b) == (2 * q) * b == q * (2 * b) && (2 * q + 1) * b == (2 * q) * b + b
  {
  }

  lemma {:induction false} Double(f: nat, i: nat, x: nat)
    requires f * Pow2(i) == x
    ensures f * Pow2(i + 1) == 2 * x
  {
  }

  lemma {:induction false} Pow2Of16()
    ensures Pow2(16) == TWO16
  {
    assert Pow2(4) == 16;
    assert Pow2(8) == 256;
    assert Pow2(12) == 4096;
  }

  lemma {:induction false} MulAtLeast(a: int, b: int)
    requires a >= 1 && b >= 0
    ensures a * b >= b
  {
    assert a * b == (a - 1) * b + b;
  }

  lemma {:induction false} Distribute(a: int, b: int, c: int)
    ensures (a - b) * c == a * c - b * c
  {
  }

  lemma {:induction false} DivIs(x: nat, base: nat, q: nat, r: nat)
    requires x == q * base + r && r < base
    ensures x / base == q
  {
    var d := x / base;
    assert x == d * base + x % base;
    Distribute(d, q, base);
    Distribute(q, d, base);
    if d > q { MulAtLeast(d - q, base); }
    if d < q { MulAtLeast(q - d, base); }
  }

  lemma {:induction false} Pow2Split(i: nat, n: nat)
    requires i <= n
    ensures Pow2(i) * Pow2(n - i) == Pow2(n)
    decreases i
  {
    if i > 0 { Pow2Split(i - 1, n - 1); }
  }

  /** The bit that the division sets is clear before, so OR-ing it adds it. */
  lemma {:induction false} BitClear(m: nat, q: nat, i: nat)
    requires i < 16
    ensures var x := m * TWO16 + q * Pow2(16 - i); OrBit(x, 15 - i) == x + Pow2(15 - i)
  {
    var x, d, e := m * TWO16 + q * Pow2(16 - i), Pow2(15 - i), Pow2(i);
    HalfSplit(i);
    Factor(m, q, e, d);
    ClearBit(x, 15 - i, m * e + q);
  }

  lemma {:induction false} HalfSplit(i: nat)
    requires i < 16
    ensures Pow2(16 - i) == 2 * Pow2(15 - i) && Pow2(i) * (2 * Pow2(15 - i)) == TWO16
  {
    Pow2Split(i, 16);
    Pow2Of16();
  }

  lemma {:induction false} ClearBit(x: nat, k: nat, half: nat)
    requires x == (2 * half) * Pow2(k) + 0
    ensures OrBit(x, k) == x + Pow2(k)
  {
    hide Pow2;
    DivIs(x, Pow2(k), 2 * half, 0);
  }

  lemma {:induction false} Factor(m: nat, q: nat, e: nat, d: nat)
    ensures m * (e * (2 * d)) + q * (2 * d) == (2 * (m * e + q)) * d + 0
  {
  }

  /** Scaling a sum by `t` before dividing by `b`. */
  lemma {:induction false} ScaledDiv(w: nat, f: nat, b: nat, t: nat)
    requires b > 0
    ensures (w * b + f) * t / b == w * t + f * t / b
  {
    var x := f * t;
    Regroup(w, b, f, t, x / b, x % b);
    DivIs((w * b + f) * t, b, w * t + x / b, x % b);
  }

  lemma {:induction false} Regroup(w: nat, b: nat, f: nat, t: nat, d: nat, r: nat)
    requires f * t == d * b + r
    ensures (w * b + f) * t == (w * t + d) * b + r
  {
    calc {
      (w * b + f) * t;
      (w * b) * t + f * t;
      (w * t) * b + d * b + r;
    }
  }

  lemma {:induction false} NumeralValue(whole: string, fraction: string, fixed: nat)
    requires AllDigits(whole) && AllDigits(fraction)
    requires fixed == (Decimal(whole) % TWO32) * TWO16 % TWO32 + Decimal(fraction) * TWO16 / Pow10(|fraction|)
    ensures AllDigits(whole + fraction)
    ensures Wrap(fixed) == Wrap(Decimal(whole + fraction) * TWO16 / Pow10(|fraction|))
  {
    hide Decimal, Pow10, Wrap;
    DecimalConcat(whole, fraction);
    var w, b := Decimal(whole), Pow10(|fraction|);
    ScaledDiv(w, Decimal(fraction), b, TWO16);
    var d := Decimal(fraction) * TWO16 / b;
    CutWhole(w, d);
  }

  lemma {:induction false} CutWhole(w: nat, d: nat)
    ensures Wrap((w % TWO32) * TWO16 % TWO32 + d) == Wrap(w * TWO16 + d)
  {
    var k := w / TWO32;
    assert w % TWO32 == w - k * TWO32;
    var y := (w % TWO32) * TWO16;
    assert y == w * TWO16 - k * TWO16 * TWO32;
    assert y % TWO32 == y - y / TWO32 * TWO32;
    WrapShift(w * TWO16 + d, -(k * TWO16) - y / TWO32);
  }

  /** Within the range of the format nothing is cut: the result is the value rounded
      down to a multiple of 2^-16. */
  lemma {:induction false} NumeralExact(whole: string, fraction: string)
    requires AllDigits(whole) && AllDigits(fraction) && Decimal(whole) < 0x8000
    ensures AllDigits(whole + fraction)
    ensures var v := Decimal(whole + fraction) * TWO16 / Pow10(|fraction|);
            Wrap(v) == v && Ftoi(v) == Decimal(whole)
  {
    hide Decimal, Pow10;
    DecimalConcat(whole, fraction);
    DecimalBound(fraction);
    var w, f, b := Decimal(whole), Decimal(fraction), Pow10(|fraction|);
    ScaledDiv(w, f, b, TWO16);
    QuotientBelow(f, b, TWO16);
  }

  lemma {:induction false} QuotientBelow(f: nat, b: nat, t: nat)
    requires f < b
    ensures t > 0 ==> f * t / b < t
  {
    var d := f * t / b;
    assert f * t == d * b + f * t % b;
    Distribute(b, f, t);
    if d >= t {
      Distribute(d, t, b);
      if d > t { MulAtLeast(d - t, b); }
      if t > 0 { MulAtLeast(b - f, t); }
    }
  }
}
