/**
 * Machine integers: the ranges of `i32` and of `usize` on a 64-bit target, Rust's
 * `i32::from_str` (radix 10) and the `Display` of an `i32`.
 */
module Decimal {
  import opened Wrappers

  const I32_MIN: int := -0x8000_0000
  const I32_MAX: int := 0x7FFF_FFFF

  /** The integers an `i32` can hold. */
  newtype i32 = x: int | -0x8000_0000 <= x < 0x8000_0000

  const USIZE_MODULUS: int := 0x1_0000_0000_0000_0000

  /** The integers a `usize` can hold on a 64-bit target. */
  newtype usize = x: int | 0 <= x < 0x1_0000_0000_0000_0000

  lemma MulAtLeast(k: int, m: nat)
    requires k >= 1
    ensures k * m >= m
  {
    assert k * m == (k - 1) * m + m;
  }

  /** A quotient and remainder pair is unique. */
  lemma DivUnique(q: int, s: int, q': int, s': int, m: nat)
    requires 0 <= s < m && 0 <= s' < m && q * m + s == q' * m + s'
    ensures q == q' && s == s'
  {
    assert (q - q') * m == s' - s;
    if q > q' {
      MulAtLeast(q - q', m);
    } else if q < q' {
      MulAtLeast(q' - q, m);
    }
  }

  /** Adding a multiple of the modulus leaves the remainder unchanged. */
  lemma ShiftMod(a: int, k: int, m: nat)
    requires m > 0
    ensures (a + k * m) % m == a % m
  {
    var q, r := a / m, a % m;
    assert a + k * m == (q + k) * m + r;
    DivUnique(q + k, r, (a + k * m) / m, (a + k * m) % m, m);
  }

  /** The kinds of `std::num::ParseIntError`. */
  datatype IntErrorKind = Empty | InvalidDigit | PosOverflow | NegOverflow

  /** The `Display` text of a `ParseIntError`. */
  function IntErrorMessage(k: IntErrorKind): string {
    match k
    case Empty => "cannot parse integer from empty string"
    case InvalidDigit => "invalid digit found in string"
    case PosOverflow => "number too large to fit in target type"
    case NegOverflow => "number too small to fit in target type"
  }

  predicate IsDigit(c: char) { '0' <= c <= '9' }

  function DigitValue(c: char): nat
    requires IsDigit(c)
  {
    c as int - '0' as int
  }

  predicate AllDigits(s: string) { forall i :: 0 <= i < |s| ==> IsDigit(s[i]) }

  /** The value of the digits `s` read after the digits already worth `acc`. */
  function Horner(acc: int, s: string): int
    requires AllDigits(s)
    decreases |s|
  {
    if s == [] then acc else Horner(acc * 10 + DigitValue(s[0]), s[1..])
  }

  /**
   * The digit loop of `from_str_radix`: digits are consumed left to right, an
   * invalid digit is reported where it stands, and overflow is reported at the
   * first digit whose partial value leaves the `i32` range. Negative numbers are
   * accumulated downwards, as the standard library does.
   */
  function Accumulate(digits: string, acc: int, positive: bool): Result<int, IntErrorKind>
    decreases |digits|
  {
    if digits == [] then Ok(acc)
    else if !IsDigit(digits[0]) then Err(InvalidDigit)
    else
      var next := if positive then acc * 10 + DigitValue(digits[0]) else acc * 10 - DigitValue(digits[0]);
      if positive && next > I32_MAX then Err(PosOverflow)
      else if !positive && next < I32_MIN then Err(NegOverflow)
      else Accumulate(digits[1..], next, positive)
  }

  /** `i32::from_str(s)`: an optional sign, then at least one decimal digit. */
  function ParseI32(s: string): (r: Result<int, IntErrorKind>)
    ensures r.Ok? ==> I32_MIN <= r.value <= I32_MAX
    ensures r == Err(Empty) <==> s == []
  {
    if s == [] then Err(Empty)
    else if s == "+" || s == "-" then Err(InvalidDigit)
    else if s[0] == '+' then
      AccumulateInRange(s[1..], 0, true);
      Accumulate(s[1..], 0, true)
    else if s[0] == '-' then
      AccumulateInRange(s[1..], 0, false);
      Accumulate(s[1..], 0, false)
    else
      AccumulateInRange(s, 0, true);
      Accumulate(s, 0, true)
  }

  lemma {:induction false} AccumulateInRange(digits: string, acc: int, positive: bool)
    requires if positive then 0 <= acc <= I32_MAX else I32_MIN <= acc <= 0
    ensures Accumulate(digits, acc, positive).Ok? ==> I32_MIN <= Accumulate(digits, acc, positive).value <= I32_MAX
    ensures Accumulate(digits, acc, positive) != Err(Empty)
    decreases |digits|
  {
    if digits != [] && IsDigit(digits[0]) {
      var next := if positive then acc * 10 + DigitValue(digits[0]) else acc * 10 - DigitValue(digits[0]);
      if (positive && next <= I32_MAX) || (!positive && next >= I32_MIN) {
        AccumulateInRange(digits[1..], next, positive);
      }
    }
  }

  // ---------------------------------------------------------------------------
  // Formatting
  // ---------------------------------------------------------------------------

  function DigitChar(d: nat): char
    requires d < 10
  {
    ('0' as int + d) as char
  }

  /** The decimal digits of `n`, most significant first, without leading zeros. */
  function Digits(n: nat): (r: string)
    ensures r != [] && AllDigits(r)
    decreases n
  {
    if n < 10 then [DigitChar(n)] else Digits(n / 10) + [DigitChar(n % 10)]
  }

  /** `format!("{}", n)` for an integer: a `'-'` before the digits of a negative number. */
  function FormatInt(n: int): string {
    if n < 0 then "-" + Digits(-n) else Digits(n)
  }

  lemma {:induction false} HornerAppend(acc: int, s: string, c: char)
    requires AllDigits(s) && IsDigit(c)
    ensures AllDigits(s + [c])
    ensures Horner(acc, s + [c]) == Horner(acc, s) * 10 + DigitValue(c)
    decreases |s|
  {
    if s != [] {
      assert (s + [c])[1..] == s[1..] + [c];
      HornerAppend(acc * 10 + DigitValue(s[0]), s[1..], c);
    }
  }

  /** Reading the digits of `n` gives back `n`. */
  lemma {:induction false} HornerDigits(n: nat)
    ensures Horner(0, Digits(n)) == n
    decreases n
  {
    if n >= 10 {
      HornerDigits(n / 10);
      HornerAppend(0, Digits(n / 10), DigitChar(n % 10));
    }
  }

  lemma {:induction false} HornerGrows(acc: int, s: string)
    requires acc >= 0 && AllDigits(s)
    ensures Horner(acc, s) >= acc
    decreases |s|
  {
    if s != [] {
      HornerGrows(acc * 10 + DigitValue(s[0]), s[1..]);
    }
  }

  /** Over an all-digit string the digit loop overflows exactly when the full value does. */
  lemma {:induction false} AccumulatePositive(s: string, acc: int)
    requires acc >= 0 && AllDigits(s) && acc <= I32_MAX
    ensures Accumulate(s, acc, true) == if Horner(acc, s) <= I32_MAX then Ok(Horner(acc, s)) else Err(PosOverflow)
    decreases |s|
  {
    if s != [] {
      var next := acc * 10 + DigitValue(s[0]);
      HornerGrows(next, s[1..]);
      if next <= I32_MAX {
        AccumulatePositive(s[1..], next);
      }
    }
  }

  lemma {:induction false} AccumulateNegative(s: string, acc: int)
    requires acc <= 0 && AllDigits(s) && acc >= I32_MIN
    ensures Accumulate(s, acc, false) == if -Horner(-acc, s) >= I32_MIN then Ok(-Horner(-acc, s)) else Err(NegOverflow)
    decreases |s|
  {
    if s != [] {
      var next := acc * 10 - DigitValue(s[0]);
      assert -next == (-acc) * 10 + DigitValue(s[0]);
      HornerGrows(-next, s[1..]);
      if next >= I32_MIN {
        AccumulateNegative(s[1..], next);
      }
    }
  }

  /** Every `i32` survives a trip through its decimal text. */
  lemma FormatParseRoundTrip(n: int)
    requires I32_MIN <= n <= I32_MAX
    ensures ParseI32(FormatInt(n)) == Ok(n)
  {
    if n < 0 {
      var ds := Digits(-n);
      HornerDigits(-n);
      assert FormatInt(n)[1..] == ds;
      assert FormatInt(n) != "-";
      AccumulateNegative(ds, 0);
    } else {
      var ds := Digits(n);
      HornerDigits(n);
      assert ds[0] != '+' && ds[0] != '-';
      AccumulatePositive(ds, 0);
    }
  }

  /** Distinct integers have distinct decimal text. */
  lemma FormatIntInjective(m: int, n: int)
    requires I32_MIN <= m <= I32_MAX && I32_MIN <= n <= I32_MAX
    requires FormatInt(m) == FormatInt(n)
    ensures m == n
  {
    FormatParseRoundTrip(m);
    FormatParseRoundTrip(n);
  }
}
