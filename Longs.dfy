/**
 * The parts of Kotlin's standard library the interpreter relies on: 64-bit
 * `Long` arithmetic (wrap-around `+ - *`, division rounding toward zero that
 * throws on a zero divisor), and `String.toLongOrNull`/`toLong` in radix 10.
 */
module Longs {
  import opened Results

  const MinLong: int := -0x8000_0000_0000_0000
  const MaxLong: int := 0x7FFF_FFFF_FFFF_FFFF
  const Modulus: int := 0x1_0000_0000_0000_0000

  /** Kotlin's `Long`: a signed two's-complement 64-bit integer. */
  type Long = x: int | MinLong <= x <= MaxLong

  /** Reduces an unbounded integer to the `Long` it wraps around to. */
  function Wrap(x: int): (r: Long)
    ensures (r - x) % Modulus == 0
    ensures MinLong <= x <= MaxLong ==> r == x
  {
    var m := (x - MinLong) % Modulus;
    assert x - MinLong == ((x - MinLong) / Modulus) * Modulus + m;
    m + MinLong
  }

  /** `a + b` on `Long`s: the exact sum wrapped to 64 bits. */
  function Plus(a: Long, b: Long): (r: Long)
    ensures (r - (a + b)) % Modulus == 0
    ensures MinLong <= a + b <= MaxLong ==> r == a + b
  {
    Wrap(a + b)
  }

  /** `a - b` on `Long`s: the exact difference wrapped to 64 bits. */
  function Minus(a: Long, b: Long): (r: Long)
    ensures (r - (a - b)) % Modulus == 0
    ensures MinLong <= a - b <= MaxLong ==> r == a - b
  {
    Wrap(a - b)
  }

  /** `a * b` on `Long`s: the exact product wrapped to 64 bits. */
  function Times(a: Long, b: Long): (r: Long)
    ensures (r - (a * b)) % Modulus == 0
    ensures MinLong <= a * b <= MaxLong ==> r == a * b
  {
    Wrap(a * b)
  }

  function Abs(x: int): nat { if x < 0 then -x else x }

  /** Integer division rounding toward zero (the JVM's `ldiv`), before wrap-around. */
  function TruncatedQuotient(a: int, b: int): int
    requires b != 0
  {
    var q := Abs(a) / Abs(b);
    if (a < 0) == (b < 0) then q else -q
  }

  /**
   * Kotlin's `Long` division `a / b`: no result (an ArithmeticException) when
   * `b` is zero, otherwise the quotient rounded toward zero, wrapped to 64 bits
   * (which only changes `MinLong / -1`).
   */
  function Divide(a: Long, b: Long): (r: Option<Long>)
    ensures r.None? <==> b == 0
  {
    if b == 0 then None else Some(Wrap(TruncatedQuotient(a, b)))
  }

  lemma TruncatedQuotientRoundsTowardZero(a: int, b: int)
    requires b != 0
    ensures var q := TruncatedQuotient(a, b);
            var rem := a - q * b;
            Abs(rem) < Abs(b) && (rem == 0 || (rem < 0 <==> a < 0)) && Abs(q * b) <= Abs(a)
  {
    var bigA: int, bigB: int := Abs(a), Abs(b);
    var q0 := bigA / bigB;
    var m := bigA % bigB;
    var p := q0 * bigB;
    assert bigA == p + m && 0 <= m < bigB;
    var q := TruncatedQuotient(a, b);
    var qb := SignedProduct(q0, bigB, q, b);
    assert q * b == (if a < 0 then -p else p);
  }

  /** Multiplying values of magnitudes `x` and `y` gives `x * y`, negated when exactly one is negative. */
  lemma SignedProduct(x: int, y: int, sx: int, sy: int) returns (pr: int)
    requires 0 <= x && 0 < y
    requires sx == x || sx == -x
    requires sy == y || sy == -y
    ensures pr == sx * sy
    ensures pr == (if (sx == x) == (sy == y) then x * y else -(x * y))
  {
    pr := sx * sy;
    if sx == x && sy == y {
    } else if sx == x {
      assert sx * sy == -(x * y);
    } else if sy == y {
      assert sx * sy == -(x * y);
    } else {
      assert sx * sy == x * y;
    }
  }

  predicate IsDigit(c: char) { '0' <= c <= '9' }

  /** Every character of `s` is a decimal digit (stated from the back, as `DigitsValue` reads). */
  predicate AllDigits(s: string)
    decreases |s|
  {
    |s| == 0 || (AllDigits(s[..|s| - 1]) && IsDigit(s[|s| - 1]))
  }

  /** `AllDigits` holds exactly when each character is a digit. */
  lemma {:induction false} AllDigitsMeansEachIsDigit(s: string)
    ensures AllDigits(s) <==> forall i :: 0 <= i < |s| ==> IsDigit(s[i])
    decreases |s|
  {
    if |s| > 0 {
      var front := s[..|s| - 1];
      AllDigitsMeansEachIsDigit(front);
      assert forall i :: 0 <= i < |front| ==> front[i] == s[i];
    }
  }

  /** The value of a string of decimal digits, most significant first. */
  function DigitsValue(ds: string): nat
    requires AllDigits(ds)
  {
    if |ds| == 0 then 0 else DigitsValue(ds[..|ds| - 1]) * 10 + (ds[|ds| - 1] as int - '0' as int)
  }

  /**
   * Kotlin's `String.toLongOrNull()` (radix 10): an optional leading `-` or `+`,
   * then one or more digits, with a value that fits a `Long`; anything else is
   * `null`. `String.toLong()` is the same, throwing NumberFormatException for `null`.
   */
  function ToLongOrNull(s: string): (r: Option<Long>)
    ensures r.Some? ==> |s| > 0
  {
    if |s| == 0 then None
    else
      var negative := s[0] == '-';
      var digits := if s[0] == '-' || s[0] == '+' then s[1..] else s;
      if |digits| == 0 || !AllDigits(digits) then None
      else
        var v: int := if negative then -(DigitsValue(digits) as int) else DigitsValue(digits);
        if MinLong <= v <= MaxLong then Some(v) else None
  }

  function Pow10(n: nat): (p: nat)
    ensures p >= 1
  {
    if n == 0 then 1 else 10 * Pow10(n - 1)
  }

  lemma {:induction false} Pow10Grows(m: nat, n: nat)
    requires m <= n
    ensures Pow10(m) <= Pow10(n)
    decreases n
  {
    if m < n {
      Pow10Grows(m, n - 1);
    }
  }

  /** A digit string with no leading zero is at least ten to the power of its length less one. */
  lemma {:induction false} DigitsValueLowerBound(ds: string)
    requires |ds| >= 1 && AllDigits(ds) && ds[0] != '0'
    ensures DigitsValue(ds) >= Pow10(|ds| - 1)
    decreases |ds|
  {
    if |ds| > 1 {
      var front := ds[..|ds| - 1];
      assert front[0] == ds[0];
      DigitsValueLowerBound(front);
    }
  }

  /** More than nineteen digits without a leading zero do not fit a Long: `toLongOrNull` gives null. */
  lemma TwentyDigitsAreOutOfRange(s: string)
    requires |s| >= 20 && AllDigits(s) && s[0] != '0'
    ensures ToLongOrNull(s) == None
  {
    AllDigitsMeansEachIsDigit(s);
    assert IsDigit(s[0]);
    DigitsValueLowerBound(s);
    Pow10Grows(19, |s| - 1);
    assert Pow10(4) == 10000;
    assert Pow10(9) == 1000000000;
    assert Pow10(14) == 100000000000000;
    assert Pow10(19) == 10000000000000000000;
  }

  /** The digits of `n` as `Long.toString` writes them (no leading zero). */
  function DigitsOf(n: nat): (ds: string)
    ensures |ds| > 0 && AllDigits(ds) && IsDigit(ds[0])
    ensures DigitsValue(ds) == n
  {
    var d := ['0' + (n % 10) as char];
    if n < 10 then
      assert d[..0] == [] && AllDigits(d[..0]) && IsDigit(d[0]);
      d
    else
      var high := DigitsOf(n / 10);
      assert (high + d)[..|high + d| - 1] == high && (high + d)[0] == high[0];
      high + d
  }

  /** `Long.toString()`: the text `write` prints for a value. */
  function DecimalText(v: Long): string
  {
    if v < 0 then ['-'] + DigitsOf(Abs(v)) else DigitsOf(v)
  }

  /** What `write` prints, `read` accepts back unchanged. */
  lemma {:induction false} ToLongOrNullReadsDecimalText(v: Long)
    ensures ToLongOrNull(DecimalText(v)) == Some(v)
  {
    if v < 0 {
      var t := DecimalText(v);
      assert t[1..] == DigitsOf(Abs(v));
    }
  }
}
