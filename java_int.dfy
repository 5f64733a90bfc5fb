/** Java's 32-bit `int`: its range, its wrap-around arithmetic and `Integer.toString`. */
module JavaInt {

  const MIN: int := -0x8000_0000
  const MAX: int := 0x7fff_ffff
  const MODULUS: int := 0x1_0000_0000

  /** The values of a Java `int` (or of a non-null `Integer`). */
  type Int32 = x: int | MIN <= x <= MAX

  /** The result of a Java `int` addition or subtraction whose exact value is `x`:
      two's-complement wrap-around into the 32-bit range. */
  function Wrap(x: int): (r: Int32)
    ensures (x - r) % MODULUS == 0
    ensures MIN <= x <= MAX ==> r == x
    ensures MAX < x < MAX + MODULUS ==> r == x - MODULUS
    ensures MIN - MODULUS < x < MIN ==> r == x + MODULUS
  {
    (x - MIN) % MODULUS + MIN
  }

  /** Two exact values that differ by a multiple of 2^32 wrap to the same `int`. */
  lemma {:induction false} WrapCongruent(x: int, y: int)
    requires (x - y) % MODULUS == 0
    ensures Wrap(x) == Wrap(y)
  {
    var k := (x - y) / MODULUS;
    assert x - MIN == (y - MIN) + k * MODULUS;
    ModMultiple(y - MIN, k);
  }

  lemma {:induction false} ModMultiple(a: int, k: int)
    ensures (a + k * MODULUS) % MODULUS == a % MODULUS
    decreases if k < 0 then -k else k
  {
    if k > 0 {
      ModMultiple(a, k - 1);
      assert a + k * MODULUS == (a + (k - 1) * MODULUS) + MODULUS;
    } else if k < 0 {
      ModMultiple(a, k + 1);
      assert a + k * MODULUS == (a + (k + 1) * MODULUS) - MODULUS;
    }
  }

  /** Adding to an already wrapped partial result wraps like adding to the exact one:
      a running `int` sum equals the exact sum reduced once at the end. */
  lemma {:induction false} WrapAddLeft(a: int, b: int)
    ensures Wrap(Wrap(a) + b) == Wrap(a + b)
  {
    var w := Wrap(a);
    assert (a - w) % MODULUS == 0;
    assert (a + b) - (w + b) == a - w;
    WrapCongruent(w + b, a + b);
  }

  /** The decimal digit character of `d`. */
  function Digit(d: int): (c: char)
    requires 0 <= d < 10
    ensures '0' <= c <= '9'
  {
    "0123456789"[d]
  }

  /** The digits of a non-negative number, most significant first, with no leading zero. */
  function Digits(n: nat): (s: string)
    ensures |s| >= 1
    ensures forall i :: 0 <= i < |s| ==> '0' <= s[i] <= '9'
    ensures n < 10 <==> |s| == 1
    ensures s[|s| - 1] == Digit(n % 10)
  {
    if n < 10 then [Digit(n)] else Digits(n / 10) + [Digit(n % 10)]
  }

  /** `Integer.toString(n)` (and `"" + n`): an optional minus sign, then the digits of |n|. */
  function Decimal(n: int): (s: string)
    ensures 0 <= n ==> s == Digits(n)
    ensures n < 0 ==> s == "-" + Digits(-n)
  {
    if n < 0 then "-" + Digits(-n) else Digits(n)
  }

  lemma DigitInjective(a: int, b: int)
    requires 0 <= a < 10 && 0 <= b < 10 && Digit(a) == Digit(b)
    ensures a == b
  {
  }

  /** Different non-negative numbers have different digit strings. */
  lemma {:induction false} DigitsInjective(a: nat, b: nat)
    requires Digits(a) == Digits(b)
    ensures a == b
    decreases a
  {
    var s := Digits(a);
    DigitInjective(a % 10, b % 10);
    if a >= 10 {
      assert s[..|s| - 1] == Digits(a / 10);
      assert Digits(b)[..|s| - 1] == Digits(b / 10);
      DigitsInjective(a / 10, b / 10);
    }
  }

  /** `Integer.toString` starts with a minus sign exactly for negative numbers. */
  lemma DecimalSign(n: int)
    ensures (Decimal(n)[0] == '-') <==> n < 0
  {
    if n >= 0 {
      assert '0' <= Digits(n)[0] <= '9';
    }
  }

  /** Equal texts are texts of numbers of the same sign. */
  lemma DecimalSignsAgree(a: int, b: int)
    requires Decimal(a) == Decimal(b)
    ensures (a < 0) == (b < 0)
  {
    DecimalSign(a);
    DecimalSign(b);
  }

  /** Removing a common leading minus sign keeps texts equal. */
  lemma SignCancels(x: string, y: string)
    requires "-" + x == "-" + y
    ensures x == y
  {
    assert x == ("-" + x)[1..];
  }

  /** Different negative numbers have different texts. */
  lemma NegativeDecimalInjective(a: int, b: int)
    requires a < 0 && b < 0 && Decimal(a) == Decimal(b)
    ensures a == b
  {
    var m: nat, n: nat := -a, -b;
    SignCancels(Digits(m), Digits(n));
    DigitsInjective(m, n);
  }

  /** `Integer.toString` is injective. */
  lemma {:induction false} DecimalInjective(a: int, b: int)
    requires Decimal(a) == Decimal(b)
    ensures a == b
  {
    DecimalSignsAgree(a, b);
    if a < 0 {
      NegativeDecimalInjective(a, b);
    } else {
      DigitsInjective(a, b);
    }
  }
}
