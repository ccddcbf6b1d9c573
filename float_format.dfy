/** `fmt.Sprintf("%.2f", float64(n))` for a Go `int` n: the conversion rounds n
    to the nearest float64 (53 significant bits, ties to even), and the printed
    value of an integral float is its exact decimal digits followed by ".00". */
module FloatFormat {
  import opened Decimal

  /** Significand bits of a float64. */
  const Precision: nat := 53

  function Pow2(e: nat): (p: nat)
    ensures p >= 1
  {
    if e == 0 then 1 else 2 * Pow2(e - 1)
  }

  /** The number of binary digits of m (0 for zero). */
  function BitLength(m: nat): nat {
    if m == 0 then 0 else 1 + BitLength(m / 2)
  }

  lemma {:induction false} BitLengthBounds(m: nat)
    requires m > 0
    ensures Pow2(BitLength(m) - 1) <= m < Pow2(BitLength(m))
  {
    if m > 1 {
      BitLengthBounds(m / 2);
    }
  }

  /** Powers of two are ordered as their exponents. */
  lemma {:induction false} Pow2Reflects(a: nat, b: nat)
    requires Pow2(a) <= Pow2(b)
    ensures a <= b
  {
    if a > 0 {
      Pow2Reflects(a - 1, b - 1);
    }
  }

  /** The gap between consecutive values at magnitude m of a binary format with
      p significand bits. */
  function SpacingAt(m: nat, p: nat): (u: nat)
    ensures u >= 1
  {
    Pow2(if BitLength(m) > p then BitLength(m) - p else 0)
  }

  /** The gap between consecutive float64 values at magnitude m. */
  function Spacing(m: nat): (u: nat)
    ensures u >= 1
  {
    SpacingAt(m, Precision)
  }

  /** The multiple of u nearest to m, counted in units of u; of two equally near
      multiples, the even one. */
  function NearestMultiple(m: nat, u: nat): (k: nat)
    requires u >= 1
    ensures 2 * (k * u - m) <= u && 2 * (m - k * u) <= u
    ensures (2 * (k * u - m) == u || 2 * (m - k * u) == u) ==> k % 2 == 0
  {
    var q := m / u;
    var rem := m % u;
    assert m == q * u + rem;
    assert (q + 1) * u == q * u + u;
    if 2 * rem > u || (2 * rem == u && q % 2 == 1) then q + 1 else q
  }

  /** `float64(n)` as an integer: the magnitude rounded to a multiple of its float64
      spacing, then signed. */
  function ToFloat64(n: int): (r: int)
    ensures (n < 0 ==> r <= 0) && (n >= 0 ==> r >= 0)
    ensures 2 * (r - n) <= Spacing(if n < 0 then -n else n) && 2 * (n - r) <= Spacing(if n < 0 then -n else n)
  {
    var m: nat := if n < 0 then -n else n;
    var u := Spacing(m);
    var r := NearestMultiple(m, u) * u;
    if n < 0 then -r else r
  }

  /** With p significand bits, magnitudes up to 2^p are representable. */
  lemma MagnitudeExactAt(m: nat, p: nat)
    requires 1 <= p && m <= Pow2(p)
    ensures NearestMultiple(m, SpacingAt(m, p)) * SpacingAt(m, p) == m
  {
    if m > 0 && BitLength(m) > p {
      LongestAtMost(m, p);
      assert SpacingAt(m, p) == 2;
      assert m == 2 * Pow2(p - 1);
      NearestEvenByTwo(m);
    } else {
      assert SpacingAt(m, p) == 1;
      NearestByOne(m);
    }
  }

  /** A positive magnitude up to 2^p has at most p + 1 binary digits, and p + 1
      only when it is 2^p. */
  lemma LongestAtMost(m: nat, p: nat)
    requires 1 <= m <= Pow2(p)
    ensures BitLength(m) <= p + 1
    ensures BitLength(m) == p + 1 ==> m == Pow2(p)
  {
    BitLengthBounds(m);
    Pow2Reflects(BitLength(m) - 1, p);
  }

  lemma NearestByOne(m: nat)
    ensures NearestMultiple(m, 1) * 1 == m
  {
  }

  lemma NearestEvenByTwo(m: nat)
    requires m % 2 == 0
    ensures NearestMultiple(m, 2) * 2 == m
  {
  }

  /** Integers up to 2^53 in magnitude convert exactly. */
  lemma ToFloat64Exact(n: int)
    requires -(Pow2(Precision) as int) <= n <= Pow2(Precision)
    ensures ToFloat64(n) == n
  {
    MagnitudeExactAt(if n < 0 then -n else n, Precision);
  }

  /** `%.2f` of `float64(n)`. */
  function FormatFixed2(n: int): (s: string)
    ensures |s| >= 4 && s[|s| - 3..] == ".00"
  {
    FormatInt(ToFloat64(n)) + ".00"
  }

  /** `%.2f` of an amount up to 2^53 in magnitude prints that amount's digits. */
  lemma FormatFixed2Exact(n: int)
    requires -(Pow2(Precision) as int) <= n <= Pow2(Precision)
    ensures FormatFixed2(n) == FormatInt(n) + ".00"
  {
    ToFloat64Exact(n);
  }
}
