/**
  From wei to nano-ETH: a quotient rounded to a binary mantissa, then rounded again to nine decimals.  Both
  roundings are to nearest, ties to even, in exact integer arithmetic.
 */
module WeiRounding {

  const NANO: int := 1_000_000_000
  const WEI_PER_ETH: int := 1_000_000_000_000_000_000
  const MIN_PRECISION: nat := 64

  function Pow2(k: nat): (p: nat)
    ensures p > 0
  {
    if k == 0 then 1 else 2 * Pow2(k - 1)
  }

  function BitLen(n: nat): (b: nat)
    ensures n < Pow2(b)
  {
    if n == 0 then 0 else 1 + BitLen(n / 2)
  }

  /** The mantissa width of the quotient: that of the integer operand, at least 64. */
  function Precision(n: nat): nat {
    if BitLen(n) < MIN_PRECISION then MIN_PRECISION else BitLen(n)
  }

  lemma {:induction false} BitLenIsLeast(n: nat)
    requires n > 0
    ensures BitLen(n) > 0 && Pow2(BitLen(n) - 1) <= n < Pow2(BitLen(n))
  {
    if n > 1 {
      BitLenIsLeast(n / 2);
    }
  }

  /** The precision is 64 bits for every value that fits in them, and just enough for any other. */
  lemma PrecisionIs(n: nat)
    ensures n < Pow2(64) ==> Precision(n) == 64
    ensures n >= Pow2(64) ==> Precision(n) > 64 && Pow2(Precision(n) - 1) <= n < Pow2(Precision(n))
  {
    if n > 0 {
      BitLenIsLeast(n);
      if BitLen(n) > 64 {
        Pow2Monotone(64, BitLen(n) - 1);
      } else {
        Pow2Monotone(BitLen(n), 64);
      }
    }
  }

  lemma {:induction false} Pow2Monotone(a: nat, b: nat)
    requires a <= b
    ensures Pow2(a) <= Pow2(b)
    decreases b
  {
    if a < b {
      Pow2Monotone(a, b - 1);
    }
  }

  /** The nearest integer to a / b, the even one of two equally near. */
  function DivRoundEven(a: nat, b: nat): (q: nat)
    requires b > 0
    ensures Rounds(a, b, q)
  {
    var q, r := a / b, a % b;
    var up := 2 * r > b || (2 * r == b && q % 2 == 1);
    RoundEither(a, b, q, r);
    if up then q + 1 else q
  }

  /** No integer is nearer to a / b than q, and q is even if another is as near. */
  predicate Rounds(a: int, b: int, q: int) {
    && -b <= 2 * (q * b - a) <= b
    && (2 * (q * b - a) == b || 2 * (a - q * b) == b ==> q % 2 == 0)
  }

  lemma RoundEither(a: nat, b: nat, q: nat, r: nat)
    requires b > 0 && q == a / b && r == a % b
    ensures 2 * r < b || (2 * r == b && q % 2 == 0) ==> Rounds(a, b, q)
    ensures 2 * r > b || (2 * r == b && q % 2 == 1) ==> Rounds(a, b, q + 1)
  {
    var p := q * b;
    assert a == p + r && 0 <= r < b;
    assert (q + 1) * b == p + b;
  }

  /** How far n / 10^18 must be shifted left, from `d` on, for its mantissa to have at least `p` bits. */
  function Shift(n: nat, d: nat, p: nat): (e: nat)
    requires n > 0 && p > 0
    requires d > 0 ==> n * Pow2(d - 1) < Pow2(p - 1) * WEI_PER_ETH
    ensures Pow2(p - 1) * WEI_PER_ETH <= n * Pow2(e)
    ensures e > 0 ==> n * Pow2(e - 1) < Pow2(p - 1) * WEI_PER_ETH
    decreases Pow2(p - 1) * WEI_PER_ETH - n * Pow2(d)
  {
    if Pow2(p - 1) * WEI_PER_ETH <= n * Pow2(d) then d
    else
      assert n * Pow2(d + 1) == 2 * (n * Pow2(d)) by { Doubling(n, d); }
      Shift(n, d + 1, p)
  }

  lemma Doubling(n: nat, d: nat)
    requires n > 0
    ensures n * Pow2(d + 1) == 2 * (n * Pow2(d)) && n * Pow2(d) > 0
  {
    var p := Pow2(d);
    assert n * (2 * p) == 2 * (n * p);
  }

  /** The binary quotient n / 10^18 is `Mantissa(n) / 2^Exponent(n)`. */
  function Exponent(n: nat): nat
    requires n > 0
  {
    Shift(n, 0, Precision(n))
  }

  function Mantissa(n: nat): nat
    requires n > 0
  {
    DivRoundEven(n * Pow2(Exponent(n)), WEI_PER_ETH)
  }

  /** The number of nano-ETH printed for n wei. */
  function NanoEth(n: nat): nat {
    if n == 0 then 0 else DivRoundEven(Mantissa(n) * NANO, Pow2(Exponent(n)))
  }

  /** The shift normalises: before rounding, the mantissa has exactly the quotient's precision in bits. */
  lemma MantissaIsNormalised(n: nat)
    requires n > 0
    ensures var scaled := n * Pow2(Exponent(n));
            Pow2(Precision(n) - 1) * WEI_PER_ETH <= scaled < Pow2(Precision(n)) * WEI_PER_ETH
  {
    var p, e := Precision(n), Exponent(n);
    Doubling(Pow2(p - 1), 0);
    assert Pow2(p) == 2 * Pow2(p - 1);
    Pow2Monotone(BitLen(n), p);
    if e > 0 {
      Doubling(n, e - 1);
    }
  }

  /** n < 2 * half and half * 10^18 <= n * unit leave no room for a coarse unit. */
  lemma FineUnit(n: int, half: int, unit: int)
    requires 0 < n < 2 * half && half * WEI_PER_ETH <= n * unit
    ensures WEI_PER_ETH < 2 * unit
  {
    assert n * WEI_PER_ETH < (2 * half) * WEI_PER_ETH;
    assert n * (2 * unit) == 2 * (n * unit);
    CancelLess(n, WEI_PER_ETH, 2 * unit);
  }

  /** The binary quotient is so fine that rounding it moves the value by less than one wei. */
  lemma QuotientIsFine(n: nat)
    requires n > 0
    ensures WEI_PER_ETH < 2 * Pow2(Exponent(n))
  {
    var p := Precision(n);
    MantissaIsNormalised(n);
    Pow2Monotone(BitLen(n), p);
    assert n < Pow2(p) == 2 * Pow2(p - 1);
    FineUnit(n, Pow2(p - 1), Pow2(Exponent(n)));
  }

  lemma CancelLess(c: int, a: int, b: int)
    requires c > 0 && c * a < c * b
    ensures a < b
  {
  }

  /** Two roundings to nearest, the first this fine, err together by at most half a nano-ETH. */
  lemma DoubleRounding(n: int, k: int, mantissa: int, unit: int)
    requires WEI_PER_ETH < 2 * unit
    requires -WEI_PER_ETH <= 2 * (mantissa * WEI_PER_ETH - n * unit) <= WEI_PER_ETH
    requires -unit <= 2 * (k * unit - mantissa * NANO) <= unit
    ensures -NANO <= 2 * (k * NANO - n) <= NANO
  {
    var x := k * NANO - n;
    assert x * unit == (k * unit) * NANO - n * unit;
    assert 2 * (x * unit) <= NANO * unit + WEI_PER_ETH;
    assert -(NANO * unit + WEI_PER_ETH) <= 2 * (x * unit);
    assert unit * (2 * x) == 2 * (x * unit);
    assert unit * (NANO + 2) == NANO * unit + 2 * unit;
    assert unit * (-NANO - 2) == -(NANO * unit) - 2 * unit;
    CancelLess(unit, 2 * x, NANO + 2);
    CancelLess(unit, -NANO - 2, 2 * x);
  }

  /** Despite double rounding, the printed nano-ETH are within half a nano-ETH of the wei value. */
  lemma NearestNanoEth(n: nat)
    ensures -NANO <= 2 * (NanoEth(n) * NANO - n) <= NANO
  {
    if n > 0 {
      QuotientIsFine(n);
      DoubleRounding(n, NanoEth(n), Mantissa(n), Pow2(Exponent(n)));
    }
  }

  /** So except on exact ties the result is the one nearest integer. */
  lemma NanoEthIsNearest(n: nat)
    requires n % NANO != NANO / 2
    ensures NanoEth(n) == n / NANO + if n % NANO < NANO / 2 then 0 else 1
  {
    NearestNanoEth(n);
    Nearest(NanoEth(n), n / NANO, n % NANO, n);
  }

  /** The decision at a tie: the first rounding went up, or it was exact and the even neighbour is the upper one. */
  predicate TieGoesUp(n: nat)
    requires n > 0
  {
    var rounded, exact := Mantissa(n) * WEI_PER_ETH, n * Pow2(Exponent(n));
    rounded > exact || (rounded == exact && n / NANO % 2 == 1)
  }

  /** On an exact tie the error of the first rounding decides, and only if there is none, evenness. */
  lemma TiesFollowTheQuotient(n: nat)
    requires n % NANO == NANO / 2
    ensures NanoEth(n) == n / NANO + if TieGoesUp(n) then 1 else 0
  {
    NearestNanoEth(n);
    TieBreaks(NanoEth(n), n / NANO, Mantissa(n), Pow2(Exponent(n)), n);
  }

  lemma TieBreaks(k: int, q: int, mantissa: int, unit: int, n: int)
    requires unit > 0 && 2 * n == (2 * q + 1) * NANO && -NANO <= 2 * (k * NANO - n) <= NANO
    requires Rounds(mantissa * NANO, unit, k)
    ensures mantissa * WEI_PER_ETH > n * unit ==> k == q + 1
    ensures mantissa * WEI_PER_ETH < n * unit ==> k == q
    ensures mantissa * WEI_PER_ETH == n * unit ==> k == if q % 2 == 1 then q + 1 else q
  {
    TieError(q, mantissa, unit, n);
    if k == q + 1 {
      assert k * unit == q * unit + unit;
    }
    NeighbourOfTie(k, q, k * unit, mantissa * NANO, q * unit, unit);
  }

  /** The error of the first rounding, measured from the middle of the two neighbours. */
  lemma TieError(q: int, mantissa: int, unit: int, n: int)
    requires 2 * n == (2 * q + 1) * NANO
    ensures 2 * (mantissa * WEI_PER_ETH - n * unit) == (2 * (mantissa * NANO) - (2 * (q * unit) + unit)) * NANO
  {
    assert 2 * (n * unit) == (2 * n) * unit;
    assert (2 * q + 1) * NANO * unit == (2 * (q * unit) + unit) * NANO;
  }

  lemma NeighbourOfTie(k: int, q: int, printed: int, value: int, lower: int, unit: int)
    requires unit > 0 && (k == q || k == q + 1) && printed == lower + if k == q then 0 else unit
    requires -unit <= 2 * (printed - value) <= unit
    requires 2 * (printed - value) == unit || 2 * (value - printed) == unit ==> k % 2 == 0
    ensures 2 * value > 2 * lower + unit ==> k == q + 1
    ensures 2 * value < 2 * lower + unit ==> k == q
    ensures 2 * value == 2 * lower + unit ==> k == if q % 2 == 1 then q + 1 else q
  {
  }

  lemma Nearest(k: int, q: int, r: int, n: int)
    requires n == q * NANO + r && 0 <= r < NANO && r != NANO / 2
    requires -NANO <= 2 * (k * NANO - n) <= NANO
    ensures k == q + if r < NANO / 2 then 0 else 1
  {
  }

  /** Printing is monotone in the wei value. */
  lemma NanoEthIsMonotone(n: nat, m: nat)
    requires n <= m
    ensures NanoEth(n) <= NanoEth(m)
  {
    if n < m {
      NearestNanoEth(n);
      NearestNanoEth(m);
    }
  }
}
