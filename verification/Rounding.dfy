/**
 * Fixed point arithmetic. Quantities, prices and costs are integers that count units of the
 * fourth decimal (the Numeric(12, 4) columns). Round(num, den) is the integer that Python's
 * round() gives for the exact rational num / den: the nearest one, ties going to the even one.
 */
module Rounding {

  function Round(num: int, den: int): int
    requires den > 0
  {
    var down := num / den;
    var rest := num % den;
    if 2 * rest < den then down
    else if 2 * rest > den then down + 1
    else if down % 2 == 0 then down else down + 1
  }

  /** What makes r the rounding of num / den: within half a unit, and even when exactly half way. */
  ghost predicate NearestEven(num: int, den: int, r: int) {
    && 2 * num - den <= 2 * (den * r) <= 2 * num + den
    && (2 * (den * r) == 2 * num - den || 2 * (den * r) == 2 * num + den ==> r % 2 == 0)
  }

  lemma RoundIsNearestEven(num: int, den: int)
    requires den > 0
    ensures NearestEven(num, den, Round(num, den))
  {
    var down := num / den;
    assert num == den * down + num % den;
    assert den * (down + 1) == den * down + den;
  }

  lemma NearestEvenReflectsOrder(a: int, b: int, den: int, r: int, t: int)
    requires den > 0 && r < t && NearestEven(a, den, r) && NearestEven(b, den, t)
    ensures a < b
  {
    var gap := t - r;
    assert den * t == den * r + den * gap;
    if gap == 1 {
      assert den * gap == den;
    } else {
      MulMonotone(den, 2, gap);
    }
  }

  /** The specification has one solution, so Round is the only function that meets it. */
  lemma NearestEvenIsUnique(num: int, den: int, r: int, t: int)
    requires den > 0 && NearestEven(num, den, r) && NearestEven(num, den, t)
    ensures r == t
  {
    if r < t {
      NearestEvenReflectsOrder(num, num, den, r, t);
    } else if t < r {
      NearestEvenReflectsOrder(num, num, den, t, r);
    }
  }

  lemma MulMonotone(k: int, a: int, b: int)
    requires k >= 0 && a <= b
    ensures k * a <= k * b
  {
  }

  /** Rounding sees the rational, not the way it is written. */
  lemma RoundScaled(num: int, den: int, k: int)
    requires den > 0 && k > 0
    ensures den * k > 0 && Round(num * k, den * k) == Round(num, den)
  {
    var r := Round(num, den);
    RoundIsNearestEven(num, den);
    NearestEvenScaled(num, den, k, r);
    RoundIsNearestEven(num * k, den * k);
    NearestEvenIsUnique(num * k, den * k, Round(num * k, den * k), r);
  }

  lemma NearestEvenScaled(num: int, den: int, k: int, r: int)
    requires den > 0 && k > 0 && NearestEven(num, den, r)
    ensures den * k > 0 && NearestEven(num * k, den * k, r)
  {
    var lo, mid, hi := 2 * num - den, 2 * (den * r), 2 * num + den;
    assert k * lo == 2 * (num * k) - den * k && k * hi == 2 * (num * k) + den * k;
    assert k * mid == 2 * ((den * k) * r);
    ScaleKeepsOrder(k, lo, mid);
    ScaleKeepsOrder(k, mid, hi);
  }

  lemma ScaleKeepsOrder(k: int, a: int, b: int)
    requires k > 0 && a <= b
    ensures k * a <= k * b
    ensures k * a == k * b <==> a == b
  {
    assert k * (b - a) == k * b - k * a;
    if b > a {
      MulMonotone(k, 1, b - a);
    }
  }

  /** Twice the rounding error is at most the denominator: half a unit. */
  lemma RoundError(num: int, den: int)
    requires den > 0
    ensures -den <= 2 * (den * Round(num, den) - num) <= den
  {
    RoundIsNearestEven(num, den);
  }

  /** A multiple of the unit is not moved; round(before + change, 4) on stored values is this case. */
  lemma RoundOnGrid(r: int, den: int)
    requires den > 0
    ensures Round(r * den, den) == r
  {
    RoundIsNearestEven(r * den, den);
    NearestEvenIsUnique(r * den, den, Round(r * den, den), r);
  }

  lemma RoundMonotone(a: int, b: int, den: int)
    requires den > 0 && a <= b
    ensures Round(a, den) <= Round(b, den)
  {
    RoundIsNearestEven(a, den);
    RoundIsNearestEven(b, den);
    if Round(b, den) < Round(a, den) {
      NearestEvenReflectsOrder(b, a, den, Round(b, den), Round(a, den));
    }
  }

  /** A grid point bounds the rounding of everything on its side of it. */
  lemma RoundBetween(lo: int, num: int, hi: int, den: int)
    requires den > 0 && lo * den <= num <= hi * den
    ensures lo <= Round(num, den) <= hi
  {
    RoundMonotone(lo * den, num, den);
    RoundMonotone(num, hi * den, den);
    RoundOnGrid(lo, den);
    RoundOnGrid(hi, den);
  }

  /**
   * The guard for a receipt compares with remaining + 1e-6. For any exact quantity num / den (in
   * units of the fourth decimal) that passes it, the stored quantity is at most remaining.
   */
  lemma ToleranceIsLostInStorage(num: int, den: int, remaining: int)
    requires den > 0
    requires 100 * num <= den * (100 * remaining + 1)
    ensures Round(num, den) <= remaining
  {
    RoundIsNearestEven(num, den);
    var gap := Round(num, den) - remaining;
    assert den * Round(num, den) == den * remaining + den * gap;
    assert den * (100 * remaining + 1) == 100 * (den * remaining) + den;
    if gap > 0 {
      MulMonotone(den, 1, gap);
      assert false;
    }
  }
}
