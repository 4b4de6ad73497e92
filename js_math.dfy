/**
 * The few JavaScript numeric operations the spin engine relies on, stated on
 * unbounded integers: `~~(n / d)` (truncating division), the remainder `%`
 * (which takes the sign of the dividend), truthiness of a nullable number and
 * the coercion of `null` to 0 in arithmetic. The lemmas at the end are the
 * facts about Dafny's Euclidean `/` and `%` that the other modules use.
 */
module JsMath {
  import opened Wrappers

  function Abs(x: int): (r: int)
    ensures 0 <= r && (r == x || r == -x)
  {
    if x < 0 then -x else x
  }

  /**
   * `~~(n / d)`: the quotient truncated toward zero. A zero divisor gives
   * Infinity or NaN in JavaScript, and `~~` maps both to 0.
   */
  function TruncDiv(n: int, d: int): (q: int)
    ensures d == 0 ==> q == 0
    ensures 0 <= n && 0 < d ==> q == n / d
  {
    if d == 0 then 0
    else
      var m := Abs(n) / Abs(d);
      if (n < 0) == (d < 0) then m else -m
  }

  /** `a % b` in JavaScript: the remainder takes the sign of the dividend. */
  function Rem(a: int, b: int): (r: int)
    requires b != 0
    ensures 0 <= a ==> 0 <= r < Abs(b)
    ensures a < 0 ==> -Abs(b) < r <= 0
    ensures (a - r) % Abs(b) == 0
  {
    var m := Abs(b);
    if a >= 0 then
      RemOfNonNegative(a, m);
      a % m
    else
      RemOfNonNegative(-a, m);
      -((-a) % m)
  }

  /** For `a >= 0`, `a - a % m` is a multiple of `m`, and so is its negation. */
  lemma RemOfNonNegative(a: int, m: int)
    requires a >= 0 && m > 0
    ensures (a - a % m) % m == 0 && (-(a - a % m)) % m == 0
  {
    var q := a / m;
    assert a - a % m == q * m;
    ModOfMultiple(q, m);
    assert -(q * m) == (-q) * m;
    ModOfMultiple(-q, m);
  }

  /** `x && …` on a nullable number: `null` and 0 are falsy, as is the number `null` coerces to. */
  predicate Truthy(x: Option<int>): (b: bool)
    ensures b <==> ToNumber(x) != 0
  {
    x.Some? && x.value != 0
  }

  /** A nullable number used in arithmetic: `null` counts as 0. */
  function ToNumber(x: Option<int>): (r: int)
    ensures x.Some? ==> r == x.value
    ensures x.None? ==> r == 0
  {
    x.GetOr(0)
  }

  // ---------------------------------------------------------------------------
  // Facts about Euclidean division and remainder

  lemma ModOfMultiple(k: int, m: int)
    requires m > 0
    ensures (k * m) % m == 0
  {
    DivModUnique(k * m, k, 0, m);
  }

  /** Quotient and remainder are the only pair with `x == q * m + r` and `0 <= r < m`. */
  lemma DivModUnique(x: int, q: int, r: int, m: int)
    requires m > 0 && 0 <= r < m && x == q * m + r
    ensures x / m == q && x % m == r
  {
    var q', r' := x / m, x % m;
    assert x == q' * m + r';
    if q' < q {
      MulAtLeast(q - q', m);
    } else if q' > q {
      MulAtLeast(q' - q, m);
    }
  }

  lemma MulAtLeast(k: int, m: int)
    requires k >= 1 && m > 0
    ensures k * m >= m
  {
    assert k * m == (k - 1) * m + m;
    assert (k - 1) * m >= 0 by { MulNonNegative(k - 1, m); }
  }

  lemma MulNonNegative(a: int, b: int)
    requires a >= 0 && b >= 0
    ensures a * b >= 0
  {
  }

  /** Adding a multiple of the modulus does not change the remainder. */
  lemma ModAddMultiple(a: int, k: int, m: int)
    requires m > 0
    ensures (a + k * m) % m == a % m
  {
    var q, r := a / m, a % m;
    assert a + k * m == (q + k) * m + r;
    DivModUnique(a + k * m, q + k, r, m);
  }

  /** Two numbers whose difference is a multiple of `m` have the same remainder. */
  lemma ModCongruent(a: int, b: int, m: int)
    requires m > 0 && (a - b) % m == 0
    ensures a % m == b % m
  {
    var k := (a - b) / m;
    assert a - b == k * m;
    ModAddMultiple(b, k, m);
  }

  /** Remainders add up to the remainder of the sum, up to the modulus. */
  lemma ModSum(a: int, b: int, m: int)
    requires m > 0
    ensures (a + b) % m == (a % m + b) % m
  {
    assert (a + b) - (a % m + b) == (a / m) * m;
    ModOfMultiple(a / m, m);
    ModCongruent(a + b, a % m + b, m);
  }

  /** A number already below the modulus is its own remainder. */
  lemma ModSmall(a: int, m: int)
    requires 0 <= a < m
    ensures a % m == a && a / m == 0
  {
    DivModUnique(a, 0, a, m);
  }

  /** Division by a positive number is monotone. */
  lemma DivMonotone(a: int, b: int, c: int)
    requires a <= b && c > 0
    ensures a / c <= b / c
  {
    var qa, qb := a / c, b / c;
    assert qa * c <= a && b < qb * c + c;
    if qa > qb {
      assert (qa - qb) * c >= c by { MulAtLeast(qa - qb, c); }
    }
  }

  /** `a < k * c` bounds the quotient `a / c` strictly below `k`. */
  lemma DivBelow(a: int, k: int, c: int)
    requires c > 0 && a < k * c
    ensures a / c < k
  {
    var q := a / c;
    assert q * c <= a;
    if q >= k {
      assert (q - k) * c >= 0 by { MulNonNegative(q - k, c); }
    }
  }

  /** Multiplication by a non-negative number is monotone. */
  lemma MulMonotone(a: int, b: int, c: int)
    requires a <= b && c >= 0
    ensures a * c <= b * c
  {
    MulNonNegative(b - a, c);
    assert b * c - a * c == (b - a) * c;
  }

  /** Multiples of `m` are closed under addition. */
  lemma ModZeroSum(a: int, b: int, m: int)
    requires m > 0 && a % m == 0 && b % m == 0
    ensures (a + b) % m == 0
  {
    ModSum(a, b, m);
  }

  /** Multiples of `m` are closed under negation. */
  lemma ModZeroNeg(a: int, m: int)
    requires m > 0 && a % m == 0
    ensures (-a) % m == 0
  {
    var k := a / m;
    assert a == k * m;
    assert -a == (-k) * m;
    ModOfMultiple(-k, m);
  }

  /** Numbers with the same remainder differ by a multiple of `m`. */
  lemma SameModDiff(a: int, b: int, m: int)
    requires m > 0 && a % m == b % m
    ensures (a - b) % m == 0
  {
    var qa, qb := a / m, b / m;
    assert a - b == (qa - qb) * m;
    ModOfMultiple(qa - qb, m);
  }
}
