/**
 * Rust signed-integer operations used by the engine, written out over unbounded
 * integers: truncating `/` and `%`, `rem_euclid`, the `int_roundings` methods
 * `div_floor` and `div_ceil`, and `NumExt::next_multiple_of_tmp` from src/utils.rs.
 */
module Ints {

  /** Values representable by Rust's `i32`. */
  predicate IsI32(x: int) {
    -0x8000_0000 <= x < 0x8000_0000
  }

  /** `std::cmp::max`. */
  function Max(a: int, b: int): int {
    if a >= b then a else b
  }

  /** `std::cmp::min`. */
  function Min(a: int, b: int): int {
    if a <= b then a else b
  }

  function Abs(x: int): (r: nat)
    ensures r == x || r == -x
  {
    if x < 0 then -x else x
  }

  /** Rust's `a / b`: the quotient rounded toward zero. */
  function TruncDiv(a: int, b: int): int
    requires b != 0
  {
    if (a < 0) == (b < 0) then Abs(a) / Abs(b) else -(Abs(a) / Abs(b))
  }

  /** Rust's `a % b`: the remainder of the truncating division, with the sign of `a`. */
  function TruncRem(a: int, b: int): (r: int)
    requires b != 0
    ensures a == TruncDiv(a, b) * b + r
    ensures Abs(r) < Abs(b)
    ensures a >= 0 ==> r >= 0
    ensures a <= 0 ==> r <= 0
  {
    TruncDivRem(a, b);
    a - TruncDiv(a, b) * b
  }

  lemma TruncDivRem(a: int, b: int)
    requires b != 0
    ensures var r := a - TruncDiv(a, b) * b;
            Abs(r) < Abs(b) && (a >= 0 ==> r >= 0) && (a <= 0 ==> r <= 0)
  {
    var q, rho := Abs(a) / Abs(b), Abs(a) % Abs(b);
    DivMod(Abs(a), Abs(b));
    var qb := q * Abs(b);
    assert Abs(a) == qb + rho;
    var r := a - TruncDiv(a, b) * b;
    if b > 0 {
      assert q * b == qb;
      assert (-q) * b == -qb;
      assert r == if a >= 0 then rho else -rho;
    } else {
      assert q * b == -qb;
      assert (-q) * b == qb;
      assert r == if a >= 0 then rho else -rho;
    }
  }

  /** The quotient-remainder decomposition for a positive divisor. */
  lemma DivMod(a: int, b: int)
    requires b > 0
    ensures a == (a / b) * b + a % b
    ensures 0 <= a % b < b
  {
  }

  /** A decomposition with a remainder in range is the Euclidean one. */
  lemma DivUnique(a: int, b: int, q: int, r: int)
    requires b > 0 && a == q * b + r && 0 <= r < b
    ensures a / b == q && a % b == r
  {
    DivMod(a, b);
    var d := a / b - q;
    assert d * b == r - a % b by { assert (a / b) * b - q * b == d * b; }
    if d >= 1 {
      MulMonotone(1, d, b);
    } else if d <= -1 {
      MulMonotone(1, -d, b);
    }
  }

  lemma MulMonotone(x: int, y: int, b: int)
    requires x <= y && b > 0
    ensures x * b <= y * b
  {
    assert y * b - x * b == (y - x) * b;
  }

  /** Rust's `a.rem_euclid(b)`: the remainder in `[0, |b|)`; Dafny's `%` is already Euclidean. */
  function RemEuclid(a: int, b: int): (r: int)
    requires b > 0
    ensures 0 <= r < b
    ensures (a - r) % b == 0
  {
    DivMod(a, b);
    DivUnique(a - a % b, b, a / b, 0);
    a % b
  }

  /** Rust's `a.div_floor(b)`: the truncating quotient, corrected toward negative infinity. */
  function DivFloor(a: int, b: int): (q: int)
    requires b != 0
    ensures b > 0 ==> q * b <= a < (q + 1) * b
    ensures b < 0 ==> (q + 1) * b < a <= q * b
  {
    var d, r := TruncDiv(a, b), TruncRem(a, b);
    assert (d - 1) * b == d * b - b && (d + 1) * b == d * b + b;
    if (r > 0 && b < 0) || (r < 0 && b > 0) then d - 1 else d
  }

  /** Rust's `a.div_ceil(b)`: the truncating quotient, corrected toward positive infinity. */
  function DivCeil(a: int, b: int): (q: int)
    requires b != 0
    ensures b > 0 ==> (q - 1) * b < a <= q * b
    ensures b < 0 ==> q * b <= a < (q - 1) * b
  {
    var d, r := TruncDiv(a, b), TruncRem(a, b);
    assert (d - 1) * b == d * b - b && (d + 1) * b == d * b + b;
    if (r > 0 && b > 0) || (r < 0 && b < 0) then d + 1 else d
  }

  /**
   * `next_multiple_of_tmp` of src/utils.rs: for a positive `rhs`, the smallest multiple of
   * `rhs` at or above `x`; for a negative `rhs`, the largest multiple of `rhs` at or below `x`.
   */
  function NextMultipleOf(x: int, rhs: int): (r: int)
    requires rhs != 0
    ensures rhs == -1 ==> r == x
    ensures rhs > 0 ==> r % rhs == 0 && x <= r < x + rhs
    ensures rhs < 0 ==> r % Abs(rhs) == 0 && x + rhs < r <= x
  {
    if rhs == -1 then x else NextMultipleOfUnguarded(x, rhs)
  }

  /** The arithmetic of `next_multiple_of_tmp` without its `rhs == -1` early return. */
  function NextMultipleOfUnguarded(x: int, rhs: int): (r: int)
    requires rhs != 0
    ensures rhs > 0 ==> r % rhs == 0 && x <= r < x + rhs
    ensures rhs < 0 ==> r % Abs(rhs) == 0 && x + rhs < r <= x
  {
    var r := TruncRem(x, rhs);
    var m := if (r > 0 && rhs < 0) || (r < 0 && rhs > 0) then r + rhs else r;
    NextMultipleOfStep(x, rhs, r, m);
    if m == 0 then x else x + (rhs - m)
  }

  lemma NextMultipleOfStep(x: int, rhs: int, r: int, m: int)
    requires rhs != 0 && r == TruncRem(x, rhs)
    requires m == if (r > 0 && rhs < 0) || (r < 0 && rhs > 0) then r + rhs else r
    ensures rhs > 0 ==> 0 <= m < rhs
    ensures rhs < 0 ==> rhs < m <= 0
    ensures (x - m) % Abs(rhs) == 0
    ensures m != 0 ==> (x + (rhs - m)) % Abs(rhs) == 0
  {
    var q := TruncDiv(x, rhs);
    var j := MultipleOfAbs(x - r, q, rhs);
    var b := Abs(rhs);
    if m == r {
      DivUnique(x - m, b, j, 0);
    } else if rhs > 0 {
      assert x - m == (j - 1) * b;
      DivUnique(x - m, b, j - 1, 0);
    } else {
      assert x - m == (j + 1) * b;
      DivUnique(x - m, b, j + 1, 0);
    }
    var jm := (x - m) / b;
    assert x - m == jm * b;
    if rhs > 0 {
      assert x + (rhs - m) == (jm + 1) * b;
      DivUnique(x + (rhs - m), b, jm + 1, 0);
    } else {
      assert x + (rhs - m) == (jm - 1) * b;
      DivUnique(x + (rhs - m), b, jm - 1, 0);
    }
  }

  /** A multiple of `rhs` is a multiple of `|rhs|`. */
  lemma MultipleOfAbs(n: int, q: int, rhs: int) returns (j: int)
    requires rhs != 0 && n == q * rhs
    ensures n == j * Abs(rhs)
  {
    if rhs > 0 {
      j := q;
    } else {
      j := -q;
      assert q * rhs == (-q) * (-rhs);
    }
  }

  /** A value that is already a multiple of `rhs` is returned unchanged. */
  lemma NextMultipleOfFixed(x: int, rhs: int)
    requires rhs != 0 && x % Abs(rhs) == 0
    ensures NextMultipleOf(x, rhs) == x
  {
    var r := NextMultipleOf(x, rhs);
    MultiplesApart(x, r, Abs(rhs));
  }

  /** Two multiples of a positive `k` that are less than `k` apart are equal. */
  lemma MultiplesApart(x: int, y: int, k: int)
    requires k > 0 && x % k == 0 && y % k == 0 && -k < x - y < k
    ensures x == y
  {
    DivMod(x, k);
    DivMod(y, k);
    var d := x / k - y / k;
    assert x - y == d * k by { assert (x / k) * k - (y / k) * k == d * k; }
    if d >= 1 {
      MulMonotone(1, d, k);
    } else if d <= -1 {
      MulMonotone(1, -d, k);
    }
  }

  /**
   * The `rhs == -1` guard only protects against overflow: the unguarded arithmetic would
   * give the same value, but computing `i32::MIN % -1` needs the quotient `2^31`, which is
   * not an `i32`.
   */
  lemma MinusOneGuardIsOverflowOnly(x: int)
    ensures NextMultipleOfUnguarded(x, -1) == x
    ensures !IsI32(TruncDiv(-0x8000_0000, -1))
  {
    var r := TruncRem(x, -1);
    assert r == 0;
    assert Abs(-0x8000_0000) / Abs(-1) == 0x8000_0000;
  }

  /**
   * For a positive `b`, the expression `a.next_multiple_of_tmp(b) / b` of src/props.rs is
   * the ceiling of `a / b`.
   */
  lemma CeilViaNextMultiple(a: int, b: int)
    requires b > 0
    ensures TruncDiv(NextMultipleOf(a, b), b) == DivCeil(a, b)
  {
    var n := NextMultipleOf(a, b);
    var k := ExactQuotient(n, b);
    assert (k - 1) * b == n - b;
    CeilUnique(a, b, k, DivCeil(a, b));
  }

  /**
   * For a positive `b`, the expression `(a - a.rem_euclid(b)) / b` of src/props.rs is the
   * floor of `a / b`.
   */
  lemma FloorViaRemEuclid(a: int, b: int)
    requires b > 0
    ensures TruncDiv(a - RemEuclid(a, b), b) == DivFloor(a, b)
  {
    var n := a - RemEuclid(a, b);
    var k := ExactQuotient(n, b);
    DivMod(a, b);
    FloorUnique(a, b, k, DivFloor(a, b));
  }

  /** On a multiple of a positive `b`, truncating division is exact. */
  lemma ExactQuotient(n: int, b: int) returns (k: int)
    requires b > 0 && n % b == 0
    ensures n == k * b && TruncDiv(n, b) == k
  {
    DivMod(n, b);
    k := n / b;
    if n < 0 {
      assert -n == (-k) * b;
      DivUnique(-n, b, -k, 0);
    }
  }

  lemma CeilUnique(a: int, b: int, q1: int, q2: int)
    requires b > 0
    requires (q1 - 1) * b < a <= q1 * b
    requires (q2 - 1) * b < a <= q2 * b
    ensures q1 == q2
  {
    if q1 < q2 {
      MulMonotone(q1, q2 - 1, b);
    } else if q2 < q1 {
      MulMonotone(q2, q1 - 1, b);
    }
  }

  lemma FloorUnique(a: int, b: int, q1: int, q2: int)
    requires b > 0
    requires q1 * b <= a < (q1 + 1) * b
    requires q2 * b <= a < (q2 + 1) * b
    ensures q1 == q2
  {
    if q1 < q2 {
      MulMonotone(q1 + 1, q2, b);
    } else if q2 < q1 {
      MulMonotone(q2 + 1, q1, b);
    }
  }

  /** `x * b >= m` holds exactly for the `x` at or above the ceiling of `m / b`. */
  lemma CeilThreshold(x: int, m: int, b: int)
    requires b > 0
    ensures x * b >= m <==> x >= DivCeil(m, b)
  {
    var q := DivCeil(m, b);
    if x >= q {
      MulMonotone(q, x, b);
    } else {
      MulMonotone(x, q - 1, b);
    }
  }

  /** `x * b <= m` holds exactly for the `x` at or below the floor of `m / b`. */
  lemma FloorThreshold(x: int, m: int, b: int)
    requires b > 0
    ensures x * b <= m <==> x <= DivFloor(m, b)
  {
    var q := DivFloor(m, b);
    if x <= q {
      MulMonotone(x, q, b);
    } else {
      MulMonotone(q + 1, x, b);
    }
  }

  /** Truncating division by a negated divisor negates the quotient. */
  lemma TruncDivNeg(n: int, b: int)
    requires b != 0
    ensures TruncDiv(n, -b) == -TruncDiv(n, b)
  {
  }

  lemma MulMonotoneNeg(x: int, y: int, b: int)
    requires x <= y && b < 0
    ensures y * b <= x * b
  {
    MulMonotone(x, y, -b);
    MulNegBoth(x, b);
    MulNegBoth(y, b);
    assert (-x) * b == -(x * b) && (-y) * b == -(y * b);
  }

  lemma MulNegBoth(x: int, y: int)
    ensures x * (-y) == (-x) * y
  {
  }

  /** Dividing by a negative `-c` and rounding up is the negated floor of dividing by `c`. */
  lemma DivCeilNeg(a: int, c: int)
    requires c > 0
    ensures DivCeil(a, -c) == -DivFloor(a, c)
  {
    var q := DivCeil(a, -c);
    MulNegBoth(q, c);
    MulNegBoth(q - 1, c);
    FloorUnique(a, c, -q, DivFloor(a, c));
  }

  /** Dividing by a negative `-c` and rounding down is the negated ceiling of dividing by `c`. */
  lemma DivFloorNeg(a: int, c: int)
    requires c > 0
    ensures DivFloor(a, -c) == -DivCeil(a, c)
  {
    var q := DivFloor(a, -c);
    MulNegBoth(q, c);
    MulNegBoth(q + 1, c);
    CeilUnique(a, c, -q, DivCeil(a, c));
  }

  /**
   * For a negative `b`, the expression `(a - a.rem_euclid(-b)) / b` of src/props.rs is the
   * ceiling of `a / b`.
   */
  lemma CeilViaRemEuclidNeg(a: int, b: int)
    requires b < 0
    ensures TruncDiv(a - RemEuclid(a, -b), b) == DivCeil(a, b)
  {
    FloorViaRemEuclid(a, -b);
    TruncDivNeg(a - RemEuclid(a, -b), -b);
    DivCeilNeg(a, -b);
  }

  /**
   * For a negative `b`, the expression `a.next_multiple_of_tmp(-b) / b` of src/props.rs is
   * the floor of `a / b`.
   */
  lemma FloorViaNextMultipleNeg(a: int, b: int)
    requires b < 0
    ensures TruncDiv(NextMultipleOf(a, -b), b) == DivFloor(a, b)
  {
    CeilViaNextMultiple(a, -b);
    TruncDivNeg(NextMultipleOf(a, -b), -b);
    DivFloorNeg(a, -b);
  }

  /** For a negative `b`, `x * b <= m` holds exactly for the `x` at or above the ceiling of `m / b`. */
  lemma CeilThresholdNeg(x: int, m: int, b: int)
    requires b < 0
    ensures x * b <= m <==> x >= DivCeil(m, b)
  {
    MulNegBoth(x, -b);
    FloorThreshold(-x, m, -b);
    DivCeilNeg(m, -b);
  }

  /** For a negative `b`, `x * b >= m` holds exactly for the `x` at or below the floor of `m / b`. */
  lemma FloorThresholdNeg(x: int, m: int, b: int)
    requires b < 0
    ensures x * b >= m <==> x <= DivFloor(m, b)
  {
    MulNegBoth(x, -b);
    CeilThreshold(-x, m, -b);
    DivFloorNeg(m, -b);
  }
}
