/** `Decimal256` is a fixed-point number with 18 fractional digits. A decimal
    is modelled as the natural number of 10^-18 units it holds, so the
    decimal 1.0 is `ONE` and 0.5 is `ONE / 2`. Every operation floors, as the
    host library does; each function's contract pins the floored result
    between the two neighbouring multiples. */
module FixedPoint {

  type Dec = nat

  const ONE: nat := 1_000_000_000_000_000_000

  /** Floored division of naturals, characterised by its two bounds. */
  lemma DivBounds(n: nat, d: nat)
    requires d > 0
    ensures (n / d) * d <= n < (n / d + 1) * d
  {
  }

  /** `Decimal256::from_ratio(a, b)`: the decimal nearest a / b from below. */
  function FromRatio(a: nat, b: nat): (r: Dec)
    requires b > 0
    ensures r * b <= a * ONE < (r + 1) * b
  {
    DivBounds(a * ONE, b);
    a * ONE / b
  }

  /** Decimal times decimal. */
  function Mul(x: Dec, y: Dec): (r: Dec)
    ensures r * ONE <= x * y < (r + 1) * ONE
  {
    DivBounds(x * y, ONE);
    x * y / ONE
  }

  /** Decimal divided by decimal; the host panics on a zero divisor. On the
      unit representation this is the same floored ratio as `from_ratio`. */
  function Quot(x: Dec, y: Dec): (r: Dec)
    requires y > 0
    ensures r * y <= x * ONE < (r + 1) * y
  {
    FromRatio(x, y)
  }

  /** A whole-unit integer times a decimal (`Uint256 * Decimal256`), floored
      to whole units; on the unit representation, the decimal product. */
  function MulFloor(u: nat, d: Dec): (r: nat)
    ensures r * ONE <= u * d < (r + 1) * ONE
  {
    Mul(u, d)
  }

  /** The whole units of a decimal: `d * Uint256::one()`. */
  function Truncate(d: Dec): (r: nat)
    ensures r * ONE <= d < (r + 1) * ONE
  {
    DivBounds(d, ONE);
    d / ONE
  }

  /** Whole number `n` as a decimal (`Decimal256::from_ratio(n, 1)`). */
  function FromInt(n: nat): (r: Dec)
    ensures Truncate(r) == n
  {
    n * ONE
  }

  /** The floored quotient is determined by its two bounds. */
  lemma {:induction false} FloorUnique(q: nat, d: nat, n: nat)
    requires d > 0
    requires q * d <= n < (q + 1) * d
    ensures q == n / d
  {
    DivBounds(n, d);
    var p := n / d;
    if q < p {
      assert q + 1 <= p;
      MulMonotone(q + 1, p, d);
      assert false;
    } else if p < q {
      assert p + 1 <= q;
      MulMonotone(p + 1, q, d);
      assert false;
    }
  }

  lemma MulMonotone(a: nat, b: nat, c: nat)
    requires a <= b
    ensures a * c <= b * c
  {
  }

  /** Floored division is monotone in its numerator. */
  lemma DivMonotone(m: nat, n: nat, d: nat)
    requires d > 0 && m <= n
    ensures m / d <= n / d
  {
    DivBounds(m, d);
    DivBounds(n, d);
    if n / d < m / d {
      MulMonotone(n / d + 1, m / d, d);
      assert false;
    }
  }
  /** A fraction of at most one of a whole amount is at most that amount. */
  lemma {:induction false} MulFloorAtMostWhole(u: nat, d: Dec)
    requires d <= ONE
    ensures MulFloor(u, d) <= u
  {
    MulMonotone(d, ONE, u);
    DivMonotone(u * d, u * ONE, ONE);
  }

  /** A factor of at least one does not shrink a whole amount. */
  lemma {:induction false} MulFloorAtLeastWhole(u: nat, d: Dec)
    requires d >= ONE
    ensures MulFloor(u, d) >= u
  {
    MulMonotone(ONE, d, u);
    DivMonotone(u * ONE, u * d, ONE);
  }

  /** Dividing a whole number by a decimal and truncating gives the floored
      quotient value / price in whole units. */
  lemma {:induction false} TruncateQuot(value: nat, price: Dec)
    requires price > 0
    ensures Truncate(Quot(FromInt(value), price)) * price <= value * ONE
            < (Truncate(Quot(FromInt(value), price)) + 1) * price
  {
    var x := FromInt(value) * ONE;
    var q := Quot(FromInt(value), price);
    var m := Truncate(q);
    // q * price <= value * ONE * ONE < (q + 1) * price, and m * ONE <= q < (m + 1) * ONE.
    assert x == (value * ONE) * ONE;
    MulMonotone(m * ONE, q, price);
    assert (m * price) * ONE <= (value * ONE) * ONE;
    MulMonotone(q + 1, (m + 1) * ONE, price);
    assert (value * ONE) * ONE < ((m + 1) * price) * ONE;
  }

  /** A whole number times a decimal, truncated, is the floored product in
      whole units. */
  lemma {:induction false} TruncateMulWhole(value: nat, d: Dec)
    ensures Truncate(Mul(FromInt(value), d)) == MulFloor(value, d)
  {
    assert FromInt(value) * d == (value * d) * ONE;
    FloorUnique(value * d, ONE, (value * d) * ONE);
    assert Mul(FromInt(value), d) == value * d;
  }

  /** A positive factor can be cancelled from both sides of `<=`. */
  lemma MulCancel(a: nat, b: nat, c: nat)
    requires c > 0 && a * c <= b * c
    ensures a <= b
  {
    if a > b {
      MulMonotone(b + 1, a, c);
    }
  }

  /** A factor can be cancelled from both sides of `<`. */
  lemma MulCancelStrict(a: nat, b: nat, c: nat)
    requires a * c < b * c
    ensures a < b
  {
    if a >= b {
      MulMonotone(b, a, c);
    }
  }

  /** A floored quotient exceeds a bound `m` exactly when the numerator
      reaches `(m + 1)` times the divisor. */
  lemma {:induction false} FloorExceeds(q: nat, d: nat, n: nat, m: nat)
    requires d > 0
    requires q * d <= n < (q + 1) * d
    ensures q > m <==> (m + 1) * d <= n
  {
    if q > m {
      MulMonotone(m + 1, q, d);
    } else if (m + 1) * d <= n {
      MulCancelStrict(m + 1, q + 1, d);
    }
  }

  /** A ratio whose numerator is at least its denominator is at least one. */
  lemma {:induction false} RatioAtLeastOne(a: nat, b: nat)
    requires 0 < b <= a
    ensures FromRatio(a, b) >= ONE
  {
    var r := FromRatio(a, b);
    MulMonotone(b, a, ONE);
    MulCancelStrict(ONE, r + 1, b);
  }

  /** A whole amount times a decimal grows with the amount. */
  lemma {:induction false} MulFloorMonotone(u1: nat, u2: nat, d: Dec)
    requires u1 <= u2
    ensures MulFloor(u1, d) <= MulFloor(u2, d)
  {
    MulMonotone(u1, u2, d);
    DivMonotone(u1 * d, u2 * d, ONE);
  }
}
