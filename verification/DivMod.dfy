/** Division and remainder facts for the non-negative index arithmetic of the switch network. */
module DivMod {

  lemma MulAtLeast(k: int, d: nat)
    requires 1 <= k
    ensures d <= k * d
  {
  }

  lemma MulMonotone(a: nat, b: nat, d: nat)
    requires a <= b
    ensures a * d <= b * d
  {
  }

  /** Quotient and remainder of a number are determined by it. */
  lemma EuclidUnique(q1: int, r1: nat, q2: int, r2: nat, d: nat)
    requires r1 < d && r2 < d
    requires q1 * d + r1 == q2 * d + r2
    ensures q1 == q2 && r1 == r2
  {
    if q1 < q2 {
      MulAtLeast(q2 - q1, d);
    } else if q2 < q1 {
      MulAtLeast(q1 - q2, d);
    }
  }

  lemma DivNonNegative(x: nat, d: nat)
    requires 0 < d
    ensures 0 <= x / d
  {
  }

  lemma EuclidDivision(x: nat, d: nat)
    requires 0 < d
    ensures x == (x / d) * d + x % d && 0 <= x % d < d
  {
  }

  lemma DivModUnique(q: nat, r: nat, d: nat)
    requires r < d
    ensures (q * d + r) / d == q
    ensures (q * d + r) % d == r
  {
    var x := q * d + r;
    EuclidDivision(x, d);
    EuclidUnique(x / d, x % d, q, r, d);
  }

  /** Mixed-radix indices stay in range. */
  lemma IndexBelow(q: nat, r: nat, n: nat, d: nat)
    requires q < n && r < d
    ensures q * d + r < n * d
  {
    MulAtLeast(n - q, d);
    assert (n - q) * d == n * d - q * d;
  }

  lemma MulReassociate(a: nat, b: nat, c: nat, e: nat)
    ensures (a * b + c) * e == a * (e * b) + c * e
  {
    assert a * (e * b) == (a * b) * e;
  }

  /** Dividing by a product is dividing twice. */
  lemma DivDiv(x: nat, a: nat, b: nat)
    requires 0 < a && 0 < b
    ensures 0 < a * b
    ensures x / (a * b) == (x / a) / b
  {
    var q, r := x / a, x % a;
    var q2, r2 := q / b, q % b;
    EuclidDivision(x, a);
    EuclidDivision(q, b);
    MulReassociate(q2, b, r2, a);
    IndexBelow(r2, r, b, a);
    assert b * a == a * b;
    DivModUnique(q2, r2 * a + r, a * b);
  }

  /** The quotient of a number below `k * d` is below `k`. */
  lemma DivBelow(x: nat, k: nat, d: nat)
    requires 0 < d && x < k * d
    ensures x / d < k
  {
    EuclidDivision(x, d);
    if k <= x / d {
      MulMonotone(k, x / d, d);
    }
  }

  lemma MulThrough(u: nat, a: nat, b: nat, c: nat)
    requires a * b == c
    ensures (u * a) * b == u * c
  {
    assert (u * a) * b == u * (a * b);
  }

  lemma DivExact(x: nat, d: nat)
    requires 0 < d && x % d == 0
    ensures (x / d) * d == x
  {
  }
}
