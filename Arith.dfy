/** Small facts about multiplication and floor division on naturals that the
    pricing proofs rely on and the solver does not find by itself. */
module Arith {

  lemma MulMono(t: nat, a: nat, b: nat)
    ensures a <= b ==> t * a <= t * b
  {
  }

  /** Multiplying by a positive number preserves strict order. */
  lemma MulStrict(a: nat, b: nat, d: nat)
    requires 0 < d
    ensures a < b ==> a * d < b * d
  {
    if a < b {
      MulMono(d, a + 1, b);
      assert a * d + d <= b * d;
    }
  }

  /** A common positive factor can be cancelled from `<=`. */
  lemma MulCancel(a: nat, b: nat, d: nat)
    requires 0 < d && a * d <= b * d
    ensures a <= b
  {
    MulStrict(b, a, d);
  }

  /** `q * d <= y` exactly when `q <= y / d`. */
  lemma DivLowerBound(q: nat, y: nat, d: nat)
    requires 0 < d
    ensures q * d <= y <==> q <= y / d
  {
    var f := y / d;
    assert f * d <= y < f * d + d;
    MulMono(d, q, f);
    MulMono(d, f + 1, q);
    assert d * (f + 1) == f * d + d;
  }

  /** `floor(t * a / d) <= t` whenever `a <= d`. */
  lemma DivBound(t: nat, a: nat, d: nat)
    requires 0 < d && a <= d
    ensures t * a / d <= t
  {
    var q := t * a / d;
    DivLowerBound(q, t * a, d);
    MulMono(t, a, d);
    MulCancel(q, t, d);
  }

  /** If `x / d1 <= y / d2` over the rationals, the floors are ordered the same way. */
  lemma FloorDivMono(x: nat, d1: nat, y: nat, d2: nat)
    requires 0 < d1 && 0 < d2
    requires x * d2 <= y * d1
    ensures x / d1 <= y / d2
  {
    var q := x / d1;
    DivLowerBound(q, x, d1);
    MulMono(d2, q * d1, x);
    assert (q * d2) * d1 <= y * d1;
    MulCancel(q * d2, y, d1);
    DivLowerBound(q, y, d2);
  }

  /** When two numerators that add up to `r * d` are each divided by `d`,
      the two floors add up to `r` or to `r - 1`. */
  lemma FloorsOfSplit(a: nat, b: nat, p1: nat, p2: nat, r: nat, d: nat)
    requires 0 < d
    requires a * d <= p1 < (a + 1) * d
    requires b * d <= p2 < (b + 1) * d
    requires p1 + p2 == r * d
    ensures a + b <= r <= a + b + 1
  {
    assert (a + b) * d == a * d + b * d;
    MulCancel(a + b, r, d);
    assert (a + b + 2) * d == (a + 1) * d + (b + 1) * d;
    MulMono(d, a + b + 2, r);
  }
}
