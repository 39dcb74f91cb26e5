// Multiples and rounded-up quotients, kept away from the solver's non-linear arithmetic.
module Multiples {

  /** `k` times `size`. */
  function Span(k: nat, size: nat): nat {
    if k == 0 then 0 else Span(k - 1, size) + size
  }

  lemma {:induction false} SpanIsProduct(k: nat, size: nat)
    ensures Span(k, size) == k * size
  {
    if k > 0 {
      SpanIsProduct(k - 1, size);
      assert k * size == (k - 1) * size + size;
    }
  }

  lemma {:induction false} SpanMono(a: nat, b: nat, size: nat)
    requires a <= b
    ensures Span(a, size) <= Span(b, size)
    ensures a < b ==> Span(a, size) + size <= Span(b, size)
    decreases b
  {
    if a < b {
      SpanMono(a, b - 1, size);
    }
  }

  lemma MulStep(a: nat, b: nat, size: nat)
    requires a < b
    ensures a * size + size <= b * size
  {
    SpanIsProduct(a, size);
    SpanIsProduct(b, size);
    SpanMono(a, b, size);
  }

  /** How many times `size` fits into `x`. */
  function Quot(x: nat, size: nat): nat
    requires size > 0
  {
    if x < size then 0 else 1 + Quot(x - size, size)
  }

  lemma {:induction false} QuotBounds(x: nat, size: nat)
    requires size > 0
    ensures Span(Quot(x, size), size) <= x < Span(Quot(x, size), size) + size
  {
    if x >= size {
      QuotBounds(x - size, size);
    }
  }

  lemma {:induction false} QuotIsDivision(x: nat, size: nat)
    requires size > 0
    ensures Quot(x, size) == x / size
  {
    if x >= size {
      QuotIsDivision(x - size, size);
      DivStep(x, size);
    } else {
      DivSmall(x, size);
    }
  }

  lemma DivUnique(x: nat, d: nat, q: nat, r: nat)
    requires d > 0 && x == q * d + r && r < d
    ensures x / d == q
  {
    var q' := x / d;
    assert x == q' * d + x % d;
    if q' < q {
      MulStep(q', q, d);
    } else if q < q' {
      MulStep(q, q', d);
    }
  }

  lemma DivSmall(x: nat, d: nat)
    requires x < d
    ensures x / d == 0
  {
    DivUnique(x, d, 0, x);
  }

  lemma DivStep(x: nat, d: nat)
    requires 0 < d <= x
    ensures x / d == 1 + (x - d) / d
  {
    var q := (x - d) / d;
    assert x - d == q * d + (x - d) % d;
    assert x == (q + 1) * d + (x - d) % d;
    DivUnique(x, d, q + 1, (x - d) % d);
  }

  lemma DivShift(k: nat, d: nat, s: nat)
    requires s > 0
    ensures (k * s + d) / s == k + d / s && (k * s + d) % s == d % s
  {
    assert (k + d / s) * s == k * s + d / s * s;
    DivUnique(k * s + d, s, k + d / s, d % s);
  }

  lemma DivIs(d: nat, s: nat, i: nat)
    requires s > 0
    ensures d / s == i <==> i * s <= d < i * s + s
  {
    var q := d / s;
    DivBounds(d, s);
    if i < q {
      MulStep(i, q, s);
    } else if q < i {
      MulStep(q, i, s);
    }
  }

  lemma DivBounds(d: nat, s: nat)
    requires s > 0
    ensures d / s * s <= d < d / s * s + s
  {
    assert d == d / s * s + d % s;
  }
}
