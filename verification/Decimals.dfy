/** Exact decimal arithmetic: the checked operations of adaptive-risk/src/lib.rs, over `real`. */
module Decimals {

  function Max(a: real, b: real): real { if a >= b then a else b }

  function Min(a: real, b: real): real { if a <= b then a else b }

  function Pct(reference: real, percent: real): real { reference * percent / 100.0 }

  /** The `k`-th multiple of a grid step. */
  function Multiple(k: int, step: real): real { k as real * step }

  lemma MulMono(x: real, y: real, k: real)
    requires x <= y && 0.0 <= k
    ensures x * k <= y * k
  {
  }

  lemma MulStrict(x: real, y: real, k: real)
    requires x < y && 0.0 < k
    ensures x * k < y * k
  {
  }

  lemma MulNonNegative(x: real, y: real)
    requires 0.0 <= x && 0.0 <= y
    ensures 0.0 <= x * y
  {
  }

  lemma MulPositive(x: real, y: real)
    requires 0.0 < x && 0.0 < y
    ensures 0.0 < x * y
  {
  }

  /** Dividing by a positive number and multiplying by it are inverse order isomorphisms. */
  lemma DivIff(x: real, b: real, m: real)
    requires 0.0 < m
    ensures x <= b / m <==> x * m <= b
  {
    assert b / m * m == b;
    if x <= b / m {
      MulMono(x, b / m, m);
    } else {
      MulStrict(b / m, x, m);
    }
  }

  lemma DivMono(x: real, y: real, m: real)
    requires x <= y && 0.0 < m
    ensures x / m <= y / m
  {
    assert x / m * m == x;
    DivIff(x / m, y, m);
  }

  /** `floor(raw / step) * step` is the greatest multiple of `step` not above `raw`. */
  lemma FloorToStep(raw: real, step: real)
    requires 0.0 < step
    ensures Multiple((raw / step).Floor, step) <= raw
    ensures forall k: int :: Multiple(k, step) <= raw ==> k <= (raw / step).Floor
    ensures forall k: int :: Multiple(k, step) <= raw ==> Multiple(k, step) <= Multiple((raw / step).Floor, step)
  {
    var n := (raw / step).Floor;
    DivIff(n as real, raw, step);
    forall k: int | Multiple(k, step) <= raw
      ensures k <= n && Multiple(k, step) <= Multiple(n, step)
    {
      DivIff(k as real, raw, step);
      MulMono(k as real, n as real, step);
    }
  }
}
