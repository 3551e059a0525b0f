/** Products of naturals, and the count one condition is. */
module Arithmetic {
  function One(holds: bool): nat {
    if holds then 1 else 0
  }

  lemma Times(x: nat, y: nat, k: nat)
    requires x <= y
    ensures x * k <= y * k && k * x <= k * y
  {
  }

  lemma Distribute(k: nat, x: nat, y: nat)
    ensures k * (x + y) == k * x + k * y
  {
  }

  /** What fits in a span `count` times over is at most the span's quotient. */
  lemma DivideBound(count: nat, part: nat, span: nat)
    requires part > 0 && count * part <= span
    ensures count <= span / part
  {
    if span / part < count {
      Times(span / part + 1, count, part);
    }
  }
}
