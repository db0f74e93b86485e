/** Integer facts shared by the models: rounding up and monotone products. */
module Arithmetic {

  function CeilDiv(n: nat, d: nat): nat
    requires d >= 1
  {
    (n + d - 1) / d
  }

  lemma MulMonotone(a: nat, b: nat, d: nat)
    requires a <= b
    ensures a * d <= b * d
  {
  }

  lemma MulDistributes(a: int, b: int, d: int)
    ensures (a + b) * d == a * d + b * d
  {
  }

  /** CeilDiv(n, d) is the least t with t * d >= n. */
  lemma CeilDivLeast(n: nat, d: nat, t: nat)
    requires d >= 1
    ensures t * d >= n <==> t >= CeilDiv(n, d)
  {
    var q := CeilDiv(n, d);
    assert (n + d - 1) == q * d + (n + d - 1) % d;
    if t >= q {
      MulMonotone(q, t, d);
    } else {
      MulMonotone(t, q - 1, d);
      MulDistributes(q - 1, 1, d);
    }
  }
}
