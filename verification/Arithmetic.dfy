/** Facts about natural-number division that the solver needs spelled out. */
module Arithmetic {

  function Divide(a: nat, b: nat): nat
    requires b > 0
  {
    a / b
  }

  lemma MulStep(d: nat, x: nat, y: nat)
    requires x < y
    ensures d * x + d <= d * y
  {
    assert d * y == d * (x + 1) + d * (y - x - 1);
    assert d * (x + 1) == d * x + d;
  }

  lemma Quotient(a: nat, d: nat, q: nat, r: nat)
    requires d > 0 && a == d * q + r && r < d
    ensures a / d == q
  {
    var k := a / d;
    assert d * k + a % d == a;
    if k < q { MulStep(d, k, q); assert false; }
    if q < k { MulStep(d, q, k); assert false; }
  }

  /** Dividing by `b` and then by 256, put back together. */
  lemma TwoRemainders(b: nat, q2: nat, r2: nat, r: nat)
    requires r < b && r2 < 256
    ensures b * (256 * q2 + r2) + r == (256 * b) * q2 + (b * r2 + r)
    ensures b * r2 + r < 256 * b
  {
    assert b * (256 * q2 + r2) == b * (256 * q2) + b * r2;
    assert b * (256 * q2) == (256 * b) * q2;
    if r2 < 255 { MulStep(b, r2, 255); }
  }

  lemma DivideTwice(a: nat, b: nat)
    requires b > 0
    ensures (a / b) / 256 == a / (256 * b)
  {
    var q, r := a / b, a % b;
    var q2, r2 := q / 256, q % 256;
    assert a == b * q + r;
    assert q == 256 * q2 + r2;
    TwoRemainders(b, q2, r2, r);
    Quotient(a, 256 * b, q2, b * r2 + r);
  }
}
