/** Floor and ceiling division over naturals: the few nonlinear facts that the work split rests on. */
module DivMod {

  /** `div_ceil` of the kernel: rounded up, over counts that are never negative. */
  function DivCeil(num: nat, den: nat): (r: nat)
    requires den > 0
  {
    (num + den - 1) / den
  }

  lemma MulMono(b: int, x: int, y: int)
    requires b >= 0 && x <= y
    ensures b * x <= b * y
  {}

  /** `q <= a / b` exactly when `q` whole copies of `b` fit below `a`. */
  lemma FloorAdjoint(a: int, b: int, q: int)
    requires b > 0
    ensures q <= a / b <==> b * q <= a
  {
    assert b * (a / b) <= a < b * (a / b) + b;
    if q <= a / b {
      MulMono(b, q, a / b);
    } else {
      MulMono(b, a / b + 1, q);
      assert b * (a / b + 1) == b * (a / b) + b;
    }
  }

  lemma FloorBelow(a: int, b: int, q: int)
    requires b > 0 && a < b * q + b
    ensures a / b <= q
  {
    assert b * (q + 1) == b * q + b;
    FloorAdjoint(a, b, q + 1);
  }

  lemma FloorIs(a: int, b: int, q: int)
    requires b > 0 && b * q <= a < b * (q + 1)
    ensures a / b == q && a % b == a - b * q
  {
    FloorAdjoint(a, b, q);
    FloorAdjoint(a, b, q + 1);
  }

  /** `DivCeil(a, b) <= q` exactly when `q` copies of `b` reach `a`. */
  lemma CeilAdjoint(a: nat, b: nat, q: int)
    requires b > 0
    ensures DivCeil(a, b) <= q <==> a <= b * q
  {
    FloorAdjoint(a + b - 1, b, q + 1);
    assert b * (q + 1) == b * q + b;
  }

  /** Dividing a number shifted by whole multiples of the divisor. */
  lemma FloorShift(a: int, b: int, q: int)
    requires b > 0
    ensures (a + b * q) / b == a / b + q
  {
    assert b * (a / b) <= a < b * (a / b) + b;
    assert b * (a / b + q) == b * (a / b) + b * q;
    assert b * (a / b + q + 1) == b * (a / b) + b * q + b;
    FloorIs(a + b * q, b, a / b + q);
  }

  /** Quotient and remainder of a flat index, as counts. */
  function Quot(a: nat, b: nat): nat
    requires b > 0
  {
    a / b
  }

  function Rem(a: nat, b: nat): nat
    requires b > 0
  {
    a % b
  }

  lemma QuotRem(a: nat, b: nat)
    requires b > 0
    ensures b * Quot(a, b) + Rem(a, b) == a && Rem(a, b) < b
  {}

  lemma QuotRemIs(a: nat, b: nat, q: nat, r: nat)
    requires b > 0 && a == b * q + r && r < b
    ensures Quot(a, b) == q && Rem(a, b) == r
  {
    assert b * (q + 1) == b * q + b;
    FloorIs(a, b, q);
  }
}
