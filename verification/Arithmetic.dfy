/** Facts about multiplication and division that the block arithmetic needs. */
module Arithmetic {

  lemma MulAwayFromZero(e: int, d: int)
    requires e != 0 && d >= 0
    ensures e * d >= d || e * d <= -d
  {
    if e > 0 {
      assert e * d == d + (e - 1) * d;
    } else {
      assert e * d == -d - (-e - 1) * d;
    }
  }

  lemma MulMono(a: int, b: int, d: nat)
    requires a <= b
    ensures a * d <= b * d
  {
    assert b * d == a * d + (b - a) * d;
  }

  lemma {:induction false} DivUnique(x: nat, d: nat, q: int, r: nat)
    requires r < d && x == q * d + r
    ensures x / d == q && x % d == r
  {
    var e := x / d - q;
    assert e * d == r - x % d by {
      assert e * d == x / d * d - q * d;
    }
    if e != 0 {
      MulAwayFromZero(e, d);
    }
  }

  lemma DivMono(x: nat, y: nat, d: nat)
    requires x <= y && d > 0
    ensures x / d <= y / d
  {
    if y / d + 1 <= x / d {
      MulMono(y / d + 1, x / d, d);
    }
  }

  lemma DivLess(x: nat, y: nat, d: nat)
    requires d > 0 && x + d <= y
    ensures x / d < y / d
  {
    DivUnique(x + d, d, x / d + 1, x % d);
    DivMono(x + d, y, d);
  }

  lemma DivDiv(x: nat, c: nat, d: nat)
    requires c > 0 && d > 0
    ensures c * d > 0 && x / c / d == x / (c * d)
  {
    var q, s := x / c / d, x / c % d;
    assert x == c * (x / c) + x % c && x / c == q * d + s;
    assert c * (q * d + s) == q * (c * d) + c * s;
    MulMono(s + 1, d, c);
    assert c * s + x % c < c * d;
    DivUnique(x, c * d, q, c * s + x % c);
  }
}
