/** Facts about multiplication, division and remainder on naturals that the solver needs spelled out. */
module Arith {

  lemma MulMonotone(t: nat, a: int, b: int)
    requires a <= b
    ensures t * a <= t * b
  {
  }

  lemma Distribute(t: int, a: int, b: int)
    ensures t * (a + b) == t * a + t * b
  {
  }

  lemma DivModParts(x: nat, t: nat)
    requires t > 0
    ensures t * (x / t) + x % t == x
    ensures x % t < t
    ensures x == 0 ==> x % t == 0
  {
  }

  /** Integer division and remainder recover any exact decomposition. */
  lemma DivUnique(a: nat, b: nat, q: nat, r: nat)
    requires b > 0 && a == b * q + r && r < b
    ensures a / b == q && a % b == r
  {
    DivModParts(a, b);
    var q' := a / b;
    if q' < q {
      MulMonotone(b, q' + 1, q);
      assert false;
    } else if q' > q {
      MulMonotone(b, q + 1, q');
      assert false;
    }
  }
}
