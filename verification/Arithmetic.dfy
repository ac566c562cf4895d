// Facts about products, quotients and remainders of natural numbers.
module Arithmetic {

  const U64: nat := 0x1_0000_0000_0000_0000

  function Min(a: nat, b: nat): nat
  {
    if a < b then a else b
  }

  lemma ProductMonotone(a: nat, b: nat, d: nat)
    ensures a <= b ==> a * d <= b * d
  {
    if a <= b {
      var e: nat := b - a;
      assert (a + e) * d == a * d + e * d;
    }
  }

  lemma ProductStep(a: nat, d: nat)
    ensures (a + 1) * d == a * d + d
  {
  }

  lemma QuotientBounds(x: nat, d: nat)
    requires d > 0
    ensures x / d * d <= x < x / d * d + d
  {
  }

  lemma DivMod(x: nat, d: nat)
    requires d > 0
    ensures x == x / d * d + x % d && x % d < d
  {
  }

  lemma SmallRemainder(x: nat, d: nat)
    requires x < d
    ensures x % d == x
  {
    assert x == d * (x / d) + x % d;
  }

  lemma Remainder(q: nat, r: nat, d: nat)
    requires r < d
    ensures (q * d + r) % d == r
  {
    var x := q * d + r;
    DivMod(x, d);
    ProductMonotone(x / d + 1, q, d);
    ProductStep(x / d, d);
    ProductMonotone(q + 1, x / d, d);
    ProductStep(q, d);
  }

  lemma NextRemainder(m: nat, d: nat)
    requires d > 0
    ensures (m % d + 1) % d == (m + 1) % d
  {
    DivMod(m, d);
    var q, r := m / d, m % d;
    if r + 1 == d {
      ProductStep(q, d);
      Remainder(q + 1, 0, d);
      Remainder(1, 0, d);
    } else {
      SmallRemainder(r + 1, d);
      Remainder(q, r + 1, d);
    }
  }

  // root is the integer square root of n.
  ghost predicate FloorSqrt(root: nat, n: nat)
  {
    root * root <= n < (root + 1) * (root + 1)
  }

  // The numbers below n.
  function Below(n: nat): (s: set<nat>)
    ensures forall i: nat :: i in s <==> i < n
  {
    if n == 0 then {} else Below(n - 1) + {n - 1}
  }
}
