// Divisibility and the facts about primes that sieving rests on.
module PrimeNumbers {

  // d added up q times.
  ghost function Times(d: nat, q: nat): nat
  {
    if q == 0 then 0 else Times(d, q - 1) + d
  }

  lemma {:induction false} TimesIsProduct(d: nat, q: nat)
    ensures Times(d, q) == d * q
  {
    if q > 0 {
      TimesIsProduct(d, q - 1);
      assert d * q == d * (q - 1) + d;
    }
  }

  ghost predicate Divides(d: nat, n: nat)
  {
    exists q: nat :: Times(d, q) == n
  }

  ghost predicate IsPrime(n: nat)
  {
    n >= 2 && forall d: nat {:trigger Divides(d, n)} :: 2 <= d < n ==> !Divides(d, n)
  }

  // The primes from lo up to, but not including, hi, in ascending order.
  ghost function PrimesIn(lo: nat, hi: nat): seq<nat>
  {
    if hi <= lo then [] else PrimesIn(lo, hi - 1) + if IsPrime(hi - 1) then [hi - 1] else []
  }

  // ---- divisibility ------------------------------------------------------------------------

  lemma DividesSelf(d: nat)
    ensures Divides(d, d) && Divides(d, 0)
  {
    TimesIsProduct(d, 1);
    TimesIsProduct(d, 0);
    assert Times(d, 1) == d && Times(d, 0) == 0;
  }

  lemma DividesProduct(d: nat, q: nat)
    ensures Divides(d, d * q)
  {
    TimesIsProduct(d, q);
    assert Times(d, q) == d * q;
  }

  lemma DividesBound(d: nat, n: nat)
    requires Divides(d, n) && n > 0
    ensures 1 <= d <= n
  {
    var q: nat :| Times(d, q) == n;
    TimesIsProduct(d, q);
    assert q == 0 || d == 0 ==> d * q == 0;
    assert d * q == d + d * (q - 1);
    assert q > 0 ==> d * (q - 1) >= 0;
  }

  lemma DividesTrans(a: nat, b: nat, c: nat)
    requires Divides(a, b) && Divides(b, c)
    ensures Divides(a, c)
  {
    var p: nat :| Times(a, p) == b;
    TimesIsProduct(a, p);
    var q: nat :| Times(b, q) == c;
    TimesIsProduct(b, q);
    assert a * (p * q) == (a * p) * q;
    TimesIsProduct(a, p * q);
    assert Times(a, p * q) == c;
  }

  lemma DividesSum(d: nat, a: nat, b: nat)
    requires Divides(d, a) && Divides(d, b)
    ensures Divides(d, a + b)
  {
    var p: nat :| Times(d, p) == a;
    TimesIsProduct(d, p);
    var q: nat :| Times(d, q) == b;
    TimesIsProduct(d, q);
    assert d * (p + q) == d * p + d * q;
    TimesIsProduct(d, p + q);
    assert Times(d, p + q) == a + b;
  }

  lemma DividesDifference(d: nat, a: nat, b: nat)
    requires Divides(d, a) && Divides(d, b) && b <= a && d > 0
    ensures Divides(d, a - b)
  {
    var p: nat :| Times(d, p) == a;
    TimesIsProduct(d, p);
    var q: nat :| Times(d, q) == b;
    TimesIsProduct(d, q);
    assert d * (q - p) == d * q - d * p && d * (p - q) == d * p - d * q;
    assert p < q ==> d * (q - p) > 0;
    TimesIsProduct(d, p - q);
    assert Times(d, p - q) == a - b;
  }

  // Consecutive multiples of d are d apart.
  lemma NoMultipleBetween(d: nat, a: nat, b: nat)
    requires Divides(d, a) && a < b < a + d
    ensures !Divides(d, b)
  {
    if Divides(d, b) {
      DividesDifference(d, b, a);
      DividesBound(d, b - a);
    }
  }

  // ---- primes ------------------------------------------------------------------------------

  lemma SquareMonotone(a: nat, b: nat)
    ensures a <= b ==> a * a <= b * b
    ensures a < b ==> a * a < b * b
  {
    if a < b {
      assert b * b == a * a + (b - a) * (b + a);
      assert (b - a) * (b + a) > 0;
    }
  }

  // Every composite number has a prime factor no greater than its square root.
  lemma PrimeFactor(n: nat) returns (p: nat)
    requires n >= 2 && !IsPrime(n)
    ensures IsPrime(p) && Divides(p, n) && p * p <= n && p < n
  {
    p := LeastFactor(n, 2);
    var q: nat :| Times(p, q) == n;
    TimesIsProduct(p, q);
    if q < p {
      TimesIsProduct(q, p);
      assert Times(q, p) == n;
      assert q >= 2 by {
        assert q == 0 ==> p * q == 0;
        assert q == 1 ==> p * q == p;
      }
      assert Divides(q, n);
    } else {
      assert p * q == p * p + p * (q - p);
    }
    forall d: nat | 2 <= d < p ensures !Divides(d, p) {
      if Divides(d, p) {
        DividesTrans(d, p, n);
      }
    }
  }

  lemma LeastFactor(n: nat, from: nat) returns (p: nat)
    requires n >= 2 && !IsPrime(n) && 2 <= from <= n
    requires forall d: nat {:trigger Divides(d, n)} :: 2 <= d < from ==> !Divides(d, n)
    ensures 2 <= p < n && Divides(p, n)
    ensures forall d: nat {:trigger Divides(d, n)} :: 2 <= d < p ==> !Divides(d, n)
    decreases n - from
  {
    if Divides(from, n) && from < n {
      p := from;
    } else {
      p := LeastFactor(n, from + 1);
    }
  }

  // A prime is never a proper multiple.
  lemma PrimeNotMultiple(p: nat, d: nat)
    requires IsPrime(p) && Divides(d, p) && d >= 2
    ensures d == p
  {
    DividesBound(d, p);
  }

  lemma EvenNotPrime(n: nat)
    requires n % 2 == 0 && n > 2
    ensures !IsPrime(n)
  {
    TimesIsProduct(2, n / 2);
    assert Times(2, n / 2) == n;
    assert Divides(2, n);
  }

  lemma TwoIsPrime()
    ensures IsPrime(2)
  {
  }

  // ---- the list of primes ------------------------------------------------------------------

  lemma {:induction false} PrimesInMembers(lo: nat, hi: nat, x: nat)
    ensures x in PrimesIn(lo, hi) <==> lo <= x < hi && IsPrime(x)
  {
    if hi > lo {
      PrimesInMembers(lo, hi - 1, x);
    }
  }

  lemma {:induction false} PrimesInAscend(lo: nat, hi: nat)
    ensures forall i, j :: 0 <= i < j < |PrimesIn(lo, hi)| ==> PrimesIn(lo, hi)[i] < PrimesIn(lo, hi)[j]
    ensures forall i :: 0 <= i < |PrimesIn(lo, hi)| ==> PrimesIn(lo, hi)[i] < hi
  {
    if hi > lo {
      PrimesInAscend(lo, hi - 1);
    }
  }

  lemma {:induction false} PrimesInSplit(lo: nat, mid: nat, hi: nat)
    requires lo <= mid <= hi
    ensures PrimesIn(lo, hi) == PrimesIn(lo, mid) + PrimesIn(mid, hi)
    decreases hi
  {
    if mid < hi {
      PrimesInSplit(lo, mid, hi - 1);
    }
  }

  lemma NoPrimesBelowTwo()
    ensures PrimesIn(0, 2) == [] && PrimesIn(0, 1) == [] && PrimesIn(0, 0) == []
  {
    assert PrimesIn(0, 1) == PrimesIn(0, 0) + [];
  }

  // ---- crossing off ------------------------------------------------------------------------

  // n is a multiple of the prime d that sieving with d must remove.
  ghost predicate CrossedBy(d: nat, n: nat)
  {
    IsPrime(d) && d * d <= n && Divides(d, n)
  }

  // A number is prime exactly when no prime up to its square root divides it.
  lemma PrimeIffNotCrossed(n: nat)
    requires n >= 2
    ensures IsPrime(n) <==> forall d: nat :: !CrossedBy(d, n)
  {
    if IsPrime(n) {
      forall d: nat ensures !CrossedBy(d, n) {
        if IsPrime(d) && Divides(d, n) {
          PrimeNotMultiple(n, d);
          assert d * d > d;
        }
      }
    } else {
      var p := PrimeFactor(n);
      assert CrossedBy(p, n);
    }
  }
}
