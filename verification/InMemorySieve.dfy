// The recursive blocked sieve (Plaidlay/examples/in_memory/in_memory_primes.h).
module InMemorySieve {
  import opened Arithmetic
  import opened PrimeNumbers
  import PrimeSieve

  // p crosses off every multiple but itself.
  ghost predicate Crosses(p: nat, k: nat)
  {
    2 * p <= k && Divides(p, k)
  }

  ghost predicate Untouched(primes: seq<nat>, i: nat, k: nat)
    requires i <= |primes|
  {
    forall j :: 0 <= j < i ==> !Crosses(primes[j], k)
  }

  // The numbers up to n that no prime up to the root of n crosses off are the primes.
  lemma UntouchedIsPrime(root: nat, n: nat, k: nat)
    requires FloorSqrt(root, n) && 2 <= k <= n
    ensures Untouched(PrimesIn(0, root + 1), |PrimesIn(0, root + 1)|, k) <==> IsPrime(k)
  {
    var bp := PrimesIn(0, root + 1);
    PrimeIffNotCrossed(k);
    if IsPrime(k) {
      forall j | 0 <= j < |bp| ensures !Crosses(bp[j], k) {
        PrimesInMembers(0, root + 1, bp[j]);
      }
    } else {
      CompositeIsCrossed(root, n, k);
    }
  }

  lemma CompositeIsCrossed(root: nat, n: nat, k: nat)
    requires FloorSqrt(root, n) && 2 <= k <= n && !IsPrime(k)
    ensures !Untouched(PrimesIn(0, root + 1), |PrimesIn(0, root + 1)|, k)
  {
    var bp := PrimesIn(0, root + 1);
    var p := PrimeFactor(k);
    SquareMonotone(root + 1, p);
    PrimesInMembers(0, root + 1, p);
    var j :| 0 <= j < |bp| && bp[j] == p;
    ProductMonotone(2, p, p);
    assert Crosses(bp[j], k);
  }

  // C's division, which truncates towards zero.
  function Truncate(a: int, b: nat): int
    requires b > 0
  {
    if a >= 0 then a / b else -((-a) / b)
  }

  // The first multiple of p in a block, but not p itself.
  method FirstInBlock(start: nat, p: nat) returns (first: nat)
    requires p >= 2
    ensures start <= first && Crosses(p, first)
    ensures forall k: nat :: start <= k < first ==> !Crosses(p, k)
  {
    var q := Truncate(start - 1, p) + 1;
    NextMultiple(start, p);
    first := if 2 * p > q * p then 2 * p else q * p;
    DividesProduct(p, 2);
    forall k: nat | start <= k < first && 2 * p <= k ensures !Crosses(p, k) {
      if Divides(p, k) {
        NoMultipleBetween(p, k, q * p);
      }
    }
  }

  lemma NextMultiple(start: nat, p: nat)
    requires p >= 2
    ensures Truncate(start - 1, p) + 1 >= 0 && Divides(p, (Truncate(start - 1, p) + 1) * p)
    ensures start <= (Truncate(start - 1, p) + 1) * p <= start + p
    ensures start > 0 ==> (Truncate(start - 1, p) + 1) * p < start + p
  {
    var q := Truncate(start - 1, p) + 1;
    if start == 0 {
      assert 1 / p == 0;
    } else {
      assert (q - 1) * p == start - 1 - (start - 1) % p;
    }
    assert q * p == (q - 1) * p + p;
    TimesIsProduct(p, q);
    assert Times(p, q) == q * p;
  }

  method CrossBlock(flags: array<bool>, start: nat, end: nat, p: nat)
    requires p >= 2 && start <= end <= flags.Length
    modifies flags
    ensures forall k :: 0 <= k < flags.Length ==> flags[k] == (old(flags[k]) && !(start <= k < end && Crosses(p, k)))
  {
    var k := FirstInBlock(start, p);
    while k < end
      invariant start <= k && Crosses(p, k)
      invariant forall j :: 0 <= j < k && j < flags.Length ==>
                  flags[j] == (old(flags[j]) && !(start <= j < end && Crosses(p, j)))
      invariant forall j :: k <= j < flags.Length ==> flags[j] == old(flags[j])
      decreases end - k
    {
      flags[k] := false;
      forall v: nat | k < v < k + p ensures !Crosses(p, v) {
        NoMultipleBetween(p, k, v);
      }
      DividesSelf(p);
      DividesSum(p, k, p);
      k := k + p;
    }
  }

  // One block, sieved with all primes.
  method SieveBlock(flags: array<bool>, start: nat, end: nat, primes: seq<nat>)
    requires start <= end <= flags.Length
    requires forall j :: 0 <= j < |primes| ==> primes[j] >= 2
    modifies flags
    ensures forall k :: 0 <= k < flags.Length ==>
              flags[k] == (old(flags[k]) && (start <= k < end ==> Untouched(primes, |primes|, k)))
  {
    var j := 0;
    while j < |primes|
      invariant 0 <= j <= |primes|
      invariant forall k :: 0 <= k < flags.Length ==>
                  flags[k] == (old(flags[k]) && (start <= k < end ==> Untouched(primes, j, k)))
    {
      CrossBlock(flags, start, end, primes[j]);
      j := j + 1;
    }
  }

  // ---- the blocks --------------------------------------------------------------------------

  ghost function BlockOf(k: nat, size: nat): nat
    requires size > 0
  {
    k / size
  }

  lemma BlockBounds(k: nat, size: nat, i: nat)
    requires size > 0
    ensures size * i <= k < size * i + size <==> BlockOf(k, size) == i
  {
    var q := BlockOf(k, size);
    QuotientBounds(k, size);
    ProductGap(size, q, i);
    ProductGap(size, i, q);
  }

  lemma ProductGap(size: nat, a: nat, b: nat)
    ensures a < b ==> size * a + size <= size * b
  {
    if a < b {
      var d: nat := b - a - 1;
      assert size * (a + 1 + d) == size * a + size + size * d;
    }
  }

  lemma BlockInRange(k: nat, size: nat, n: nat)
    requires size > 0 && k <= n
    ensures BlockOf(k, size) <= n / size
  {
    if k / size > n / size {
      assert (k / size) * size >= (n / size + 1) * size;
    }
  }

  // The flags of finished blocks tell the survivors; the others are still set.
  ghost predicate BlocksDone(flags: seq<bool>, size: nat, todo: set<nat>, primes: seq<nat>)
    requires size > 0
  {
    forall k: nat {:trigger BlockOf(k, size)} :: k < |flags| ==>
      flags[k] == (BlockOf(k, size) in todo || Untouched(primes, |primes|, k))
  }

  // The blocks run in any order.
  method SieveBlocks(flags: array<bool>, n: nat, size: nat, primes: seq<nat>)
    requires size > 0 && flags.Length == n + 1 && forall k :: 0 <= k < flags.Length ==> flags[k]
    requires forall j :: 0 <= j < |primes| ==> primes[j] >= 2
    modifies flags
    ensures forall k: nat :: k <= n ==> flags[k] == Untouched(primes, |primes|, k)
  {
    var todo := Below(n / size + 1);
    forall k: nat | k <= n ensures BlockOf(k, size) in todo {
      BlockInRange(k, size, n);
    }
    while todo != {}
      invariant BlocksDone(flags[..], size, todo, primes)
      invariant forall i :: i in todo ==> i <= n / size
    {
      var i :| i in todo;
      RunBlock(flags, n, size, primes, i, todo);
      todo := todo - {i};
    }
    forall k: nat | k <= n ensures flags[k] == Untouched(primes, |primes|, k) {
      assert BlockOf(k, size) !in todo && flags[..][k] == flags[k];
    }
  }

  method RunBlock(flags: array<bool>, n: nat, size: nat, primes: seq<nat>, i: nat, ghost todo: set<nat>)
    requires size > 0 && flags.Length == n + 1 && i in todo && i <= n / size
    requires BlocksDone(flags[..], size, todo, primes)
    requires forall j :: 0 <= j < |primes| ==> primes[j] >= 2
    modifies flags
    ensures BlocksDone(flags[..], size, todo - {i}, primes)
  {
    var start := size * i;
    BlockStart(n, size, i);
    var end := if start + size < n + 1 then start + size else n + 1;
    ghost var before := flags[..];
    SieveBlock(flags, start, end, primes);
    forall k: nat | k <= n
      ensures flags[..][k] == (BlockOf(k, size) in todo - {i} || Untouched(primes, |primes|, k))
    {
      assert before[k] == (BlockOf(k, size) in todo || Untouched(primes, |primes|, k));
      BlockBounds(k, size, i);
    }
  }

  lemma BlockStart(n: nat, size: nat, i: nat)
    requires size > 0 && i <= n / size
    ensures size * i <= n
  {
    var q := n / size;
    assert size * q <= n;
    assert size * q == size * i + size * (q - i) && size * (q - i) >= 0;
  }

  // ---- the recursion -----------------------------------------------------------------------

  method Primes(n: nat, estimate: nat -> nat) returns (out: seq<nat>)
    ensures out == PrimesIn(0, n + 1)
  {
    if n < 2 {
      NoPrimesBelowTwo();
      return [];
    }
    var root := PrimeSieve.IntegerSqrt(n, estimate(n));
    RootSmaller(root, n);
    var sqrtPrimes := Primes(root, estimate);
    forall j | 0 <= j < |sqrtPrimes| ensures sqrtPrimes[j] >= 2 {
      PrimesInMembers(0, root + 1, sqrtPrimes[j]);
    }
    var flags := new bool[n + 1](_ => true);
    SieveBlocks(flags, n, root, sqrtPrimes);
    flags[0], flags[1] := false, false;
    forall k | 2 <= k <= n ensures flags[k] == IsPrime(k) {
      UntouchedIsPrime(root, n, k);
    }
    out := PrimeSieve.Collect(flags, n);
  }

  lemma RootSmaller(root: nat, n: nat)
    requires FloorSqrt(root, n) && n >= 2
    ensures 1 <= root < n
  {
    assert n * n >= 2 * n;
    if root >= n {
      SquareMonotone(n, root);
    }
  }
}
