// The sieves over arrays of flags (Plaidlay/examples/external/primes.h and
// Plaidlay/examples/in_memory/in_memory_primes.h).
module PrimeSieve {
  import opened Arithmetic
  import opened PrimeNumbers

  // ---- base_sieve --------------------------------------------------------------------------

  // k has not been crossed off by any prime below p.
  ghost predicate Survives(k: nat, p: nat)
  {
    forall d: nat {:trigger CrossedBy(d, k)} :: d < p ==> !CrossedBy(d, k)
  }

  // What is left of 2..p*p once the primes below p are done is prime.
  lemma SurvivorIsPrime(k: nat, p: nat)
    requires 2 <= k < p * p && p >= 2
    ensures Survives(k, p) <==> IsPrime(k)
  {
    PrimeIffNotCrossed(k);
    forall d: nat | CrossedBy(d, k) ensures d < p {
      SquareMonotone(p, d);
    }
  }

  lemma PrimeFlag(p: nat)
    requires p >= 2
    ensures Survives(p, p) <==> IsPrime(p)
  {
    assert p < p * p;
    SurvivorIsPrime(p, p);
  }

  method BaseSieve(m: nat) returns (out: seq<nat>)
    ensures out == PrimesIn(0, m + 1)
  {
    if m < 2 {
      NoPrimesBelowTwo();
      return [];
    }
    var isPrime := new bool[m + 1](_ => true);
    isPrime[0], isPrime[1] := false, false;
    var p := 2;
    while p * p <= m
      invariant 2 <= p <= m + 1
      invariant forall k :: 2 <= k <= m ==> isPrime[k] == Survives(k, p)
      invariant p > 2 ==> (p - 1) * (p - 1) <= m
      decreases m + 1 - p
    {
      assert p < p * p;
      PrimeFlag(p);
      if isPrime[p] {
        CrossOff(isPrime, p);
      }
      forall k | 2 <= k <= m ensures isPrime[k] == Survives(k, p + 1) {
        assert Survives(k, p + 1) <==> Survives(k, p) && !CrossedBy(p, k);
      }
      p := p + 1;
    }
    forall k | 2 <= k <= m ensures isPrime[k] == IsPrime(k) {
      SurvivorIsPrime(k, p);
    }
    out := Collect(isPrime, m);
  }

  method Collect(isPrime: array<bool>, m: nat) returns (out: seq<nat>)
    requires m >= 2 && isPrime.Length == m + 1 && forall k :: 2 <= k <= m ==> isPrime[k] == IsPrime(k)
    ensures out == PrimesIn(0, m + 1)
  {
    out := [];
    NoPrimesBelowTwo();
    var i := 2;
    while i <= m
      invariant 2 <= i <= m + 1 && out == PrimesIn(0, i)
    {
      if isPrime[i] {
        out := out + [i];
      }
      i := i + 1;
    }
  }

  // The loop over the multiples of one prime.
  method CrossOff(isPrime: array<bool>, p: nat)
    requires p < isPrime.Length && IsPrime(p)
    modifies isPrime
    ensures forall k :: 0 <= k < isPrime.Length ==> isPrime[k] == (old(isPrime[k]) && !CrossedBy(p, k))
  {
    var k := p * p;
    DividesProduct(p, p);
    while k < isPrime.Length
      invariant k >= p * p && Divides(p, k)
      invariant forall j :: 0 <= j < k && j < isPrime.Length ==> isPrime[j] == (old(isPrime[j]) && !CrossedBy(p, j))
      invariant forall j :: k <= j < isPrime.Length ==> isPrime[j] == old(isPrime[j])
      decreases isPrime.Length - k
    {
      isPrime[k] := false;
      forall j | k < j < k + p ensures !CrossedBy(p, j) {
        NoMultipleBetween(p, k, j);
      }
      DividesSelf(p);
      DividesSum(p, k, p);
      k := k + p;
    }
  }

  // ---- the integer square root -------------------------------------------------------------

  // Correcting an estimate in either direction.
  method IntegerSqrt(n: nat, estimate: nat) returns (root: nat)
    ensures FloorSqrt(root, n)
  {
    root := estimate;
    while (root + 1) * (root + 1) <= n
      invariant root == estimate || root * root <= n
      decreases n - root
    {
      Grows(root + 1);
      root := root + 1;
    }
    while root > 0 && root * root > n
      invariant n < (root + 1) * (root + 1)
    {
      root := root - 1;
    }
  }

  lemma Grows(k: nat)
    ensures k <= k * k
  {
    assert k > 0 ==> k * k >= k * 1;
  }

  // ---- one chunk of the segmented sieve ----------------------------------------------------

  // The values that p crosses off: its multiples from p * p on, but only odd ones unless p is 2.
  ghost predicate Strikes(p: nat, v: nat)
  {
    p * p <= v && Divides(p, v) && (p == 2 || v % 2 == 1)
  }

  // The first value to strike in a chunk starting at chunkStart. No value from chunkStart up
  // to there is struck.
  method FirstStrike(p: nat, chunkStart: nat) returns (start: nat)
    requires p >= 2 && (p == 2 || p % 2 == 1)
    ensures chunkStart <= start && Strikes(p, start)
    ensures forall v: nat :: chunkStart <= v < start ==> !Strikes(p, v)
  {
    start := FirstCandidate(p, chunkStart);
    if p != 2 && start % 2 == 0 {
      OddMultipleNext(p, start);
      start := start + p;
    } else {
      CandidateStrikes(p, start);
    }
  }

  // Such a candidate is struck unless it is even although p is odd.
  lemma CandidateStrikes(p: nat, start: nat)
    requires p * p <= start && Divides(p, start) && (p == 2 || start % 2 == 1)
    ensures Strikes(p, start)
  {
  }

  // The first multiple of p in the chunk that is not below p * p.
  method FirstCandidate(p: nat, chunkStart: nat) returns (start: nat)
    requires p >= 2
    ensures chunkStart <= start && p * p <= start && Divides(p, start)
    ensures forall v: nat :: chunkStart <= v < start ==> !Strikes(p, v)
  {
    var multiple := FirstMultiple(p, chunkStart);
    start := if p * p > multiple then p * p else multiple;
    NothingBefore(p, chunkStart, multiple, start);
  }

  method FirstMultiple(p: nat, chunkStart: nat) returns (multiple: nat)
    requires p >= 2
    ensures chunkStart <= multiple < chunkStart + p && Divides(p, multiple)
  {
    multiple := ((chunkStart + p - 1) / p) * p;
    RoundUp(chunkStart, p);
  }

  lemma NothingBefore(p: nat, chunkStart: nat, multiple: nat, start: nat)
    requires p >= 2 && chunkStart <= multiple < chunkStart + p && Divides(p, multiple)
    requires start == if p * p > multiple then p * p else multiple
    ensures Divides(p, start)
    ensures forall v: nat :: chunkStart <= v < start ==> !Strikes(p, v)
  {
    DividesProduct(p, p);
    forall v: nat | chunkStart <= v < start ensures !Strikes(p, v) {
      if v < multiple {
        LeastMultiple(chunkStart, p, multiple, v);
      }
    }
  }

  lemma OddMultipleNext(p: nat, start: nat)
    requires p > 2 && p % 2 == 1 && start % 2 == 0 && Divides(p, start) && p * p <= start
    ensures Strikes(p, start + p)
    ensures forall v: nat :: start <= v < start + p ==> !Strikes(p, v)
  {
    DividesSelf(p);
    DividesSum(p, start, p);
    forall v: nat | start < v < start + p ensures !Strikes(p, v) {
      NoMultipleBetween(p, start, v);
    }
  }

  lemma RoundUp(x: nat, p: nat)
    requires p >= 1
    ensures Divides(p, ((x + p - 1) / p) * p)
    ensures x <= ((x + p - 1) / p) * p < x + p
  {
    var q := (x + p - 1) / p;
    assert q * p == x + p - 1 - (x + p - 1) % p;
    TimesIsProduct(p, q);
    assert Times(p, q) == q * p;
  }

  lemma LeastMultiple(x: nat, p: nat, multiple: nat, v: nat)
    requires p >= 2 && x <= multiple < x + p && Divides(p, multiple)
    requires x <= v < multiple
    ensures !Divides(p, v)
  {
    if Divides(p, v) {
      NoMultipleBetween(p, v, multiple);
    }
  }

  method StrikePrime(flags: array<bool>, chunkStart: nat, p: nat)
    requires p >= 2 && (p == 2 || p % 2 == 1)
    modifies flags
    ensures forall k :: 0 <= k < flags.Length ==> flags[k] == (old(flags[k]) && !Strikes(p, chunkStart + k))
  {
    var start := FirstStrike(p, chunkStart);
    var step: nat := if p == 2 then p else 2 * p;
    var k: nat := start - chunkStart;
    while k < flags.Length
      invariant 0 <= k && Strikes(p, chunkStart + k)
      invariant forall j :: 0 <= j < k && j < flags.Length ==>
                  flags[j] == (old(flags[j]) && !Strikes(p, chunkStart + j))
      invariant forall j :: k <= j < flags.Length ==> flags[j] == old(flags[j])
      decreases flags.Length - k
    {
      flags[k] := false;
      forall v: nat | chunkStart + k < v < chunkStart + k + step ensures !Strikes(p, v) {
        StrideSkips(p, chunkStart + k, v);
      }
      StrideStays(p, chunkStart + k);
      k := k + step;
    }
  }

  // Nothing to strike is between two values one stride apart.
  lemma StrideSkips(p: nat, v: nat, w: nat)
    requires p >= 2 && (p == 2 || p % 2 == 1) && Strikes(p, v)
    requires v < w < v + if p == 2 then p else 2 * p
    ensures !Strikes(p, w)
  {
    if w < v + p {
      NoMultipleBetween(p, v, w);
    } else if w > v + p {
      DividesSelf(p);
      DividesSum(p, v, p);
      NoMultipleBetween(p, v + p, w);
    }
  }

  lemma StrideStays(p: nat, v: nat)
    requires p >= 2 && Strikes(p, v)
    ensures Strikes(p, v + if p == 2 then p else 2 * p)
  {
    DividesSelf(p);
    DividesSum(p, v, p);
    DividesSum(p, v + p, p);
  }

  // No base prime before the i-th strikes v.
  ghost predicate Unstruck(basePrimes: seq<nat>, i: nat, v: nat)
    requires i <= |basePrimes|
  {
    forall j :: 0 <= j < i ==> !Strikes(basePrimes[j], v)
  }

  // With the primes up to the root of n, the unstruck odd numbers up to n are the odd primes.
  lemma UnstruckOddIsPrime(root: nat, n: nat, v: nat)
    requires FloorSqrt(root, n) && 3 <= v <= n && v % 2 == 1
    ensures Unstruck(PrimesIn(0, root + 1), |PrimesIn(0, root + 1)|, v) <==> IsPrime(v)
  {
    var bp := PrimesIn(0, root + 1);
    PrimeIffNotCrossed(v);
    forall j | 0 <= j < |bp| ensures CrossedBy(bp[j], v) <==> Strikes(bp[j], v) {
      PrimesInMembers(0, root + 1, bp[j]);
    }
    forall d: nat | CrossedBy(d, v) ensures d in bp {
      SquareMonotone(root + 1, d);
      PrimesInMembers(0, root + 1, d);
    }
  }

  lemma UnstruckTwo(basePrimes: seq<nat>)
    requires forall j :: 0 <= j < |basePrimes| ==> basePrimes[j] >= 2
    ensures Unstruck(basePrimes, |basePrimes|, 2)
  {
    forall j | 0 <= j < |basePrimes| ensures !Strikes(basePrimes[j], 2) {
      SquareMonotone(2, basePrimes[j]);
    }
  }

  lemma BasePrimeShape(root: nat, p: nat)
    requires p in PrimesIn(0, root + 1)
    ensures IsPrime(p) && p >= 2 && (p == 2 || p % 2 == 1)
  {
    PrimesInMembers(0, root + 1, p);
    if p > 2 && p % 2 == 0 {
      EvenNotPrime(p);
    }
  }

  // Where the odd scan stands when it is about to look at index k: 2 counts as seen from the
  // start of the first chunk on.
  ghost function SeenUpTo(chunkStart: nat, size: nat, k: nat): nat
  {
    var reached := if chunkStart == 0 && k < 3 then 3 else chunkStart + k;
    if reached < chunkStart + size then reached else chunkStart + size
  }

  // The sieving of one chunk of flags, all true, for the numbers from chunkStart on.
  method SieveChunk(flags: array<bool>, chunkStart: nat, ghost n: nat, ghost root: nat, basePrimes: seq<nat>)
    returns (out: seq<nat>)
    requires FloorSqrt(root, n) && basePrimes == PrimesIn(0, root + 1)
    requires chunkStart % 2 == 0 && chunkStart != 2 && chunkStart + flags.Length <= n + 1
    requires forall k :: 0 <= k < flags.Length ==> flags[k]
    modifies flags
    ensures out == PrimesIn(chunkStart, chunkStart + flags.Length)
  {
    var i := 0;
    while i < |basePrimes|
      invariant 0 <= i <= |basePrimes|
      invariant forall k :: 0 <= k < flags.Length ==> flags[k] == Unstruck(basePrimes, i, chunkStart + k)
    {
      BasePrimeShape(root, basePrimes[i]);
      StrikePrime(flags, chunkStart, basePrimes[i]);
      i := i + 1;
    }
    if chunkStart == 0 {
      if flags.Length > 0 { flags[0] := false; }
      if flags.Length > 1 { flags[1] := false; }
    }
    forall k | 0 <= k < flags.Length && k % 2 == 1 ensures flags[k] == IsPrime(chunkStart + k) {
      if chunkStart + k >= 3 {
        UnstruckOddIsPrime(root, n, chunkStart + k);
      }
    }
    forall j | 0 <= j < |basePrimes| ensures basePrimes[j] >= 2 {
      BasePrimeShape(root, basePrimes[j]);
    }
    UnstruckTwo(basePrimes);
    out := ScanOdd(flags, chunkStart);
  }

  // Emits 2 explicitly, in the first chunk only, and then looks at odd indices only.
  method ScanOdd(flags: array<bool>, chunkStart: nat) returns (out: seq<nat>)
    requires chunkStart % 2 == 0 && chunkStart != 2
    requires forall k: nat {:trigger OddFlag(flags[..], chunkStart, k)} :: OddFlag(flags[..], chunkStart, k)
    requires chunkStart == 0 && flags.Length > 2 ==> flags[2]
    ensures out == PrimesIn(chunkStart, chunkStart + flags.Length)
  {
    out := if chunkStart == 0 && flags.Length > 2 && flags[2] then [2] else [];
    ScanStarts(chunkStart, flags.Length);
    var k := 1;
    while k < flags.Length
      invariant k >= 1 && k % 2 == 1
      invariant out == PrimesIn(chunkStart, SeenUpTo(chunkStart, flags.Length, k))
      decreases flags.Length - k
    {
      assert OddFlag(flags[..], chunkStart, k);
      ScanSteps(chunkStart, flags.Length, k, flags[k]);
      if flags[k] {
        out := out + [chunkStart + k];
      }
      k := k + 2;
    }
  }

  lemma ScanStarts(chunkStart: nat, size: nat)
    requires chunkStart % 2 == 0 && chunkStart != 2
    ensures PrimesIn(chunkStart, SeenUpTo(chunkStart, size, 1)) == if chunkStart == 0 && size > 2 then [2] else []
  {
    NoPrimesBelowTwo();
    if chunkStart == 0 {
      assert PrimesIn(0, 3) == PrimesIn(0, 2) + [2] by { TwoIsPrime(); }
    } else {
      EvenNotPrime(chunkStart);
      assert PrimesIn(chunkStart, chunkStart + 1) == PrimesIn(chunkStart, chunkStart) + [];
    }
  }

  // Two more values: the odd one just looked at, and an even one that is not prime.
  lemma ScanSteps(chunkStart: nat, size: nat, k: nat, flag: bool)
    requires chunkStart % 2 == 0 && k % 2 == 1 && k < size && flag == IsPrime(chunkStart + k)
    ensures PrimesIn(chunkStart, SeenUpTo(chunkStart, size, k + 2))
         == PrimesIn(chunkStart, SeenUpTo(chunkStart, size, k)) + if flag then [chunkStart + k] else []
  {
    if chunkStart + k == 1 {
      OneNotPrime();
    } else {
      SeenNext(chunkStart, size, k);
      OddSum(chunkStart, k);
      OddAndEven(chunkStart, chunkStart + k, flag);
    }
  }

  lemma OneNotPrime()
    ensures !IsPrime(1)
  {
  }

  lemma OddSum(a: nat, b: nat)
    requires a % 2 == 0 && b % 2 == 1
    ensures (a + b) % 2 == 1 && (a + b + 1) % 2 == 0
  {
  }

  // Away from the start of the first chunk the scan has seen what is below its position.
  lemma SeenNext(chunkStart: nat, size: nat, k: nat)
    requires k % 2 == 1 && k < size && chunkStart + k != 1
    ensures SeenUpTo(chunkStart, size, k) == chunkStart + k
    ensures SeenUpTo(chunkStart, size, k + 2) == if k + 1 < size then chunkStart + k + 2 else chunkStart + k + 1
  {
  }

  // An odd number other than 1 and its even successor.
  lemma OddAndEven(lo: nat, v: nat, flag: bool)
    requires lo <= v && v != 1 && (v + 1) % 2 == 0 && flag == IsPrime(v)
    ensures PrimesIn(lo, v + 1) == PrimesIn(lo, v) + if flag then [v] else []
    ensures PrimesIn(lo, v + 2) == PrimesIn(lo, v + 1)
  {
    PrimesNext(lo, v);
    EvenNotPrime(v + 1);
    PrimesNext(lo, v + 1);
  }

  lemma PrimesNext(lo: nat, v: nat)
    requires lo <= v
    ensures PrimesIn(lo, v + 1) == PrimesIn(lo, v) + if IsPrime(v) then [v] else []
  {
  }

  // Index k of a chunk holds an odd number's flag.
  ghost predicate OddFlag(flags: seq<bool>, chunkStart: nat, k: nat)
  {
    k < |flags| && k % 2 == 1 ==> flags[k] == IsPrime(chunkStart + k)
  }
}
