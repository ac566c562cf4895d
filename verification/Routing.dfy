// Choosing pivots and routing values to buckets (scatter_gather_algorithms/sample_sort.h).
module Routing {
  import opened Arithmetic
  import opened Sequences
  import opened Ordering

  // ---- the walk over the sorted samples ----------------------------------------------------

  const SIZE_BOUND: nat := 0x8000_0000

  // How many samples are skipped before position j, and, for j == |positions|, after the last one.
  ghost function Gap(positions: seq<nat>, n: nat, j: nat): int
    requires j <= |positions|
  {
    (if j < |positions| then positions[j] else n) - (if j == 0 then 0 else positions[j - 1] + 1)
  }

  // The n - k samples that are not taken are spread evenly before, between and after the k that
  // are, and the wider gaps come last.
  ghost predicate EvenlySpaced(positions: seq<nat>, n: nat)
  {
    var k := |positions|;
    && k <= n
    && (forall j {:trigger Gap(positions, n, j)} :: 0 <= j <= k ==> InGap(Gap(positions, n, j), (n - k) / (k + 1)))
    && ((n - k) / (k + 1) > 0 ==> forall j, l :: 0 <= j < l <= k ==> Gap(positions, n, j) <= Gap(positions, n, l))
  }

  ghost predicate InGap(gap: int, q: nat)
  {
    gap == q || gap == q + 1
  }

  // GetPivots, from the sorted samples on. The walk succeeds when every read of the samples is
  // in range, which is the case exactly when there are at least two samples for every pivot;
  // it then takes one sample at each of numPivots strictly increasing positions.
  method PivotWalk<T>(samples: seq<T>, numPivots: nat)
    returns (inRange: bool, result: seq<T>, ghost positions: seq<nat>)
    requires |samples| < SIZE_BOUND && numPivots < SIZE_BOUND
    ensures inRange <==> |samples| >= 2 * numPivots
    ensures inRange ==> |result| == |positions| == numPivots
    ensures inRange ==> forall j :: 0 <= j < numPivots ==> At(samples, positions[j], result[j])
    ensures inRange ==> Increasing(positions) && EvenlySpaced(positions, |samples|)
  {
    var n := |samples|;
    var remaining, i := numPivots, 0;
    result, positions := [], [];
    WalkStart(n, numPivots);
    while remaining > 0
      invariant 0 <= remaining <= numPivots && 0 <= i && Walked(positions, n, i, remaining, numPivots)
      invariant |result| == |positions| && forall j :: 0 <= j < |positions| ==> At(samples, positions[j], result[j])
    {
      ghost var next := NextPosition(n, i, remaining);
      WalkStep(positions, n, i, remaining, numPivots);
      i := NextPosition(n, i, remaining);
      if i >= n {
        return false, [], [];
      }
      result := result + [samples[i]];
      positions := positions + [next];
      i := i + 1;
      remaining := remaining - 1;
    }
    inRange := true;
    WalkEnd(positions, n, i, numPivots);
  }

  // Sample p is x.
  ghost predicate At<T>(samples: seq<T>, p: nat, x: T)
  {
    p < |samples| && samples[p] == x
  }

  ghost predicate Increasing(positions: seq<nat>)
  {
    forall j, k :: 0 <= j < k < |positions| ==> positions[j] < positions[k]
  }

  // The walk stands at sample i, and remaining of k positions are still to be chosen.
  ghost predicate Walked(positions: seq<nat>, n: nat, i: nat, remaining: nat, k: nat)
  {
    && i <= n && |positions| + remaining == k && Increasing(positions)
    && (forall j :: 0 <= j < |positions| ==> positions[j] < i)
    && (n - i >= 2 * remaining <==> n >= 2 * k)
    && (n >= 2 * k ==> Spaced(positions, n, i, remaining, (n - k) / (k + 1)))
  }

  lemma WalkStart(n: nat, k: nat)
    ensures Walked([], n, 0, k, k)
  {
    if n >= 2 * k {
      SpacedStart(n, k);
    }
  }

  lemma WalkStep(positions: seq<nat>, n: nat, i: nat, remaining: nat, k: nat)
    requires Walked(positions, n, i, remaining, k) && 0 < remaining < SIZE_BOUND && n < SIZE_BOUND
    ensures var next := NextPosition(n, i, remaining);
            if next < n then Walked(positions + [next], n, next + 1, remaining - 1, k) else n < 2 * k
  {
    StepBounds(n, i, remaining);
    if n >= 2 * k {
      SpacedNext(positions, n, i, remaining, (n - k) / (k + 1));
    }
  }

  lemma WalkEnd(positions: seq<nat>, n: nat, i: nat, k: nat)
    requires Walked(positions, n, i, 0, k)
    ensures n >= 2 * k && EvenlySpaced(positions, n)
  {
    SpacedEnd(positions, n, i, (n - k) / (k + 1));
  }

  // Evenly spaced positions: position j lies behind j others and j + 1 gaps.
  lemma {:induction false} EvenPosition(positions: seq<nat>, n: nat, j: nat)
    requires EvenlySpaced(positions, n) && j < |positions|
    ensures var q := (n - |positions|) / (|positions| + 1);
            (j + 1) * q + j <= positions[j] <= (j + 1) * (q + 1) + j
    decreases j
  {
    var q := (n - |positions|) / (|positions| + 1);
    ProductStep(j, q);
    ProductStep(j, q + 1);
    assert InGap(Gap(positions, n, j), q);
    if j > 0 {
      EvenPosition(positions, n, j - 1);
    }
  }

  // The gaps before the positions so far are q or q + 1, and do not get narrower.
  ghost predicate GapsSoFar(positions: seq<nat>, n: nat, i: nat, q: nat)
  {
    && i == (if positions == [] then 0 else positions[|positions| - 1] + 1)
    && (forall j {:trigger Gap(positions, n, j)} :: 0 <= j < |positions| ==> InGap(Gap(positions, n, j), q))
    && (q > 0 ==> forall j, l :: 0 <= j < l < |positions| ==> Gap(positions, n, j) <= Gap(positions, n, l))
  }

  // u samples to be skipped in r + 1 gaps, on average between q and q + 1 in each.
  ghost predicate Between(u: int, r: nat, q: nat)
  {
    q * (r + 1) <= u <= (q + 1) * (r + 1)
  }

  // All gaps that are left are wide ones.
  ghost predicate AllWide(u: int, r: nat, q: nat)
  {
    u == (q + 1) * (r + 1)
  }

  ghost predicate Spaced(positions: seq<nat>, n: nat, i: nat, remaining: nat, q: nat)
  {
    && GapsSoFar(positions, n, i, q) && i + remaining <= n && Between(n - i - remaining, remaining, q)
    && (q > 0 && positions != [] && Gap(positions, n, |positions| - 1) == q + 1 ==>
          AllWide(n - i - remaining, remaining, q))
  }

  lemma SpacedStart(n: nat, k: nat)
    requires n >= k
    ensures Spaced([], n, 0, k, (n - k) / (k + 1))
  {
    QuotientBounds(n - k, k + 1);
    ProductStep((n - k) / (k + 1), k + 1);
  }

  lemma SpacedNext(positions: seq<nat>, n: nat, i: nat, r: nat, q: nat)
    requires Spaced(positions, n, i, r, q) && 0 < r < SIZE_BOUND && n < SIZE_BOUND && n - i >= 2 * r
    ensures var next := NextPosition(n, i, r);
            Spaced(positions + [next], n, next + 1, r - 1, q)
  {
    var next := NextPosition(n, i, r);
    EvenStep(n, i, r, q);
    AddGap(positions, n, i, next, q);
  }

  lemma AddGap(positions: seq<nat>, n: nat, i: nat, next: nat, q: nat)
    requires GapsSoFar(positions, n, i, q) && InGap(next - i, q)
    requires q > 0 && positions != [] && Gap(positions, n, |positions| - 1) == q + 1 ==> next - i == q + 1
    ensures GapsSoFar(positions + [next], n, next + 1, q) && Gap(positions + [next], n, |positions|) == next - i
  {
    var positions' := positions + [next];
    forall j | 0 <= j < |positions'| ensures InGap(Gap(positions', n, j), q) {
      SameGap(positions, n, next, j);
    }
    if q > 0 {
      forall j, l | 0 <= j < l < |positions'| ensures Gap(positions', n, j) <= Gap(positions', n, l) {
        SameGap(positions, n, next, j);
        SameGap(positions, n, next, l);
        WidestLast(positions, n, i, q, j);
      }
    }
  }

  lemma SameGap(positions: seq<nat>, n: nat, next: nat, j: nat)
    requires j <= |positions|
    ensures j < |positions| ==> Gap(positions + [next], n, j) == Gap(positions, n, j)
    ensures j == |positions| ==>
              Gap(positions + [next], n, j) == next - (if positions == [] then 0 else positions[|positions| - 1] + 1)
  {
  }

  lemma WidestLast(positions: seq<nat>, n: nat, i: nat, q: nat, j: nat)
    requires GapsSoFar(positions, n, i, q) && q > 0 && j < |positions|
    ensures Gap(positions, n, j) <= Gap(positions, n, |positions| - 1) && InGap(Gap(positions, n, |positions| - 1), q)
  {
  }

  // One step with two samples left per pivot.
  lemma EvenStep(n: nat, i: nat, r: nat, q: nat)
    requires i <= n < SIZE_BOUND && 0 < r < SIZE_BOUND && n - i >= 2 * r && Between(n - i - r, r, q)
    ensures var next := NextPosition(n, i, r);
            && InGap(next - i, q) && next + r <= n && Between(n - next - r, r - 1, q)
            && (q > 0 && AllWide(n - i - r, r, q) ==> next - i == q + 1)
            && (q > 0 && next - i == q + 1 ==> AllWide(n - next - r, r - 1, q))
  {
    var u := n - i - r;
    var t := u / (r + 1);
    SmallRemainder(u, U64);
    QuotientBounds(u, r + 1);
    QuotientWithin(u, r + 1, q);
    WideStep(q, r);
    assert t <= u by {
      ProductMonotone(1, r + 1, t);
    }
    var step := if t <= 1 then 1 else t;
    SmallRemainder(i + step, U64);
    assert NextPosition(n, i, r) == i + step;
  }

  lemma WideStep(q: nat, r: nat)
    ensures q * (r + 1) == q * r + q && (q + 1) * (r + 1) == (q + 1) * r + q + 1
  {
  }

  lemma QuotientWithin(u: nat, d: nat, q: nat)
    requires d > 0 && q * d <= u <= (q + 1) * d
    ensures u / d == if u == (q + 1) * d then q + 1 else q
  {
    var t := u / d;
    QuotientBounds(u, d);
    ProductStep(t, d);
    ProductStep(q + 1, d);
    ProductMonotone(t + 1, q, d);
    ProductMonotone(q + 2, t, d);
    ProductMonotone(t + 1, q + 1, d);
    ProductMonotone(q + 1, t, d);
  }

  lemma SpacedEnd(positions: seq<nat>, n: nat, i: nat, q: nat)
    requires Spaced(positions, n, i, 0, q) && |positions| <= n && q == (n - |positions|) / (|positions| + 1)
    ensures EvenlySpaced(positions, n)
  {
    var k := |positions|;
    assert Gap(positions, n, k) == n - i && InGap(n - i, q);
    forall j | 0 <= j <= k ensures InGap(Gap(positions, n, j), q) {
    }
    if q > 0 {
      forall j, l | 0 <= j < l <= k ensures Gap(positions, n, j) <= Gap(positions, n, l) {
        WidestLast(positions, n, i, q, j);
      }
    }
  }

  // One step of the walk, in unsigned 64-bit arithmetic.
  function NextPosition(n: nat, i: nat, r: nat): nat
    requires i <= n && r > 0
  {
    var gap := (n - i - r) % U64;
    var q := gap / (r + 1);
    (i + if q <= 1 then 1 else q) % U64
  }

  // With two samples left per pivot the subtraction does not wrap, and two are left for each of
  // the other pivots afterwards; with fewer, the step is out of range at once or leaves the
  // shortage as it was.
  lemma StepBounds(n: nat, i: nat, r: nat)
    requires i <= n < SIZE_BOUND && 0 < r < SIZE_BOUND
    ensures var next := NextPosition(n, i, r);
            && (n - i >= 2 * r ==> i < next < n && n - (next + 1) >= 2 * (r - 1))
            && (n - i < 2 * r && next < n ==> i < next && r > 1 && n - (next + 1) < 2 * (r - 1))
  {
    var gap := (n - i - r) % U64;
    var q := gap / (r + 1);
    QuotientBounds(gap, r + 1);
    if n - i >= r {
      assert gap == n - i - r;
      if q >= 1 {
        ProductAtLeast(q, r);
        assert q * (r + 1) == q * r + q;
      }
    } else {
      assert gap == U64 + (n - i - r);
      WrappedQuotient(gap, r + 1, q);
    }
  }

  // A single pivot is drawn from a single sample, and the walk reads the one after it.
  lemma OnePivotOutOfRange(n: nat, root: nat)
    requires n > 0 && FloorSqrt(root, 1)
    ensures (if n <= 1 * root then n else 1 * root) == 1 && NextPosition(1, 0, 1) == 1
  {
    ProductMonotone(2, root, root);
  }

  lemma ProductAtLeast(q: nat, r: nat)
    requires q >= 1 && r >= 1
    ensures q * r >= q + r - 1
  {
    assert (q - 1) * (r - 1) == q * r - q - r + 1;
    assert (q - 1) * (r - 1) >= 0;
  }

  // A difference that wrapped around is so large that its quotient leaves every sample behind.
  lemma WrappedQuotient(gap: nat, d: nat, q: nat)
    requires U64 - SIZE_BOUND <= gap < U64 && 2 <= d <= SIZE_BOUND
    requires q * d <= gap < q * d + d
    ensures SIZE_BOUND <= q < U64 - SIZE_BOUND
  {
    assert (q + 1) * d == q * d + d;
    ProductMonotone(q + 1, SIZE_BOUND, d);
    ProductMonotone(2, d, q);
  }

  // GetPivots draws min(n, k * floor(sqrt(k))) samples. That is two per pivot, as the walk
  // needs, exactly when at least four pivots are wanted from at least 2k elements.
  lemma OversampleSuffices(n: nat, k: nat, root: nat)
    requires k > 0 && FloorSqrt(root, k)
    ensures (if n <= k * root then n else k * root) >= 2 * k <==> k >= 4 && n >= 2 * k
  {
    if root >= 2 {
      assert root * root >= 4;
      assert k * root >= k * 2;
    } else {
      assert (root + 1) * (root + 1) <= 4;
      assert k * root <= k;
    }
  }

  lemma SubsequenceSorted<T>(samples: seq<T>, positions: seq<nat>, result: seq<T>, lt: (T, T) -> bool)
    requires Sorted(samples, lt) && |positions| == |result| && Increasing(positions)
    requires forall j :: 0 <= j < |result| ==> At(samples, positions[j], result[j])
    ensures Sorted(result, lt)
  {
  }

  // ---- the duplicate-aware assigner --------------------------------------------------------

  // std::upper_bound over the pivots: the first position whose pivot is greater than t.
  function UpperBound<T>(pivots: seq<T>, t: T, lt: (T, T) -> bool, from: nat := 0): (r: nat)
    requires from <= |pivots| && forall j :: 0 <= j < from ==> !lt(t, pivots[j])
    ensures IsUpperBound(pivots, lt, t, r)
    decreases |pivots| - from
  {
    if from == |pivots| || lt(t, pivots[from]) then from else UpperBound(pivots, t, lt, from + 1)
  }

  // No pivot before position b is greater than t, and the one at b is.
  predicate IsUpperBound<T>(pivots: seq<T>, lt: (T, T) -> bool, t: T, b: nat)
  {
    && b <= |pivots|
    && (forall j :: 0 <= j < b ==> !lt(t, pivots[j]))
    && (b < |pivots| ==> lt(t, pivots[b]))
  }

  // The pivots at positions i and i + 1 equal t.
  ghost predicate Pair<T>(pivots: seq<T>, t: T, i: nat)
  {
    i + 1 < |pivots| && pivots[i] == pivots[i + 1] == t
  }

  // The first run of at least two pivots equal to t.
  ghost predicate FirstRun<T>(pivots: seq<T>, t: T, start: nat, count: nat)
  {
    && count >= 2 && IsRun(pivots, t, start, count)
    && forall i: nat :: i < start ==> !Pair(pivots, t, i)
  }

  // Where a value goes for a random number r: the first run of pivots that equal it is used in
  // turn, and otherwise it goes before the first pivot that is greater.
  ghost predicate RoutedTo<T>(pivots: seq<T>, lt: (T, T) -> bool, t: T, r: nat, b: nat)
  {
    if exists i: nat :: Pair(pivots, t, i)
    then exists start: nat, count: nat :: FirstRun(pivots, t, start, count) && b == start + r % count
    else IsUpperBound(pivots, lt, t, b)
  }

  // An assigner that follows the pivots; rand gives the random number of an index.
  ghost predicate Routes<T(!new)>(pivots: seq<T>, lt: (T, T) -> bool, rand: nat -> nat, assign: (T, nat) -> nat)
  {
    forall t, k :: RoutedTo(pivots, lt, t, rand(k), assign(t, k))
  }

  // Bucket b is the one for t: the pivot before it is not greater, and the pivot after it is
  // not smaller.
  ghost predicate InBucket<T>(pivots: seq<T>, lt: (T, T) -> bool, t: T, b: nat)
  {
    && b <= |pivots|
    && (b > 0 ==> !lt(t, pivots[b - 1]))
    && (b < |pivots| ==> !lt(pivots[b], t))
  }

  // Start and length of a run of equal pivots.
  type Run = r: (nat, nat) | r.1 > 0 witness (0, 1)

  // pivots[start..start + count] is a maximal run of the value t.
  ghost predicate IsRun<T>(pivots: seq<T>, t: T, start: nat, count: nat)
  {
    && start + count <= |pivots|
    && (forall j :: start <= j < start + count ==> pivots[j] == t)
    && (start > 0 ==> pivots[start - 1] != t)
    && (start + count < |pivots| ==> pivots[start + count] != t)
  }

  // A pivot equal to the next one is the key of a run that starts no later.
  ghost predicate PairRecorded<T(!new)>(pivots: seq<T>, m: map<T, Run>, i: nat)
    requires i + 1 < |pivots|
  {
    pivots[i] == pivots[i + 1] ==> pivots[i] in m && m[pivots[i]].0 <= i
  }

  ghost predicate RunWithin<T>(pivots: seq<T>, r: Run, n: nat, t: T)
  {
    r.1 >= 2 && r.0 + r.1 <= n && IsRun(pivots, t, r.0, r.1)
  }

  // The map holds the first run of every value that has a run of at least two within the
  // first n pivots, and nothing else.
  ghost predicate RecordsRuns<T(!new)>(pivots: seq<T>, m: map<T, Run>, n: nat)
    requires n <= |pivots|
  {
    && (forall t {:trigger t in m} :: t in m ==> RunWithin(pivots, m[t], n, t))
    && (forall i: nat {:trigger PairRecorded(pivots, m, i)} :: i + 1 < n ==> PairRecorded(pivots, m, i))
  }

  // The last count of the first i pivots equal prev, and the one before them does not; m holds
  // the runs before them.
  ghost predicate Scanned<T(!new)>(pivots: seq<T>, m: map<T, Run>, i: nat, prev: T, count: nat)
  {
    && 1 <= count <= i <= |pivots|
    && (forall j :: i - count <= j < i ==> pivots[j] == prev)
    && (i - count > 0 ==> pivots[i - count - 1] != prev)
    && RecordsRuns(pivots, m, i - count)
  }

  function Record<T(==)>(m: map<T, Run>, t: T, start: nat, count: nat): map<T, Run>
  {
    if count > 1 && t !in m then m[t := (start, count)] else m
  }

  lemma RunEnds<T(!new)>(pivots: seq<T>, m: map<T, Run>, i: nat, prev: T, count: nat)
    requires Scanned(pivots, m, i, prev, count) && (i < |pivots| ==> pivots[i] != prev)
    ensures RecordsRuns(pivots, Record(m, prev, i - count, count), i)
    ensures i < |pivots| ==> Scanned(pivots, Record(m, prev, i - count, count), i + 1, pivots[i], 1)
  {
    var m' := Record(m, prev, i - count, count);
    assert IsRun(pivots, prev, i - count, count);
    forall k: nat | k + 1 < i ensures PairRecorded(pivots, m', k) {
      if k + 1 < i - count {
        assert PairRecorded(pivots, m, k);
      } else if prev in m {
        assert RunWithin(pivots, m[prev], i - count, prev);
      }
    }
  }

  // The loop of the constructor: count is the length of the run that ends at position i - 1.
  method FindRuns<T(==, !new)>(pivots: seq<T>) returns (m: map<T, Run>)
    requires |pivots| > 0
    ensures RecordsRuns(pivots, m, |pivots|)
  {
    m := map[];
    var prev, count, i := pivots[0], 1, 1;
    while i < |pivots|
      invariant 1 <= i <= |pivots| && 1 <= count && Scanned(pivots, m, i, prev, count)
    {
      var val := pivots[i];
      if val == prev {
        count := count + 1;
      } else {
        RunEnds(pivots, m, i, prev, count);
        m := Record(m, prev, i - count, count);
        prev := val;
        count := 1;
      }
      i := i + 1;
    }
    RunEnds(pivots, m, i, prev, count);
    m := Record(m, prev, i - count, count);
  }

  class DeduplicatingAssigner<T(==, !new)> {
    const pivots: seq<T>
    const lt: (T, T) -> bool
    var runs: map<T, Run>

    ghost predicate Valid()
      reads this
    {
      RecordsRuns(pivots, runs, |pivots|)
    }

    constructor (pivots: seq<T>, lt: (T, T) -> bool)
      requires |pivots| > 0
      ensures Valid() && this.pivots == pivots && this.lt == lt
    {
      this.pivots, this.lt := pivots, lt;
      var m := FindRuns(pivots);
      runs := m;
    }

    // rand gives the hash of an element's index.
    method GetAssigner(rand: nat -> nat) returns (assign: (T, nat) -> nat)
      requires Valid()
      ensures Routes(pivots, lt, rand, assign)
    {
      var p, m, less := pivots, runs, lt;
      assign := (t: T, k: nat) => Assignment(p, m, less, t, rand(k));
      forall t: T, k: nat ensures RoutedTo(pivots, lt, t, rand(k), assign(t, k)) {
        AssignmentRoutes(pivots, runs, lt, t, rand(k));
      }
    }
  }

  function Assignment<T(==)>(pivots: seq<T>, runs: map<T, Run>, lt: (T, T) -> bool, t: T, rand: nat): nat
  {
    if t in runs then runs[t].0 + rand % runs[t].1 else UpperBound(pivots, t, lt)
  }

  // Under a comparator that separates different values, the map holds exactly the values
  // that occur at least twice, each with its first position and its multiplicity.
  lemma RunsAreMultiplicities<T(!new)>(pivots: seq<T>, runs: map<T, Run>, lt: (T, T) -> bool, t: T)
    requires StrictWeak(lt) && Sorted(pivots, lt) && RecordsRuns(pivots, runs, |pivots|)
    requires forall x, y :: x != y ==> lt(x, y) || lt(y, x)
    ensures t in runs <==> multiset(pivots)[t] >= 2
    ensures t in runs ==> runs[t].1 == multiset(pivots)[t] && t !in pivots[..runs[t].0]
  {
    if multiset(pivots)[t] >= 2 {
      var i, j := TwoOccurrences(pivots, t);
      BetweenOccurrences(pivots, lt, t, i, i + 1, j);
      assert PairRecorded(pivots, runs, i);
    }
    if t in runs {
      assert RunWithin(pivots, runs[t], |pivots|, t);
      OccurrencesAdjacent(pivots, lt, t, runs[t].0, runs[t].1);
    }
  }

  lemma OccurrencesAdjacent<T(!new)>(pivots: seq<T>, lt: (T, T) -> bool, t: T, start: nat, count: nat)
    requires StrictWeak(lt) && Sorted(pivots, lt) && count > 0 && IsRun(pivots, t, start, count)
    requires forall x, y :: x != y ==> lt(x, y) || lt(y, x)
    ensures multiset(pivots)[t] == count && t !in pivots[..start]
  {
    forall j | 0 <= j < |pivots| && !(start <= j < start + count) ensures pivots[j] != t {
      OutsideRun(pivots, lt, t, start, count, j);
    }
    CountConstant(pivots[start..start + count], t);
    CountMiddle(pivots, t, start, start + count);
  }

  lemma OutsideRun<T(!new)>(pivots: seq<T>, lt: (T, T) -> bool, t: T, start: nat, count: nat, j: nat)
    requires StrictWeak(lt) && Sorted(pivots, lt) && count > 0 && IsRun(pivots, t, start, count)
    requires forall x, y :: x != y ==> lt(x, y) || lt(y, x)
    requires j < |pivots| && !(start <= j < start + count)
    ensures pivots[j] != t
  {
    if pivots[j] == t && j < start {
      BetweenOccurrences(pivots, lt, t, j, start - 1, start);
    } else if pivots[j] == t {
      BetweenOccurrences(pivots, lt, t, start, start + count, j);
    }
  }

  lemma CountMiddle<T>(s: seq<T>, t: T, start: nat, end: nat)
    requires start <= end <= |s| && t !in s[..start] && t !in s[end..]
    ensures multiset(s)[t] == multiset(s[start..end])[t]
  {
    assert s == s[..start] + s[start..end] + s[end..];
  }

  lemma BetweenOccurrences<T(!new)>(pivots: seq<T>, lt: (T, T) -> bool, t: T, i: int, k: int, j: int)
    requires StrictWeak(lt) && Sorted(pivots, lt)
    requires forall x, y :: x != y ==> lt(x, y) || lt(y, x)
    requires 0 <= i <= k <= j < |pivots| && pivots[i] == t && pivots[j] == t
    ensures pivots[k] == t
  {
    assert k == i || !lt(pivots[k], pivots[i]);
    assert k == j || !lt(pivots[j], pivots[k]);
  }

  lemma TwoOccurrences<T>(s: seq<T>, t: T) returns (i: nat, j: nat)
    requires multiset(s)[t] >= 2
    ensures i < j < |s| && s[i] == t && s[j] == t
  {
    assert t in s;
    i :| 0 <= i < |s| && s[i] == t;
    assert s == s[..i] + [t] + s[i + 1..];
    if t in s[..i] {
      j := i;
      i :| 0 <= i < j && s[i] == t;
    } else {
      assert t in s[i + 1..];
      j :| i < j < |s| && s[j] == t;
    }
  }

  lemma {:induction false} CountConstant<T>(s: seq<T>, t: T)
    requires forall j :: 0 <= j < |s| ==> s[j] == t
    ensures multiset(s)[t] == |s|
  {
    if s != [] {
      assert s == s[..|s| - 1] + [t];
      CountConstant(s[..|s| - 1], t);
    }
  }

  lemma AssignmentRoutes<T(!new)>(pivots: seq<T>, runs: map<T, Run>, lt: (T, T) -> bool, t: T, r: nat)
    requires RecordsRuns(pivots, runs, |pivots|)
    ensures RoutedTo(pivots, lt, t, r, Assignment(pivots, runs, lt, t, r))
  {
    if i: nat :| Pair(pivots, t, i) {
      assert PairRecorded(pivots, runs, i);
    }
    if t in runs {
      RecordedFirst(pivots, runs, t);
      assert Pair(pivots, t, runs[t].0);
    }
  }

  lemma RecordedFirst<T(!new)>(pivots: seq<T>, runs: map<T, Run>, t: T)
    requires RecordsRuns(pivots, runs, |pivots|) && t in runs
    ensures FirstRun(pivots, t, runs[t].0, runs[t].1)
  {
    assert RunWithin(pivots, runs[t], |pivots|, t);
    forall i: nat | i < runs[t].0 ensures !Pair(pivots, t, i) {
      assert i + 1 < |pivots| ==> PairRecorded(pivots, runs, i);
    }
  }

  // For one random number there is one bucket.
  lemma RoutedOnce<T>(pivots: seq<T>, lt: (T, T) -> bool, t: T, r: nat, a: nat, b: nat)
    requires RoutedTo(pivots, lt, t, r, a) && RoutedTo(pivots, lt, t, r, b)
    ensures a == b
  {
    if i: nat :| Pair(pivots, t, i) {
      var s1: nat, c1: nat :| FirstRun(pivots, t, s1, c1) && a == s1 + r % c1;
      var s2: nat, c2: nat :| FirstRun(pivots, t, s2, c2) && b == s2 + r % c2;
      assert Pair(pivots, t, s1) && Pair(pivots, t, s2);
      assert s1 == s2;
      assert c1 == c2;
    }
  }

  // A value that does not occur twice among the pivots goes before the first greater one.
  lemma SingleRouted<T>(pivots: seq<T>, lt: (T, T) -> bool, t: T, r: nat, b: nat)
    requires multiset(pivots)[t] < 2
    ensures RoutedTo(pivots, lt, t, r, b) <==> IsUpperBound(pivots, lt, t, b)
  {
    if i: nat :| Pair(pivots, t, i) {
      TwiceIn(pivots, i, i + 1);
    }
  }

  // A value that occurs twice or more goes to the positions at which it occurs, and to each of
  // them for some random number, under a comparator that separates different values.
  lemma DuplicatesSpread<T(!new)>(pivots: seq<T>, lt: (T, T) -> bool, t: T, b: nat)
    requires StrictWeak(lt) && Sorted(pivots, lt) && multiset(pivots)[t] >= 2
    requires forall x, y :: x != y ==> lt(x, y) || lt(y, x)
    ensures b < |pivots| && pivots[b] == t <==> exists r: nat :: RoutedTo(pivots, lt, t, r, b)
  {
    var i, j := TwoOccurrences(pivots, t);
    BetweenOccurrences(pivots, lt, t, i, i + 1, j);
    assert Pair(pivots, t, i);
    if b < |pivots| && pivots[b] == t {
      var start, count := FindFirstRun(pivots, t, i);
      if !(start <= b < start + count) {
        OutsideRun(pivots, lt, t, start, count, b);
      }
      SmallRemainder(b - start, count);
      assert RoutedTo(pivots, lt, t, b - start, b);
    }
  }

  lemma {:induction false} FindFirstRun<T(!new)>(pivots: seq<T>, t: T, i: nat) returns (start: nat, count: nat)
    requires Pair(pivots, t, i)
    ensures FirstRun(pivots, t, start, count)
  {
    if j: nat :| j < i && Pair(pivots, t, j) {
      start, count := FindFirstRun(pivots, t, j);
    } else {
      assert i > 0 ==> !Pair(pivots, t, i - 1);
      start, count := i, RunLength(pivots, t, i);
    }
  }

  ghost function RunLength<T>(pivots: seq<T>, t: T, i: nat): (count: nat)
    requires i <= |pivots|
    ensures i + count <= |pivots| && forall j :: i <= j < i + count ==> pivots[j] == t
    ensures i + count < |pivots| ==> pivots[i + count] != t
    decreases |pivots| - i
  {
    if i < |pivots| && pivots[i] == t then 1 + RunLength(pivots, t, i + 1) else 0
  }

  // Routing never leaves the buckets 0..|pivots|, and puts every value between the pivots
  // around its bucket, whatever random choices are made for duplicated pivots.
  lemma RoutedWithin<T(!new)>(pivots: seq<T>, lt: (T, T) -> bool, t: T, r: nat, b: nat)
    requires StrictWeak(lt) && Sorted(pivots, lt) && RoutedTo(pivots, lt, t, r, b)
    ensures InBucket(pivots, lt, t, b)
  {
    if i: nat :| Pair(pivots, t, i) {
      var start: nat, count: nat :| FirstRun(pivots, t, start, count) && b == start + r % count;
      assert pivots[b] == t;
    }
  }

  // The contents of buckets between the pivots are ordered like the buckets.
  lemma BucketOrder<T(!new)>(pivots: seq<T>, lt: (T, T) -> bool, x: T, y: T, a: nat, b: nat)
    requires StrictWeak(lt) && Sorted(pivots, lt) && a < b && InBucket(pivots, lt, x, a) && InBucket(pivots, lt, y, b)
    ensures !lt(y, x)
  {
    assert a == b - 1 || !lt(pivots[b - 1], pivots[a]);
  }

  // A smaller value never goes to a later bucket.
  lemma RoutingMonotone<T(!new)>(pivots: seq<T>, lt: (T, T) -> bool, t1: T, t2: T, r1: nat, r2: nat, b1: nat, b2: nat)
    requires StrictWeak(lt) && Sorted(pivots, lt) && lt(t1, t2)
    requires RoutedTo(pivots, lt, t1, r1, b1) && RoutedTo(pivots, lt, t2, r2, b2)
    ensures b1 <= b2
  {
    RoutedWithin(pivots, lt, t1, r1, b1);
    RoutedWithin(pivots, lt, t2, r2, b2);
    if b2 < b1 {
      BucketOrder(pivots, lt, t2, t1, b2, b1);
    }
  }
}
