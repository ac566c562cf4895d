// Searching for the first element that satisfies a predicate: in memory by doubling
// (Plaidlay/examples/in_memory/find_if.h), and over chunks that arrive in any order
// (Plaidlay/extern_find_if.h).
module FindIf {
  import opened Arithmetic
  import opened Sequences
  import opened ExternalSequence
  import ChunkEngine
  import EngineOperators
  import ChunkReader

  // r is the first position whose element satisfies p, or the length if there is none.
  ghost predicate IsFirst<T>(p: T -> bool, s: seq<T>, r: nat)
  {
    r <= |s| && (r < |s| ==> p(s[r])) && forall j :: 0 <= j < r ==> !p(s[j])
  }

  // ---- doubling search ---------------------------------------------------------------------

  // The minimum over a range of the positions that satisfy p; every position is looked at.
  method MinimumMatch<T>(p: T -> bool, s: seq<T>, start: nat, end: nat) returns (loc: nat, ghost looked: nat)
    requires start <= end <= |s|
    ensures loc == |s| || (start <= loc < end && p(s[loc]))
    ensures forall j :: start <= j < end && j < loc ==> !p(s[j])
    ensures looked == end - start
  {
    loc, looked := |s|, 0;
    for i := start to end
      invariant looked == i - start
      invariant loc == |s| || (start <= loc < i && p(s[loc]))
      invariant forall j :: start <= j < i && j < loc ==> !p(s[j])
    {
      var candidate := if p(s[i]) then i else |s|;
      looked := looked + 1;
      loc := if candidate < loc then candidate else loc;
    }
  }

  // The first position that satisfies p is found after looking at no more than 2 * r + 1000
  // positions, however long the sequence is.
  method FindIf<T>(p: T -> bool, s: seq<T>) returns (r: nat, ghost looked: nat)
    ensures IsFirst(p, s, r)
    ensures looked <= |s| && (r < |s| ==> looked <= 2 * r + 1000)
  {
    var n, len, i := |s|, 1000, 0;
    looked := 0;
    while i < len && i < n
      invariant 0 <= i <= n && i <= len && looked == i
      invariant forall j :: 0 <= j < i ==> !p(s[j])
    {
      looked := looked + 1;
      if p(s[i]) {
        return i, looked;
      }
      i := i + 1;
    }
    if i == n {
      return n, looked;
    }
    var start := len;
    len := 2 * len;
    while start < n
      invariant len == start + 1000 && looked == (if start < n then start else n)
      invariant forall j :: 0 <= j < start && j < n ==> !p(s[j])
      decreases n - start
    {
      var end := if n < start + len then n else start + len;
      var loc;
      ghost var more;
      loc, more := MinimumMatch(p, s, start, end);
      looked := looked + more;
      if loc < n {
        return loc, looked;
      }
      start := start + len;
      len := len * 2;
    }
    r := n;
  }

  // ---- search over chunks ------------------------------------------------------------------

  // Where the program takes the first match of a chunk to be.
  ghost predicate MatchesAt<T>(p: T -> bool, x: Item<T>, cap: nat, at: nat)
  {
    exists j :: 0 <= j < |x.data| && IsFirst(p, x.data, j) && at == x.key * cap + j
  }

  // The least of the places where some chunk matches, and of n.
  ghost predicate IsLeast<T>(p: T -> bool, chunks: multiset<Item<T>>, cap: nat, n: nat, r: nat)
  {
    && r <= n && (r == n || exists x :: x in chunks && MatchesAt(p, x, cap, r))
    && forall x, at {:trigger MatchesAt(p, x, cap, at)} :: x in chunks && MatchesAt(p, x, cap, at) ==> r <= at
  }

  // One task: the flag and place of the first match in its chunk.
  method SearchChunk<T>(p: T -> bool, x: Item<T>, cap: nat) returns (found: bool, at: nat)
    ensures found ==> MatchesAt(p, x, cap, at)
    ensures forall a: nat :: MatchesAt(p, x, cap, a) ==> found && a == at
  {
    var j := 0;
    while j < |x.data|
      invariant 0 <= j <= |x.data| && forall k :: 0 <= k < j ==> !p(x.data[k])
    {
      if p(x.data[j]) {
        found, at := true, x.key * cap + j;
        assert IsFirst(p, x.data, j);
        return;
      }
      j := j + 1;
    }
    found, at := false, 0;
  }

  // One batch: the tasks' results are joined in a loop over the flags.
  method SearchBatch<T>(p: T -> bool, polled: seq<Item<T>>, cap: nat, n: nat, start: nat, ghost before: seq<Item<T>>)
    returns (a: nat)
    requires IsLeast(p, multiset(before), cap, n, start)
    ensures IsLeast(p, multiset(before + polled), cap, n, a)
  {
    a := start;
    assert before + polled[..0] == before;
    for i := 0 to |polled|
      invariant IsLeast(p, multiset(before + polled[..i]), cap, n, a)
    {
      var found, at := SearchChunk(p, polled[i], cap);
      JoinOne(p, before + polled[..i], polled[i], cap, n, a, found, at);
      assert before + polled[..i + 1] == before + polled[..i] + [polled[i]];
      if found {
        a := Min(a, at);
      }
    }
    assert polled[..|polled|] == polled;
  }

  lemma JoinOne<T>(p: T -> bool, before: seq<Item<T>>, x: Item<T>, cap: nat, n: nat, a: nat, found: bool, at: nat)
    requires IsLeast(p, multiset(before), cap, n, a)
    requires found ==> MatchesAt(p, x, cap, at)
    requires forall b: nat :: MatchesAt(p, x, cap, b) ==> found && b == at
    ensures IsLeast(p, multiset(before + [x]), cap, n, if found then Min(a, at) else a)
  {
    var r := if found then Min(a, at) else a;
    if r != n && r == a {
      var y :| y in multiset(before) && MatchesAt(p, y, cap, a);
      assert y in multiset(before + [x]);
    } else if r != n {
      assert x in multiset(before + [x]);
    }
  }

  // The loop over batches polls every chunk.
  method SearchChunks<T>(p: T -> bool, arrivals: seq<Item<T>>, cap: nat, n: nat, numSsds: nat) returns (a: nat)
    requires numSsds > 0
    ensures IsLeast(p, multiset(arrivals), cap, n, a)
  {
    var expectedReads := ExpectedReads(|arrivals|, numSsds);
    var readCount, rest := 0, arrivals;
    ghost var seen: seq<Item<T>> := [];
    a := n;
    while readCount < expectedReads
      invariant 0 <= readCount <= expectedReads
      invariant ChunkEngine.Covers(expectedReads - readCount, numSsds, |rest|)
      invariant seen + rest == arrivals && IsLeast(p, multiset(seen), cap, n, a)
    {
      var k := Min(numSsds, |rest|);
      ChunkEngine.CoversNext(expectedReads - readCount, numSsds, |rest|, |rest[k..]|);
      NextSeen(seen, rest, k);
      a := SearchBatch(p, rest[..k], cap, n, a, seen);
      seen, rest := seen + rest[..k], rest[k..];
      readCount := readCount + 1;
    }
    assert seen == arrivals;
  }

  lemma NextSeen<X>(seen: seq<X>, rest: seq<X>, k: nat)
    requires k <= |rest|
    ensures seen + rest[..k] + rest[k..] == seen + rest
  {
  }

  // Just enough rounds of polls.
  method ExpectedReads(m: nat, numSsds: nat) returns (rounds: nat)
    requires numSsds > 0
    ensures ChunkEngine.Covers(rounds, numSsds, m)
  {
    rounds := if m % numSsds == 0 then m / numSsds else m / numSsds + 1;
    RoundsCover(m, numSsds);
  }

  lemma RoundsCover(m: nat, d: nat)
    requires d > 0
    ensures ChunkEngine.Covers(if m % d == 0 then m / d else m / d + 1, d, m)
  {
    var q := m / d;
    DivMod(m, d);
    ProductStep(q, d);
    ChunkEngine.ProductCovers(if m % d == 0 then q else q + 1, d, m);
  }

  // The sizes of the chunks before chunk g.
  ghost function Before<T>(items: seq<Item<T>>, g: nat): nat
    requires g <= |items|
  {
    |Elements(items[..g])|
  }

  // Every non-empty chunk begins where it would if all chunks before it were full.
  ghost predicate Aligned<T>(items: seq<Item<T>>, cap: nat)
  {
    forall g {:trigger items[g]} :: 0 <= g < |items| && items[g].data != [] ==> items[g].key * cap == Before(items, g)
  }

  // The search the external program performs on chunks in index order.
  method ExternalFindIf<T(!new)>(p: T -> bool, reader: ChunkReader.Setup, st: Store<T>, headers: seq<Header>, cap: nat,
                                 numSsds: nat)
    returns (a: nat)
    requires numSsds > 0 && ChunkReader.CanRead(reader)
    ensures IsLeast(p, multiset(Items(st, headers)), cap, |Denote(st, headers)|, a)
    ensures Aligned(Items(st, headers), cap) ==> IsFirst(p, Denote(st, headers), a)
  {
    var arrivals := ChunkReader.ReadChunks(reader, st, headers);
    a := SearchChunks(p, arrivals, cap, |Denote(st, headers)|, numSsds);
    if Aligned(Items(st, headers), cap) {
      AlignedIsFirst(p, Items(st, headers), cap, a);
    }
  }

  lemma SplitAt<T>(items: seq<Item<T>>, g: nat)
    requires g < |items|
    ensures Before(items, g) + |items[g].data| <= |Elements(items)|
    ensures Elements(items)[Before(items, g)..Before(items, g) + |items[g].data|] == items[g].data
  {
    var d := Data(items);
    assert Data(items[..g]) == d[..g];
    ConcatSplit(d, g);
    ConcatFirst(d[g..]);
    MiddlePart(Concat(d[..g]), d[g], Concat(d[g..][1..]));
  }

  lemma MiddlePart<X>(a: seq<X>, m: seq<X>, b: seq<X>)
    ensures |a| + |m| <= |a + (m + b)| && (a + (m + b))[|a|..|a| + |m|] == m
  {
  }

  lemma {:induction false} ChunkOf<T>(items: seq<Item<T>>, k: nat) returns (g: nat)
    requires k < |Elements(items)|
    ensures g < |items| && Before(items, g) <= k < Before(items, g) + |items[g].data|
    ensures Elements(items)[k] == items[g].data[k - Before(items, g)]
  {
    var n := |items| - 1;
    assert Data(items)[..n] == Data(items[..n]);
    if k < |Elements(items[..n])| {
      g := ChunkOf(items[..n], k);
      assert items[..n][..g] == items[..g];
    } else {
      g := n;
    }
  }

  // With aligned chunks the least place is the first match of the whole sequence.
  lemma AlignedIsFirst<T(!new)>(p: T -> bool, items: seq<Item<T>>, cap: nat, r: nat)
    requires Aligned(items, cap) && IsLeast(p, multiset(items), cap, |Elements(items)|, r)
    ensures IsFirst(p, Elements(items), r)
  {
    if r < |Elements(items)| {
      PlaceMatches(p, items, cap, r);
    }
    forall k | 0 <= k < r ensures !p(Elements(items)[k]) {
      NoEarlierMatch(p, items, cap, r, k);
    }
  }

  lemma PlaceMatches<T>(p: T -> bool, items: seq<Item<T>>, cap: nat, r: nat)
    requires Aligned(items, cap) && r < |Elements(items)|
    requires exists x :: x in multiset(items) && MatchesAt(p, x, cap, r)
    ensures p(Elements(items)[r])
  {
    var x :| x in multiset(items) && MatchesAt(p, x, cap, r);
    var g :| 0 <= g < |items| && items[g] == x;
    ChunkMatches(p, items, cap, g, r);
  }

  lemma ChunkMatches<T>(p: T -> bool, items: seq<Item<T>>, cap: nat, g: nat, r: nat)
    requires Aligned(items, cap) && r < |Elements(items)| && g < |items| && MatchesAt(p, items[g], cap, r)
    ensures p(Elements(items)[r])
  {
    var x := items[g];
    var j :| 0 <= j < |x.data| && IsFirst(p, x.data, j) && r == x.key * cap + j;
    assert r == Before(items, g) + j;
    ElementIn(items, g, j);
  }

  lemma ElementIn<T>(items: seq<Item<T>>, g: nat, j: nat)
    requires g < |items| && j < |items[g].data|
    ensures Before(items, g) + j < |Elements(items)| && Elements(items)[Before(items, g) + j] == items[g].data[j]
  {
    SplitAt(items, g);
    var from := Before(items, g);
    assert Elements(items)[from + j] == Elements(items)[from..from + |items[g].data|][j];
  }

  lemma NoEarlierMatch<T(!new)>(p: T -> bool, items: seq<Item<T>>, cap: nat, r: nat, k: nat)
    requires Aligned(items, cap) && IsLeast(p, multiset(items), cap, |Elements(items)|, r) && k < r
    ensures !p(Elements(items)[k])
  {
    var g := ChunkOf(items, k);
    assert items[g] in multiset(items);
    if p(Elements(items)[k]) {
      var j := FirstIn(p, items[g].data, k - Before(items, g));
      assert MatchesAt(p, items[g], cap, items[g].key * cap + j);
    }
  }

  lemma {:induction false} FirstIn<T>(p: T -> bool, s: seq<T>, k: nat) returns (j: nat)
    requires k < |s| && p(s[k])
    ensures j <= k && IsFirst(p, s, j)
  {
    if i: nat :| i < k && p(s[i]) {
      j := FirstIn(p, s, i);
    } else {
      j := k;
    }
  }

  // Chunks with indices 0, 1, 2, ... that are full except for the last are aligned.
  lemma {:induction false} FullChunksAligned<T>(items: seq<Item<T>>, cap: nat, g: nat)
    requires g < |items| && forall k :: 0 <= k < |items| ==> items[k].key == k
    requires forall k :: 0 <= k < |items| - 1 ==> |items[k].data| == cap
    ensures items[g].key * cap == Before(items, g)
  {
    if g > 0 {
      FullChunksAligned(items, cap, g - 1);
      assert Data(items[..g])[..g - 1] == Data(items[..g - 1]);
      assert items[..g][g - 1] == items[g - 1];
      ProductStep(g - 1, cap);
    }
  }

  const IsSet: bool -> bool := (b: bool) => b

  ghost predicate SameShape(a: seq<Item<bool>>, b: seq<Item<bool>>)
  {
    |a| == |b| && forall k :: 0 <= k < |a| ==> a[k].key == b[k].key && |a[k].data| == |b[k].data|
  }

  // The least place is the first match.
  ghost predicate Right(items: seq<Item<bool>>, cap: nat)
  {
    forall r: nat {:trigger IsLeast(IsSet, multiset(items), cap, |Elements(items)|, r)} ::
      IsLeast(IsSet, multiset(items), cap, |Elements(items)|, r) ==> IsFirst(IsSet, Elements(items), r)
  }

  // The program is right for all contents of chunks of given sizes exactly when the chunks are
  // aligned.
  lemma AlwaysRightIffAligned(items: seq<Item<bool>>, cap: nat)
    ensures (forall other {:trigger SameShape(items, other)} :: SameShape(items, other) ==> Right(other, cap))
         <==> Aligned(items, cap)
  {
    if Aligned(items, cap) {
      forall other | SameShape(items, other) ensures Right(other, cap) {
        SameShapeAligned(items, other, cap);
        forall r: nat | IsLeast(IsSet, multiset(other), cap, |Elements(other)|, r)
          ensures IsFirst(IsSet, Elements(other), r)
        {
          AlignedIsFirst(IsSet, other, cap, r);
        }
      }
    } else {
      var g :| 0 <= g < |items| && items[g].data != [] && items[g].key * cap != Before(items, g);
      MisalignedGoesWrong(items, cap, g);
      assert SameShape(items, OnlyFirstOf(items, g));
    }
  }

  lemma SameShapeAligned(a: seq<Item<bool>>, b: seq<Item<bool>>, cap: nat)
    requires SameShape(a, b) && Aligned(a, cap)
    ensures Aligned(b, cap)
  {
    forall g | 0 <= g < |b| && b[g].data != [] ensures b[g].key * cap == Before(b, g) {
      SameStarts(a, b, g);
      assert a[g].data != [];
    }
  }

  // A chunk that is not aligned, and whose first flag alone is set, is found in the wrong place.
  lemma MisalignedGoesWrong(items: seq<Item<bool>>, cap: nat, g: nat)
    requires g < |items| && items[g].data != [] && items[g].key * cap != Before(items, g)
    ensures !Right(OnlyFirstOf(items, g), cap)
  {
    var bad := OnlyFirstOf(items, g);
    SameStarts(items, bad, g);
    SplitAt(bad, g);
    var at := Before(bad, g);
    assert Elements(bad)[at] == Elements(bad)[at..at + |bad[g].data|][0];
    var r := Min(|Elements(bad)|, items[g].key * cap);
    OnlyPlace(items, bad, cap, g);
    if r < at {
      var k := ChunkOf(bad, r);
    }
  }

  // Flags of the same sizes, of which only the first one of chunk g is set.
  function OnlyFirstOf(items: seq<Item<bool>>, g: nat): (bad: seq<Item<bool>>)
    ensures |bad| == |items|
    ensures forall k :: 0 <= k < |items| ==> bad[k].key == items[k].key && |bad[k].data| == |items[k].data|
    ensures forall k, j :: 0 <= k < |items| && 0 <= j < |items[k].data| ==> bad[k].data[j] == (k == g && j == 0)
  {
    seq(|items|, k requires 0 <= k < |items| => Item(items[k].key, seq(|items[k].data|, j => k == g && j == 0)))
  }

  lemma {:induction false} SameStarts(a: seq<Item<bool>>, b: seq<Item<bool>>, g: nat)
    requires |a| == |b| && g <= |a| && forall k :: 0 <= k < |a| ==> |a[k].data| == |b[k].data|
    ensures Before(a, g) == Before(b, g)
  {
    if g > 0 {
      SameStarts(a, b, g - 1);
      assert Data(a[..g])[..g - 1] == Data(a[..g - 1]) && Data(b[..g])[..g - 1] == Data(b[..g - 1]);
      assert a[..g][g - 1] == a[g - 1] && b[..g][g - 1] == b[g - 1];
    }
  }

  lemma OnlyPlace(items: seq<Item<bool>>, bad: seq<Item<bool>>, cap: nat, g: nat)
    requires g < |items| && items[g].data != [] && bad == OnlyFirstOf(items, g)
    ensures IsLeast(IsSet, multiset(bad), cap, |Elements(bad)|, Min(|Elements(bad)|, items[g].key * cap))
  {
    assert IsFirst(IsSet, bad[g].data, 0);
    assert bad[g].key * cap == items[g].key * cap + 0;
    assert MatchesAt(IsSet, bad[g], cap, items[g].key * cap);
    forall x, at | x in multiset(bad) && MatchesAt(IsSet, x, cap, at) ensures at == items[g].key * cap {
      var k :| 0 <= k < |bad| && bad[k] == x;
      var j :| 0 <= j < |x.data| && IsFirst(IsSet, x.data, j) && at == x.key * cap + j;
      assert bad[k].data[j] == (k == g && j == 0);
    }
  }

  // ---- the output of a filter --------------------------------------------------------------

  const IsNonZero: nat -> bool := (x: nat) => x != 0
  const IsThree: nat -> bool := (x: nat) => x == 3

  // Two full chunks of two elements, and what filtering them for what is not zero leaves.
  const FullFirst: Item<nat> := Item(0, [0, 1])
  const FullSecond: Item<nat> := Item(1, [2, 3])
  const KeptFirst: Item<nat> := Item(0, [1])

  lemma FilterPair<T>(p: T -> bool, a: T, b: T)
    ensures Filter(p, [a, b]) == (if p(a) then [a] else []) + (if p(b) then [b] else [])
  {
    assert [a, b][..1] == [a] && [a][..0] == [];
    assert Filter(p, [a]) == Filter(p, []) + if p(a) then [a] else [];
  }

  lemma FilteredChunks()
    ensures EngineOperators.FilterBody(IsNonZero, FullFirst) == [KeptFirst]
    ensures EngineOperators.FilterBody(IsNonZero, FullSecond) == [FullSecond]
  {
    FilterPair(IsNonZero, 0, 1);
    FilterPair(IsNonZero, 2, 3);
    assert FullFirst.data == [0, 1] && FullSecond.data == [2, 3];
    assert [] + [1] == [1] && [2] + [3] == [2, 3];
  }

  lemma KeptElements(items: seq<Item<nat>>)
    requires items == [KeptFirst, FullSecond]
    ensures Elements(items) == [1, 2, 3]
  {
    var a, b := KeptFirst.data, FullSecond.data;
    ConcatPair(a, b);
    assert Data(items) == [a, b];
    assert a == [1] && b == [2, 3];
    assert a + b == [1, 2, 3];
  }

  lemma OnlyPlaceOfThree(x: Item<nat>, at: nat)
    requires (x == KeptFirst || x == FullSecond) && MatchesAt(IsThree, x, 2, at)
    ensures at == 3
  {
    var j :| 0 <= j < |x.data| && IsFirst(IsThree, x.data, j) && at == x.key * 2 + j;
    assert IsThree(x.data[j]);
  }

  // The filtered chunks hold 1 and 2, 3. The search for 3 reports that there is none, although it
  // is at position 2.
  lemma FilterOutputMisplaced(st: Store<nat>, headers: seq<Header>, r: nat)
    requires Items(st, headers)
         == EngineOperators.FilterBody(IsNonZero, FullFirst) + EngineOperators.FilterBody(IsNonZero, FullSecond)
    requires IsLeast(IsThree, multiset(Items(st, headers)), 2, |Denote(st, headers)|, r)
    ensures Denote(st, headers) == [1, 2, 3] && IsFirst(IsThree, Denote(st, headers), 2)
    ensures r == 3 && !IsFirst(IsThree, Denote(st, headers), r)
  {
    FilteredChunks();
    var items := Items(st, headers);
    assert items == [KeptFirst, FullSecond];
    KeptElements(items);
    forall x, at | x in multiset(items) && MatchesAt(IsThree, x, 2, at) ensures at == 3 {
      OnlyPlaceOfThree(x, at);
    }
  }
}
