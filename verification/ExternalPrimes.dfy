// The segmented sieve on disk: flag chunks are created, read back in any order, sieved and
// replaced by the primes they hold (Plaidlay/examples/external/primes.h,
// Plaidlay/ExternalBoolean.h).
module ExternalPrimes {
  import opened Arithmetic
  import opened Sequences
  import opened ExternalSequence
  import opened EngineState
  import opened ChunkEngine
  import opened BatchRounds
  import opened PrimeNumbers
  import PrimeSieve
  import ChunkReader

  // ---- flag chunks -------------------------------------------------------------------------

  // How many of the n flags are in chunk g.
  function ValidFlags(n: nat, cap: nat, g: nat): nat
  {
    if g * cap < n then Min(cap, n - g * cap) else 0
  }

  function FlagChunk(n: nat, cap: nat, val: bool, g: nat): Item<bool>
  {
    Item(g, seq(ValidFlags(n, cap, g), _ => val))
  }

  ghost function FlagChunks(n: nat, cap: nat, val: bool, m: nat): (r: seq<Item<bool>>)
    ensures |r| == m && forall g :: 0 <= g < m ==> r[g] == FlagChunk(n, cap, val, g)
  {
    seq(m, g requires 0 <= g < m => FlagChunk(n, cap, val, g))
  }

  // The blocks are consecutive chunks from chunk base on.
  ghost predicate AreFlagChunks(n: nat, cap: nat, val: bool, base: nat, blocks: seq<Item<bool>>)
  {
    forall i :: 0 <= i < |blocks| ==> blocks[i] == FlagChunk(n, cap, val, base + i)
  }

  lemma FlagChunksAppend(n: nat, cap: nat, val: bool, done: seq<Item<bool>>, blocks: seq<Item<bool>>)
    requires AreFlagChunks(n, cap, val, 0, done) && AreFlagChunks(n, cap, val, |done|, blocks)
    ensures AreFlagChunks(n, cap, val, 0, done + blocks)
  {
    forall i | 0 <= i < |done + blocks| ensures (done + blocks)[i] == FlagChunk(n, cap, val, i) {
      if i >= |done| {
        assert blocks[i - |done|] == FlagChunk(n, cap, val, |done| + (i - |done|));
      }
    }
  }

  function CeilDiv(a: nat, b: nat): nat
    requires b > 0
  {
    (a + b - 1) / b
  }

  lemma CeilCovers(a: nat, b: nat)
    requires b > 0
    ensures a <= CeilDiv(a, b) * b < a + b
  {
  }

  // The chunks that batch w produces, one per drive except where no chunk is left.
  method FlagBatch(c: Config, n: nat, cap: nat, val: bool, base: nat, numChunks: nat) returns (blocks: seq<Item<bool>>)
    ensures |blocks| == if base + c.numSsds <= numChunks then c.numSsds
            else if base <= numChunks then numChunks - base else 0
    ensures AreFlagChunks(n, cap, val, base, blocks)
  {
    blocks := [];
    for i := 0 to c.numSsds
      invariant |blocks| == if base + i <= numChunks then i else if base <= numChunks then numChunks - base else 0
      invariant AreFlagChunks(n, cap, val, base, blocks)
    {
      var globalChunk := base + i;
      if globalChunk < numChunks {
        blocks := blocks + [FlagChunk(n, cap, val, globalChunk)];
      }
    }
  }

  // BoolCreate: n flags of the given size in bytes, all equal to val.
  method BoolCreate(c: Config, n: nat, size: nat, val: bool) returns (st: Store<bool>, out: seq<Header>)
    requires c.numSsds > 0 && 0 < size <= c.blockBytes
    ensures c.blockBytes / size > 0
    ensures Items(st, out) == FlagChunks(n, c.blockBytes / size, val, CeilDiv(n, c.blockBytes / size))
    ensures Denote(st, out) == seq(n, _ => val) && AllApart(out, c.blockBytes)
  {
    var cap := c.blockBytes / size;
    QuotientBounds(c.blockBytes, size);
    var numChunks := CeilDiv(n, cap);
    ghost var e := FlagChunks(n, cap, val, numChunks);
    var s := WriteFlags(c, n, cap, val, numChunks, e);
    st, out := FinishRounds(c, s, e, e, numChunks);
    FlagsDenote(n, cap, val, numChunks);
    CeilCovers(n, cap);
  }

  method WriteFlags(c: Config, n: nat, cap: nat, val: bool, numChunks: nat, ghost e: seq<Item<bool>>)
    returns (s: State<bool>)
    requires c.numSsds > 0 && c.blockBytes > 0 && e == FlagChunks(n, cap, val, numChunks)
    ensures Laid(c, s, e, numChunks)
  {
    var writeCount, expectedWriteCount := 0, CeilDiv(numChunks, c.numSsds);
    CeilCovers(numChunks, c.numSsds);
    ghost var done: seq<Item<bool>> := [];
    s := NoneLaid(c, numChunks);
    while writeCount < expectedWriteCount
      invariant 0 <= writeCount <= expectedWriteCount && |done| == BatchStart(writeCount, c.numSsds, numChunks)
      invariant AreFlagChunks(n, cap, val, 0, done) && Laid(c, s, done, numChunks)
    {
      LastBatch(writeCount, expectedWriteCount, c.numSsds, numChunks);
      s, done := WriteBatch(c, s, n, cap, val, writeCount * c.numSsds, numChunks, done);
      writeCount := writeCount + 1;
    }
    FlagsComplete(n, cap, val, done, e);
  }

  lemma FlagsComplete(n: nat, cap: nat, val: bool, done: seq<Item<bool>>, e: seq<Item<bool>>)
    requires AreFlagChunks(n, cap, val, 0, done) && e == FlagChunks(n, cap, val, |done|)
    ensures done == e
  {
  }

  // The first chunk of batch w.
  function BatchStart(w: nat, d: nat, numChunks: nat): nat
  {
    Min(w * d, numChunks)
  }

  method WriteBatch(c: Config, start: State<bool>, n: nat, cap: nat, val: bool, base: nat, numChunks: nat,
                    ghost done: seq<Item<bool>>)
    returns (s: State<bool>, ghost more: seq<Item<bool>>)
    requires AreFlagChunks(n, cap, val, 0, done) && Laid(c, start, done, numChunks) && |done| == base <= numChunks
    ensures AreFlagChunks(n, cap, val, 0, more) && Laid(c, s, more, numChunks)
    ensures |more| == Min(base + c.numSsds, numChunks)
  {
    var flags := FlagBatch(c, n, cap, val, base, numChunks);
    s := RunRound(c, start, flags, done, numChunks);
    FlagChunksAppend(n, cap, val, done, flags);
    more := done + flags;
  }

  lemma LastBatch(w: nat, expected: nat, d: nat, numChunks: nat)
    requires w < expected && expected * d < numChunks + d
    ensures w * d == BatchStart(w, d, numChunks) && BatchStart(w + 1, d, numChunks) == Min(w * d + d, numChunks)
  {
    ProductMonotone(w + 1, expected, d);
    ProductStep(w, d);
  }

  lemma {:induction false} FlagsDenote(n: nat, cap: nat, val: bool, m: nat)
    ensures Elements(FlagChunks(n, cap, val, m)) == seq(Min(m * cap, n), _ => val)
  {
    if m > 0 {
      FlagsDenote(n, cap, val, m - 1);
      ProductStep(m - 1, cap);
      assert Data(FlagChunks(n, cap, val, m))[..m - 1] == Data(FlagChunks(n, cap, val, m - 1));
    }
  }

  // ---- sieving the chunks ------------------------------------------------------------------

  // What the sieve of one chunk emits.
  ghost function ChunkPrimes(cap: nat, x: Item<bool>): Item<nat>
  {
    Item(x.key, PrimesIn(x.key * cap, x.key * cap + |x.data|))
  }

  ghost function SievedChunks(cap: nat, chunks: seq<Item<bool>>): (r: seq<Item<nat>>)
    ensures |r| == |chunks| && forall i :: 0 <= i < |chunks| ==> r[i] == ChunkPrimes(cap, chunks[i])
  {
    seq(|chunks|, i requires 0 <= i < |chunks| => ChunkPrimes(cap, chunks[i]))
  }

  ghost predicate IsFlagChunk(n: nat, cap: nat, x: Item<bool>)
  {
    cap > 0 && x == FlagChunk(n + 1, cap, true, x.key) && x.key < CeilDiv(n + 1, cap)
  }

  lemma ChunkShape(n: nat, cap: nat, x: Item<bool>)
    requires cap >= 4 && cap % 2 == 0 && IsFlagChunk(n, cap, x)
    ensures (x.key * cap) % 2 == 0 && x.key * cap != 2 && x.key * cap + |x.data| <= n + 1
    ensures forall k :: 0 <= k < |x.data| ==> x.data[k]
  {
    EvenProduct(x.key, cap);
    ProductMonotone(1, x.key, cap);
    StartsInRange(n + 1, cap, x.key);
  }

  lemma EvenProduct(a: nat, cap: nat)
    requires cap % 2 == 0
    ensures (a * cap) % 2 == 0
  {
    var h := cap / 2;
    assert cap == 2 * h;
    assert a * (2 * h) == 2 * (a * h);
  }

  lemma StartsInRange(n: nat, cap: nat, g: nat)
    requires cap > 0 && g < CeilDiv(n, cap)
    ensures g * cap < n
  {
    CeilCovers(n, cap);
    ProductMonotone(g + 1, CeilDiv(n, cap), cap);
    ProductStep(g, cap);
  }

  // The tasks of one batch.
  method SieveRound(cap: nat, ghost n: nat, ghost root: nat, basePrimes: seq<nat>, polled: seq<Item<bool>>)
    returns (blocks: seq<Item<nat>>)
    requires cap >= 4 && cap % 2 == 0 && FloorSqrt(root, n) && basePrimes == PrimesIn(0, root + 1)
    requires forall i :: 0 <= i < |polled| ==> IsFlagChunk(n, cap, polled[i])
    ensures blocks == SievedChunks(cap, polled)
  {
    blocks := [];
    for i := 0 to |polled|
      invariant |blocks| == i && forall j :: 0 <= j < i ==> blocks[j] == ChunkPrimes(cap, polled[j])
    {
      var x := polled[i];
      ChunkShape(n, cap, x);
      var flags := new bool[|x.data|](k requires 0 <= k < |x.data| => x.data[k]);
      var found := PrimeSieve.SieveChunk(flags, x.key * cap, n, root, basePrimes);
      blocks := blocks + [Item(x.key, found)];
    }
  }

  // The batches: one chunk for each drive, until all have been read.
  method SieveBatches(c: Config, n: nat, cap: nat, ghost root: nat, basePrimes: seq<nat>, arrivals: seq<Item<bool>>)
    returns (s: State<nat>)
    requires c.numSsds > 0 && c.blockBytes > 0
    requires cap >= 4 && cap % 2 == 0 && FloorSqrt(root, n) && basePrimes == PrimesIn(0, root + 1)
    requires forall i :: 0 <= i < |arrivals| ==> IsFlagChunk(n, cap, arrivals[i])
    ensures Laid(c, s, SievedChunks(cap, arrivals), |arrivals|)
  {
    var expectedReads := ExpectedReads(|arrivals|, c.numSsds);
    var writeCount, rest := 0, arrivals;
    ghost var done: seq<Item<nat>> := [];
    s := NoneLaid(c, |arrivals|);
    while writeCount < expectedReads
      invariant 0 <= writeCount <= expectedReads && Covers(expectedReads - writeCount, c.numSsds, |rest|)
      invariant Sieved(cap, arrivals, rest, done)
      invariant Laid(c, s, done, |arrivals|)
    {
      RoundPolled(expectedReads - writeCount, c.numSsds, rest);
      s, done := SieveNext(c, s, n, cap, root, basePrimes, arrivals, rest, done);
      rest := rest[Min(c.numSsds, |rest|)..];
      writeCount := writeCount + 1;
    }
    SievedAll(cap, arrivals, done);
  }

  lemma RoundPolled<X>(rounds: nat, n: nat, rest: seq<X>)
    requires Covers(rounds, n, |rest|) && rounds > 0
    ensures Covers(rounds - 1, n, |rest[Min(n, |rest|)..]|)
  {
    CoversNext(rounds, n, |rest|, |rest[Min(n, |rest|)..]|);
  }

  lemma SievedAll(cap: nat, arrivals: seq<Item<bool>>, done: seq<Item<nat>>)
    requires Sieved(cap, arrivals, [], done)
    ensures done == SievedChunks(cap, arrivals)
  {
    assert |arrivals[|done|..]| == 0;
    assert arrivals[..|done|] == arrivals;
  }

  // One batch of the loop.
  method SieveNext(c: Config, start: State<nat>, ghost n: nat, cap: nat, ghost root: nat, basePrimes: seq<nat>,
                   ghost arrivals: seq<Item<bool>>, rest: seq<Item<bool>>, ghost done: seq<Item<nat>>)
    returns (s: State<nat>, ghost more: seq<Item<nat>>)
    requires cap >= 4 && cap % 2 == 0 && FloorSqrt(root, n) && basePrimes == PrimesIn(0, root + 1)
    requires forall i :: 0 <= i < |arrivals| ==> IsFlagChunk(n, cap, arrivals[i])
    requires Sieved(cap, arrivals, rest, done) && Laid(c, start, done, |arrivals|)
    ensures Sieved(cap, arrivals, rest[Min(c.numSsds, |rest|)..], more) && Laid(c, s, more, |arrivals|)
  {
    var polled := rest[..Min(c.numSsds, |rest|)];
    PolledAreFlags(n, cap, arrivals, rest, done, polled);
    var found := SieveRound(cap, n, root, basePrimes, polled);
    s := RunRound(c, start, found, done, |arrivals|);
    SievedMore(cap, arrivals, rest, done, found);
    more := done + found;
  }

  // The chunks up to rest have been sieved.
  ghost predicate Sieved(cap: nat, arrivals: seq<Item<bool>>, rest: seq<Item<bool>>, done: seq<Item<nat>>)
  {
    |done| <= |arrivals| && rest == arrivals[|done|..] && done == SievedChunks(cap, arrivals[..|done|])
  }

  lemma PolledAreFlags(n: nat, cap: nat, arrivals: seq<Item<bool>>, rest: seq<Item<bool>>, done: seq<Item<nat>>,
                       polled: seq<Item<bool>>)
    requires Sieved(cap, arrivals, rest, done) && |polled| <= |rest| && polled == rest[..|polled|]
    requires forall i :: 0 <= i < |arrivals| ==> IsFlagChunk(n, cap, arrivals[i])
    ensures forall i :: 0 <= i < |polled| ==> IsFlagChunk(n, cap, polled[i])
    ensures |done| + |polled| <= |arrivals|
  {
    forall i | 0 <= i < |polled| ensures polled[i] == arrivals[|done| + i] {
    }
  }

  lemma SievedMore(cap: nat, arrivals: seq<Item<bool>>, rest: seq<Item<bool>>, done: seq<Item<nat>>,
                   blocks: seq<Item<nat>>)
    requires Sieved(cap, arrivals, rest, done) && |blocks| <= |rest| && blocks == SievedChunks(cap, rest[..|blocks|])
    ensures Sieved(cap, arrivals, rest[|blocks|..], done + blocks)
  {
    var polled := rest[..|blocks|];
    assert arrivals[..|done|] + polled == arrivals[..|done| + |polled|];
    SievedAppend(cap, arrivals[..|done|], polled);
  }

  lemma SievedAppend(cap: nat, a: seq<Item<bool>>, b: seq<Item<bool>>)
    ensures SievedChunks(cap, a + b) == SievedChunks(cap, a) + SievedChunks(cap, b)
  {
  }

  lemma SievedAnyOrder(cap: nat, a: seq<Item<bool>>, b: seq<Item<bool>>)
    requires multiset(a) == multiset(b)
    ensures multiset(SievedChunks(cap, a)) == multiset(SievedChunks(cap, b))
  {
    var body := (x: Item<bool>) => [ChunkPrimes(cap, x)];
    FlatMapAnyOrder(body, a, b);
    ConcatSingles(MapParts(body, a), SievedChunks(cap, a));
    ConcatSingles(MapParts(body, b), SievedChunks(cap, b));
  }

  // The chunks in index order hold the primes up to n.
  lemma {:induction false} SievedDenote(n: nat, cap: nat, m: nat)
    requires cap > 0 && m <= CeilDiv(n + 1, cap)
    ensures Elements(SievedChunks(cap, FlagChunks(n + 1, cap, true, m))) == PrimesIn(0, Min(m * cap, n + 1))
  {
    if m > 0 {
      var g := m - 1;
      SievedDenote(n, cap, g);
      StartsInRange(n + 1, cap, g);
      SievedNext(n + 1, cap, g);
      ChunkRange(n + 1, cap, g);
      PrimesInSplit(0, g * cap, Min(m * cap, n + 1));
    }
  }

  lemma SievedNext(n: nat, cap: nat, g: nat)
    ensures Elements(SievedChunks(cap, FlagChunks(n, cap, true, g + 1)))
         == Elements(SievedChunks(cap, FlagChunks(n, cap, true, g))) + ChunkPrimes(cap, FlagChunk(n, cap, true, g)).data
  {
    assert Data(SievedChunks(cap, FlagChunks(n, cap, true, g + 1)))[..g]
        == Data(SievedChunks(cap, FlagChunks(n, cap, true, g)));
  }

  lemma ChunkRange(n: nat, cap: nat, g: nat)
    requires g * cap < n
    ensures ChunkPrimes(cap, FlagChunk(n, cap, true, g)).data == PrimesIn(g * cap, Min((g + 1) * cap, n))
    ensures g * cap <= Min((g + 1) * cap, n)
  {
    ProductStep(g, cap);
  }

  // A flag takes up one byte and a prime eight.
  const FLAG_SIZE: nat := 1
  const PRIME_SIZE: nat := 8

  // The primes in chunk g fit into a block.
  ghost predicate PrimesFit(n: nat, blockBytes: nat, g: nat)
  {
    |PrimesIn(g * blockBytes, Min((g + 1) * blockBytes, n + 1))| * PRIME_SIZE <= blockBytes
  }

  // The whole computation: whatever files each batch draws, the order of arrivals and of slots, the
  // result lists the primes up to n in ascending order. The blocks stay within their regions
  // exactly if no chunk has more primes than a block has room for.
  method Primes(c: Config, reader: ChunkReader.Setup, n: nat, estimate: nat)
    returns (st: Store<nat>, out: seq<Header>)
    requires c.numSsds > 0 && c.blockBytes >= 4 && c.blockBytes % 2 == 0 && ChunkReader.CanRead(reader)
    ensures Denote(st, out) == PrimesIn(0, n + 1)
    ensures Dense(out) && AllApart(out, c.blockBytes)
    ensures |out| == if n < 2 then 0 else CeilDiv(n + 1, c.blockBytes)
    ensures (forall k :: 0 <= k < |out| ==> |Block(st, out[k])| * PRIME_SIZE <= c.blockBytes)
       <==> forall g: nat :: g < |out| ==> PrimesFit(n, c.blockBytes, g)
  {
    if n < 2 {
      NoPrimesBelowTwo();
      return map[], [];
    }
    var root := PrimeSieve.IntegerSqrt(n, estimate);
    var basePrimes := PrimeSieve.BaseSieve(root);
    var flagStore, flagHeaders := BoolCreate(c, n + 1, FLAG_SIZE, true);
    var arrivals := ChunkReader.ReadChunks(reader, flagStore, flagHeaders);
    st, out := SieveFlags(c, n, c.blockBytes, root, basePrimes, arrivals);
    FitByChunk(n, c.blockBytes, st, out);
  }

  lemma FitByChunk(n: nat, blockBytes: nat, st: Store<nat>, out: seq<Header>)
    requires blockBytes > 0 && |out| == CeilDiv(n + 1, blockBytes)
    requires Items(st, out) == SievedChunks(blockBytes, FlagChunks(n + 1, blockBytes, true, |out|))
    ensures (forall k :: 0 <= k < |out| ==> |Block(st, out[k])| * PRIME_SIZE <= blockBytes)
       <==> forall g: nat :: g < |out| ==> PrimesFit(n, blockBytes, g)
  {
    forall k | 0 <= k < |out|
      ensures |Block(st, out[k])| * PRIME_SIZE <= blockBytes <==> PrimesFit(n, blockBytes, k)
    {
      assert Items(st, out)[k].data == ChunkPrimes(blockBytes, FlagChunk(n + 1, blockBytes, true, k)).data;
      StartsInRange(n + 1, blockBytes, k);
      ChunkRange(n + 1, blockBytes, k);
    }
  }

  method SieveFlags(c: Config, n: nat, cap: nat, ghost root: nat, basePrimes: seq<nat>, arrivals: seq<Item<bool>>)
    returns (st: Store<nat>, out: seq<Header>)
    requires c.numSsds > 0 && c.blockBytes > 0
    requires cap >= 4 && cap % 2 == 0 && FloorSqrt(root, n) && basePrimes == PrimesIn(0, root + 1)
    requires multiset(arrivals) == multiset(FlagChunks(n + 1, cap, true, CeilDiv(n + 1, cap)))
    ensures Denote(st, out) == PrimesIn(0, n + 1)
    ensures Dense(out) && AllApart(out, c.blockBytes) && |out| == CeilDiv(n + 1, cap)
    ensures Items(st, out) == SievedChunks(cap, FlagChunks(n + 1, cap, true, |out|))
  {
    ghost var chunks := FlagChunks(n + 1, cap, true, CeilDiv(n + 1, cap));
    ghost var e := SievedChunks(cap, chunks);
    AllFlagChunks(n, cap, arrivals, chunks);
    var s := SieveBatches(c, n, cap, root, basePrimes, arrivals);
    SievedAnyOrder(cap, arrivals, chunks);
    st, out := FinishRounds(c, s, SievedChunks(cap, arrivals), e, |arrivals|);
    SievedResult(n, cap, st, out);
  }

  lemma SievedResult(n: nat, cap: nat, st: Store<nat>, out: seq<Header>)
    requires cap > 0 && Items(st, out) == SievedChunks(cap, FlagChunks(n + 1, cap, true, CeilDiv(n + 1, cap)))
    ensures Denote(st, out) == PrimesIn(0, n + 1) && Dense(out) && |out| == CeilDiv(n + 1, cap)
  {
    SievedDenote(n, cap, CeilDiv(n + 1, cap));
    CeilCovers(n + 1, cap);
    KeysAreDense(st, out, Items(st, out));
  }

  lemma KeysAreDense(st: Store<nat>, out: seq<Header>, e: seq<Item<nat>>)
    requires Items(st, out) == e && forall k :: 0 <= k < |e| ==> e[k].key == k
    ensures Dense(out)
  {
    forall k | 0 <= k < |out| ensures out[k].index == k {
      assert Items(st, out)[k] == e[k];
    }
  }

  lemma AllFlagChunks(n: nat, cap: nat, arrivals: seq<Item<bool>>, chunks: seq<Item<bool>>)
    requires cap > 0 && chunks == FlagChunks(n + 1, cap, true, CeilDiv(n + 1, cap))
    requires multiset(arrivals) == multiset(chunks)
    ensures forall i :: 0 <= i < |arrivals| ==> IsFlagChunk(n, cap, arrivals[i])
    ensures |arrivals| == |chunks|
  {
    forall i | 0 <= i < |arrivals| ensures IsFlagChunk(n, cap, arrivals[i]) {
      assert arrivals[i] in multiset(chunks);
    }
    assert |multiset(arrivals)| == |multiset(chunks)|;
  }
}
