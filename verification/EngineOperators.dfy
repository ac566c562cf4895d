// ExternalMap and ExternalFilter on the chunk engine
// (Plaidlay/external_engine/ExternalMap.h, Plaidlay/external_engine/ExternalFilter.h).
module EngineOperators {
  import opened Arithmetic
  import opened Sequences
  import opened ExternalSequence
  import opened ChunkEngine
  import EngineState
  import ChunkReader

  // ---- sequential meaning ------------------------------------------------------------------

  function Map<T, R>(f: T -> R, s: seq<T>): (r: seq<R>)
    ensures |r| == |s| && forall k :: 0 <= k < |s| ==> r[k] == f(s[k])
  {
    seq(|s|, k requires 0 <= k < |s| => f(s[k]))
  }

  lemma MapAppend<T, R>(f: T -> R, a: seq<T>, b: seq<T>)
    ensures Map(f, a + b) == Map(f, a) + Map(f, b)
  {
  }

  lemma ElementsSnoc<T>(items: seq<Item<T>>)
    requires items != []
    ensures Elements(items) == Elements(items[..|items| - 1]) + items[|items| - 1].data
  {
    assert Data(items)[..|items| - 1] == Data(items[..|items| - 1]);
  }

  // ---- the ordering keys -------------------------------------------------------------------

  // A body that numbers the blocks of chunk k with increasing keys from k * fanout up to, but
  // not including, (k + 1) * fanout.
  ghost predicate KeysInRange<R>(items: seq<Item<R>>, k: nat, fanout: nat)
  {
    Increasing(items) && forall i :: 0 <= i < |items| ==> k * fanout <= items[i].key < (k + 1) * fanout
  }

  lemma {:induction false} KeysIncrease<T, R>(body: Item<T> -> seq<Item<R>>, items: seq<Item<T>>, fanout: nat)
    requires Increasing(items)
    requires forall i :: 0 <= i < |items| ==> KeysInRange(body(items[i]), items[i].key, fanout)
    ensures Increasing(FlatMap(body, items))
    ensures items != [] ==> forall x :: x in FlatMap(body, items) ==> x.key < (items[|items| - 1].key + 1) * fanout
  {
    if items != [] {
      var n := |items| - 1;
      var a, b := FlatMap(body, items[..n]), body(items[n]);
      KeysIncrease(body, items[..n], fanout);
      FlatMapSnoc(body, items);
      forall x | x in a ensures x.key < items[n].key * fanout {
        ProductMonotone(items[n - 1].key + 1, items[n].key, fanout);
      }
      ProductMonotone(items[n].key, items[n].key + 1, fanout);
      assert KeysInRange(b, items[n].key, fanout);
      IncreasingAppend(a, b, items[n].key * fanout);
      forall x | x in a + b ensures x.key < (items[n].key + 1) * fanout {
      }
    }
  }

  lemma IncreasingAppend<R>(a: seq<Item<R>>, b: seq<Item<R>>, bound: nat)
    requires Increasing(a) && Increasing(b)
    requires forall x :: x in a ==> x.key < bound
    requires forall i :: 0 <= i < |b| ==> bound <= b[i].key
    ensures Increasing(a + b)
  {
  }

  // ---- sequences that operators consume and produce ----------------------------------------

  ghost predicate IsSequence<T>(st: Store<T>, hs: seq<Header>, capacity: nat)
  {
    Increasing(Items(st, hs)) && forall k :: 0 <= k < |hs| ==> |Items(st, hs)[k].data| <= capacity
  }

  lemma DenseIsSequence<R>(c: EngineState.Config, st: Store<R>, out: seq<Header>, e: seq<Item<R>>, capacity: nat)
    requires Represents(c, st, out, e) && Dense(out)
    requires forall k :: 0 <= k < |e| ==> |e[k].data| <= capacity
    ensures IsSequence(st, out, capacity)
  {
    forall k | 0 <= k < |out| ensures |Items(st, out)[k].data| <= capacity {
      assert Data(Items(st, out))[k] == Data(e)[k];
    }
  }

  lemma {:induction false} AllBounded<T, R>(body: Item<T> -> seq<Item<R>>, items: seq<Item<T>>, capacity: nat)
    requires forall i, j :: 0 <= i < |items| && 0 <= j < |body(items[i])| ==> |body(items[i])[j].data| <= capacity
    ensures forall k :: 0 <= k < |FlatMap(body, items)| ==> |FlatMap(body, items)[k].data| <= capacity
  {
    if items != [] {
      AllBounded(body, items[..|items| - 1], capacity);
      FlatMapSnoc(body, items);
    }
  }

  // ---- map ---------------------------------------------------------------------------------

  // B bytes in a block, sizeT and sizeR bytes in an input and an output element.
  datatype Sizes = Sizes(block: nat, sizeT: nat, sizeR: nat)

  ghost predicate WholeElements(z: Sizes)
  {
    z.block > 0 && z.sizeT > 0 && z.sizeR > 0 && z.block % z.sizeT == 0 && z.block % z.sizeR == 0
  }

  function InCap(z: Sizes): nat
    requires z.sizeT > 0
  {
    z.block / z.sizeT
  }

  function OutCap(z: Sizes): nat
    requires z.sizeR > 0
  {
    z.block / z.sizeR
  }

  function Fanout(z: Sizes): nat
    requires z.sizeT > 0
  {
    (z.sizeR + z.sizeT - 1) / z.sizeT
  }

  function NumSub(size: nat, outCap: nat): nat
    requires outCap > 0
  {
    if size == 0 then 1 else (size + outCap - 1) / outCap
  }

  // A full input block never needs more than FANOUT output blocks, and each sub-block starts
  // within the input.
  lemma FanoutSuffices(z: Sizes, size: nat)
    requires WholeElements(z) && size <= InCap(z)
    ensures OutCap(z) > 0 && 1 <= NumSub(size, OutCap(z)) <= Fanout(z)
    ensures size <= NumSub(size, OutCap(z)) * OutCap(z)
    ensures size > 0 ==> (NumSub(size, OutCap(z)) - 1) * OutCap(z) < size
  {
    var inCap, outCap, fanout := InCap(z), OutCap(z), Fanout(z);
    DivMod(z.block, z.sizeT);
    DivMod(z.block, z.sizeR);
    CeilBounds(z.sizeR, z.sizeT);
    FanoutCovers(inCap, z.sizeT, outCap, z.sizeR, fanout);
    SubBlocksSuffice(size, inCap, outCap, fanout);
  }

  lemma SubBlocksSuffice(size: nat, inCap: nat, outCap: nat, fanout: nat)
    requires size <= inCap <= fanout * outCap && outCap > 0 && fanout > 0
    ensures 1 <= NumSub(size, outCap) <= fanout && size <= NumSub(size, outCap) * outCap
    ensures size > 0 ==> (NumSub(size, outCap) - 1) * outCap < size
  {
    if size > 0 {
      CeilBounds(size, outCap);
      CeilLeast(size, outCap, fanout);
    }
  }

  lemma CeilBounds(a: nat, b: nat)
    requires b > 0 && a > 0
    ensures a <= (a + b - 1) / b * b < a + b && (a + b - 1) / b >= 1
    ensures ((a + b - 1) / b - 1) * b < a
  {
    var q := (a + b - 1) / b;
    assert q * b == a + b - 1 - (a + b - 1) % b;
    assert (q - 1) * b == q * b - b;
  }

  lemma CeilLeast(a: nat, b: nat, q: nat)
    requires b > 0 && a > 0 && a <= q * b
    ensures (a + b - 1) / b <= q
  {
    CeilBounds(a, b);
    var c := (a + b - 1) / b;
    if c > q {
      ProductMonotone(q, c - 1, b);
    }
  }

  lemma FanoutCovers(inCap: nat, sizeT: nat, outCap: nat, sizeR: nat, fanout: nat)
    requires sizeT > 0 && inCap * sizeT == outCap * sizeR && fanout * sizeT >= sizeR
    ensures inCap <= fanout * outCap
  {
    ProductMonotone(sizeR, fanout * sizeT, outCap);
    assert (fanout * sizeT) * outCap == (fanout * outCap) * sizeT;
    assert sizeR * outCap == outCap * sizeR;
    assert (fanout * outCap + 1) * sizeT == (fanout * outCap) * sizeT + sizeT;
    if inCap > fanout * outCap {
      ProductMonotone(fanout * outCap + 1, inCap, sizeT);
    }
  }

  // The first n sub-blocks of a chunk.
  function SubBlocks<T, R>(f: T -> R, x: Item<T>, outCap: nat, fanout: nat, n: nat): (r: seq<Item<R>>)
    requires n > 0 ==> (n - 1) * outCap <= |x.data|
    ensures |r| == n
    decreases n
  {
    if n == 0 then []
    else
      assert n > 1 ==> (n - 2) * outCap == (n - 1) * outCap - outCap;
      var lo, hi := (n - 1) * outCap, Min(|x.data|, n * outCap);
      assert n * outCap == (n - 1) * outCap + outCap;
      SubBlocks(f, x, outCap, fanout, n - 1) + [Item(x.key * fanout + (n - 1), Map(f, x.data[lo..hi]))]
  }

  lemma {:induction false} SubBlocksMean<T, R>(f: T -> R, x: Item<T>, outCap: nat, fanout: nat, n: nat)
    requires n > 0 ==> (n - 1) * outCap <= |x.data|
    ensures Elements(SubBlocks(f, x, outCap, fanout, n)) == Map(f, x.data[..Min(|x.data|, n * outCap)])
    ensures forall i :: 0 <= i < n ==> SubBlocks(f, x, outCap, fanout, n)[i].key == x.key * fanout + i
    ensures forall i :: 0 <= i < n ==> |SubBlocks(f, x, outCap, fanout, n)[i].data| <= outCap
  {
    if n > 0 {
      var lo, hi := (n - 1) * outCap, Min(|x.data|, n * outCap);
      assert n * outCap == lo + outCap;
      assert n > 1 ==> (n - 2) * outCap == lo - outCap;
      SubBlocksMean(f, x, outCap, fanout, n - 1);
      ElementsSnoc(SubBlocks(f, x, outCap, fanout, n));
      assert SubBlocks(f, x, outCap, fanout, n)[..n - 1] == SubBlocks(f, x, outCap, fanout, n - 1);
      assert x.data[..hi] == x.data[..lo] + x.data[lo..hi];
      MapAppend(f, x.data[..lo], x.data[lo..hi]);
    }
  }

  // The inner loop.
  method MapRange<T, R>(f: T -> R, data: seq<T>, lo: nat, hi: nat) returns (buf: seq<R>)
    requires lo <= hi <= |data|
    ensures buf == Map(f, data[lo..hi])
  {
    buf := [];
    var j := lo;
    while j < hi
      invariant lo <= j <= hi && buf == Map(f, data[lo..j])
    {
      buf := buf + [f(data[j])];
      j := j + 1;
    }
  }

  // The body of ExternalMap: one output block for each run of up to outCap elements.
  method MapChunk<T, R>(f: T -> R, x: Item<T>, z: Sizes) returns (emitted: seq<Item<R>>)
    requires WholeElements(z) && |x.data| <= InCap(z)
    ensures emitted == MapBody(f, z, x)
  {
    var outCap := OutCap(z);
    FanoutSuffices(z, |x.data|);
    var numSub, s := NumSub(|x.data|, outCap), 0;
    emitted := [];
    while s < numSub
      invariant 0 <= s <= numSub && (s > 0 ==> (s - 1) * outCap <= |x.data|)
      invariant emitted == SubBlocks(f, x, outCap, Fanout(z), s)
    {
      ProductMonotone(s, numSub - 1, outCap);
      assert (s + 1) * outCap == s * outCap + outCap;
      var lo, hi := s * outCap, Min(|x.data|, (s + 1) * outCap);
      var buf := MapRange(f, x.data, lo, hi);
      emitted := emitted + [Item(x.key * Fanout(z) + s, buf)];
      s := s + 1;
    }
  }

  function MapBody<T, R>(f: T -> R, z: Sizes, x: Item<T>): seq<Item<R>>
    requires WholeElements(z)
  {
    if |x.data| > InCap(z) then []
    else
      FanoutSuffices(z, |x.data|);
      SubBlocks(f, x, OutCap(z), Fanout(z), NumSub(|x.data|, OutCap(z)))
  }

  // Enough sub-blocks hold the whole chunk.
  lemma SubBlocksWhole<T, R>(f: T -> R, x: Item<T>, outCap: nat, fanout: nat, n: nat)
    requires 1 <= n <= fanout && (n - 1) * outCap <= |x.data| <= n * outCap
    ensures Elements(SubBlocks(f, x, outCap, fanout, n)) == Map(f, x.data)
    ensures KeysInRange(SubBlocks(f, x, outCap, fanout, n), x.key, fanout)
    ensures forall i :: 0 <= i < n ==> |SubBlocks(f, x, outCap, fanout, n)[i].data| <= outCap
  {
    SubBlocksMean(f, x, outCap, fanout, n);
    assert x.data[..|x.data|] == x.data;
    ConsecutiveKeys(SubBlocks(f, x, outCap, fanout, n), x.key, fanout);
  }

  lemma ConsecutiveKeys<R>(items: seq<Item<R>>, k: nat, fanout: nat)
    requires |items| <= fanout && forall i :: 0 <= i < |items| ==> items[i].key == k * fanout + i
    ensures KeysInRange(items, k, fanout)
  {
    ProductStep(k, fanout);
  }

  // A chunk's blocks hold its mapped elements in order, under keys of its own range.
  lemma MapBodyMeans<T, R>(f: T -> R, z: Sizes, x: Item<T>)
    requires WholeElements(z) && |x.data| <= InCap(z)
    ensures Elements(MapBody(f, z, x)) == Map(f, x.data)
    ensures KeysInRange(MapBody(f, z, x), x.key, Fanout(z)) && 1 <= |MapBody(f, z, x)| <= Fanout(z)
    ensures forall i :: 0 <= i < |MapBody(f, z, x)| ==> |MapBody(f, z, x)[i].data| <= OutCap(z)
  {
    FanoutSuffices(z, |x.data|);
    SubBlocksWhole(f, x, OutCap(z), Fanout(z), NumSub(|x.data|, OutCap(z)));
  }

  lemma {:induction false} MapResults<T, R>(f: T -> R, z: Sizes, body: Item<T> -> seq<Item<R>>, items: seq<Item<T>>)
    requires WholeElements(z)
    requires forall i :: 0 <= i < |items| ==> |items[i].data| <= InCap(z) && body(items[i]) == MapBody(f, z, items[i])
    ensures Elements(FlatMap(body, items)) == Map(f, Elements(items))
  {
    if items != [] {
      var n := |items| - 1;
      MapResults(f, z, body, items[..n]);
      FlatMapSnoc(body, items);
      ElementsAppend(FlatMap(body, items[..n]), body(items[n]));
      MapBodyMeans(f, z, items[n]);
      ElementsSnoc(items);
      MapAppend(f, Elements(items[..n]), items[n].data);
    }
  }

  method ExternalMap<T(!new), R(!new)>(c: EngineState.Config, reader: ChunkReader.Setup, f: T -> R, z: Sizes,
                                       input: Store<T>, headers: seq<Header>)
    returns (st: Store<R>, out: seq<Header>)
    requires c.numSsds > 0 && c.blockBytes == z.block && WholeElements(z) && ChunkReader.CanRead(reader)
    requires IsSequence(input, headers, InCap(z))
    ensures Denote(st, out) == Map(f, Denote(input, headers))
    ensures IsSequence(st, out, OutCap(z)) && Dense(out) && AllApart(out, c.blockBytes)
    ensures |headers| <= |out| <= |headers| * Fanout(z)
  {
    var items := Items(input, headers);
    var body := (x: Item<T>) => MapBody(f, z, x);
    forall i | 0 <= i < |items|
      ensures KeysInRange(body(items[i]), items[i].key, Fanout(z)) && 1 <= |body(items[i])| <= Fanout(z)
      && forall j :: 0 <= j < |body(items[i])| ==> |body(items[i])[j].data| <= OutCap(z)
    {
      MapBodyMeans(f, z, items[i]);
    }
    KeysIncrease(body, items, Fanout(z));
    AllBounded(body, items, OutCap(z));
    MapResults(f, z, body, items);
    ResultsAtLeast(body, items);
    st, out := ExternalTransform(c, reader, input, headers, body, Fanout(z), true);
    DenseIsSequence(c, st, out, FlatMap(body, items), OutCap(z));
  }

  lemma {:induction false} ResultsAtLeast<T, R>(body: Item<T> -> seq<Item<R>>, items: seq<Item<T>>)
    requires forall i :: 0 <= i < |items| ==> |body(items[i])| >= 1
    ensures |items| <= |FlatMap(body, items)|
  {
    if items != [] {
      ResultsAtLeast(body, items[..|items| - 1]);
      FlatMapSnoc(body, items);
    }
  }

  // ---- filter ------------------------------------------------------------------------------

  // The body of ExternalFilter: the survivors, compacted into one block.
  method FilterChunk<T>(p: T -> bool, x: Item<T>) returns (emitted: seq<Item<T>>)
    ensures emitted == FilterBody(p, x)
  {
    var buf: seq<T>, j := [], 0;
    while j < |x.data|
      invariant 0 <= j <= |x.data| && buf == Filter(p, x.data[..j])
    {
      assert x.data[..j + 1][..j] == x.data[..j];
      if p(x.data[j]) {
        buf := buf + [x.data[j]];
      }
      j := j + 1;
    }
    assert x.data[..|x.data|] == x.data;
    emitted := [Item(x.key, buf)];
  }

  function FilterBody<T>(p: T -> bool, x: Item<T>): seq<Item<T>>
  {
    [Item(x.key, Filter(p, x.data))]
  }

  lemma {:induction false} FilterFits<T>(p: T -> bool, s: seq<T>)
    ensures |Filter(p, s)| <= |s|
  {
    if s != [] {
      FilterFits(p, s[..|s| - 1]);
    }
  }

  lemma {:induction false} FilterResults<T>(p: T -> bool, body: Item<T> -> seq<Item<T>>, items: seq<Item<T>>)
    requires forall i :: 0 <= i < |items| ==> body(items[i]) == FilterBody(p, items[i])
    ensures Elements(FlatMap(body, items)) == Filter(p, Elements(items))
    ensures |FlatMap(body, items)| == |items|
  {
    if items != [] {
      var n := |items| - 1;
      FilterResults(p, body, items[..n]);
      FlatMapSnoc(body, items);
      ElementsAppend(FlatMap(body, items[..n]), body(items[n]));
      ElementsSnoc(FilterBody(p, items[n]));
      ElementsSnoc(items);
      FilterAppend(p, Elements(items[..n]), items[n].data);
    }
  }

  // size: the bytes of an element, of which a block holds a whole number.
  method ExternalFilter<T(!new)>(c: EngineState.Config, reader: ChunkReader.Setup, p: T -> bool, size: nat,
                                 input: Store<T>, headers: seq<Header>)
    returns (st: Store<T>, out: seq<Header>)
    requires c.numSsds > 0 && c.blockBytes > 0 && ChunkReader.CanRead(reader)
    requires size > 0 && c.blockBytes % size == 0 && IsSequence(input, headers, c.blockBytes / size)
    ensures Denote(st, out) == Filter(p, Denote(input, headers))
    ensures IsSequence(st, out, c.blockBytes / size) && Dense(out) && AllApart(out, c.blockBytes)
    ensures |out| == |headers|
  {
    ghost var capacity := c.blockBytes / size;
    var items := Items(input, headers);
    var body := (x: Item<T>) => FilterBody(p, x);
    forall i | 0 <= i < |items| ensures KeysInRange(body(items[i]), items[i].key, 1)
      && forall j :: 0 <= j < |body(items[i])| ==> |body(items[i])[j].data| <= capacity
    {
      FilterFits(p, items[i].data);
    }
    KeysIncrease(body, items, 1);
    AllBounded(body, items, capacity);
    FilterResults(p, body, items);
    st, out := ExternalTransform(c, reader, input, headers, body, 1, true);
    DenseIsSequence(c, st, out, FlatMap(body, items), capacity);
  }
}
