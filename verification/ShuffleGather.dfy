// The second pass of the external shuffle: blocks are grouped by bucket, every bucket is
// shuffled in memory and written to a range of output slots of its own
// (Plaidlay/examples/Extern_random_shuffle.h).
module ShuffleGather {
  import opened Arithmetic
  import opened Sequences
  import opened ExternalSequence
  import opened BlockDisk
  import FisherYates

  // ---- grouping ----------------------------------------------------------------------------

  // Those are the headers that carry the tag, each as often as it occurs.
  lemma {:induction false} TaggedExactly(hs: seq<Header>, b: nat, h: Header)
    ensures multiset(Tagged(hs, b))[h] == if h.index == b then multiset(hs)[h] else 0
  {
    if hs != [] {
      var n := |hs| - 1;
      TaggedExactly(hs[..n], b, h);
      assert hs == hs[..n] + [hs[n]];
    }
  }

  ghost predicate CarriesTag(group: seq<Header>, hs: seq<Header>, b: nat)
  {
    forall h :: multiset(group)[h] == if h.index == b then multiset(hs)[h] else 0
  }

  lemma TaggedCarries(hs: seq<Header>, b: nat)
    ensures CarriesTag(Tagged(hs, b), hs, b)
  {
    forall h ensures multiset(Tagged(hs, b))[h] == if h.index == b then multiset(hs)[h] else 0 {
      TaggedExactly(hs, b, h);
    }
  }

  method GroupByBucket(hs: seq<Header>, numBuckets: nat) returns (groups: seq<seq<Header>>)
    requires forall k :: 0 <= k < |hs| ==> hs[k].index < numBuckets
    ensures |groups| == numBuckets && forall b :: 0 <= b < numBuckets ==> groups[b] == Tagged(hs, b)
    ensures forall b :: 0 <= b < numBuckets ==> CarriesTag(groups[b], hs, b)
  {
    groups := seq(numBuckets, _ => []);
    for k := 0 to |hs|
      invariant |groups| == numBuckets && forall b :: 0 <= b < numBuckets ==> groups[b] == Tagged(hs[..k], b)
    {
      assert hs[..k + 1][..k] == hs[..k];
      groups := groups[hs[k].index := groups[hs[k].index] + [hs[k]]];
    }
    assert hs[..|hs|] == hs;
    forall b | 0 <= b < numBuckets ensures CarriesTag(groups[b], hs, b) {
      TaggedCarries(hs, b);
    }
  }

  // The elements of every bucket, in the order of its blocks.
  ghost function Contents<T>(st: Store<T>, hs: seq<Header>, numBuckets: nat): (r: seq<seq<T>>)
    ensures |r| == numBuckets && forall b :: 0 <= b < numBuckets ==> r[b] == Elements(Items(st, Tagged(hs, b)))
  {
    seq(numBuckets, b requires 0 <= b < numBuckets => Elements(Items(st, Tagged(hs, b))))
  }

  // Every block belongs to exactly one bucket.
  lemma {:induction false} GroupingConserves<T(!new)>(st: Store<T>, hs: seq<Header>, numBuckets: nat)
    requires forall k :: 0 <= k < |hs| ==> hs[k].index < numBuckets
    ensures multiset(Concat(Contents(st, hs, numBuckets))) == multiset(Elements(Items(st, hs)))
  {
    if hs == [] {
      NoBlocks<T>(st, numBuckets);
    } else {
      GroupingConserves(st, hs[..|hs| - 1], numBuckets);
      LastElements(st, hs);
      OneMoreBlock(st, hs, numBuckets);
    }
  }

  lemma NoBlocks<T>(st: Store<T>, numBuckets: nat)
    ensures Concat(Contents(st, [], numBuckets)) == [] && Elements(Items(st, [])) == []
  {
    assert Items(st, []) == [];
    ConcatEmpty(Contents(st, [], numBuckets));
  }

  lemma LastElements<T>(st: Store<T>, hs: seq<Header>)
    requires hs != []
    ensures multiset(Elements(Items(st, hs)))
         == multiset(Elements(Items(st, hs[..|hs| - 1]))) + multiset(Block(st, hs[|hs| - 1]))
  {
    var n := |hs| - 1;
    assert hs == hs[..n] + [hs[n]];
    ElementsOfSnoc(st, hs[..n], hs[n]);
  }

  lemma OneMoreBlock<T(!new)>(st: Store<T>, hs: seq<Header>, numBuckets: nat)
    requires hs != [] && hs[|hs| - 1].index < numBuckets
    ensures multiset(Concat(Contents(st, hs, numBuckets)))
         == multiset(Concat(Contents(st, hs[..|hs| - 1], numBuckets))) + multiset(Block(st, hs[|hs| - 1]))
  {
    var n := |hs| - 1;
    var h := hs[n];
    var a, a' := Contents(st, hs[..n], numBuckets), Contents(st, hs, numBuckets);
    ElementsOfSnoc(st, Tagged(hs[..n], h.index), h);
    forall b | 0 <= b < numBuckets ensures a'[b] == a[h.index := a[h.index] + Block(st, h)][b] {
      assert b != h.index ==> Tagged(hs, b) == Tagged(hs[..n], b);
    }
    assert a' == a[h.index := a[h.index] + Block(st, h)];
    ConcatUpdate(a, h.index, a[h.index] + Block(st, h));
    TakeOne(multiset(Concat(a')), multiset(Concat(a)), multiset(a'[h.index]), multiset(a[h.index]),
            multiset(Block(st, h)));
  }

  // The blocks of one bucket, read back to back into one buffer.
  method GatherBucket<T>(st: Store<T>, chunks: seq<Header>) returns (gathered: seq<T>)
    requires AllLocated(st, chunks)
    ensures gathered == Elements(Items(st, chunks))
  {
    gathered := [];
    assert Items(st, chunks[..0]) == [];
    for k := 0 to |chunks|
      invariant gathered == Elements(Items(st, chunks[..k]))
    {
      var h := chunks[k];
      assert Located(st, h);
      gathered := gathered + st[(h.file, h.base)][..h.used];
      ElementsOfSnoc(st, chunks[..k], h);
      assert chunks[..k + 1] == chunks[..k] + [h];
    }
    assert chunks[..|chunks|] == chunks;
  }

  method ShuffleBucket<T>(st: Store<T>, chunks: seq<Header>, rnd: nat -> nat) returns (data: seq<T>)
    requires AllLocated(st, chunks)
    ensures data == FisherYates.Rounds(Elements(Items(st, chunks)), rnd, |Elements(Items(st, chunks))|)
  {
    var gathered := GatherBucket(st, chunks);
    var a := new T[|gathered|](i requires 0 <= i < |gathered| => gathered[i]);
    assert a[..] == gathered;
    FisherYates.Shuffle(a, rnd);
    data := a[..];
  }

  // ---- layout ------------------------------------------------------------------------------

  function BlockCount(n: nat, blockElems: nat): nat
    requires blockElems > 0
  {
    (n + blockElems - 1) / blockElems
  }

  // The j-th output block of a bucket.
  function Piece<T>(data: seq<T>, j: nat, blockElems: nat): seq<T>
    requires blockElems > 0
  {
    var lo, hi := j * blockElems, Min(|data|, (j + 1) * blockElems);
    if lo <= hi then data[lo..hi] else []
  }

  lemma BlockCountBounds(n: nat, d: nat, j: nat)
    requires d > 0
    ensures j < BlockCount(n, d) <==> j * d < n
  {
    var q := BlockCount(n, d);
    QuotientBounds(n + d - 1, d);
    ProductMonotone(j + 1, q, d);
    ProductMonotone(q, j, d);
    ProductStep(j, d);
  }

  ghost function Counts<T>(data: seq<seq<T>>, blockElems: nat): (r: seq<nat>)
    requires blockElems > 0
    ensures |r| == |data| && forall b :: 0 <= b < |data| ==> r[b] == BlockCount(|data[b]|, blockElems)
  {
    seq(|data|, b requires 0 <= b < |data| => BlockCount(|data[b]|, blockElems))
  }

  // The first output slot of bucket b: the exclusive prefix sum of the block counts.
  ghost function SlotStart(counts: seq<nat>, b: nat): nat
    requires b <= |counts|
  {
    Total(counts[..b])
  }

  lemma SlotStartStep(counts: seq<nat>, b: nat)
    requires b < |counts|
    ensures SlotStart(counts, b + 1) == SlotStart(counts, b) + counts[b]
  {
    assert counts[..b + 1][..b] == counts[..b];
  }

  lemma {:induction false} SlotStartMonotone(counts: seq<nat>, a: nat, b: nat)
    requires a <= b <= |counts|
    ensures SlotStart(counts, a) <= SlotStart(counts, b)
    decreases b - a
  {
    if a < b {
      SlotStartMonotone(counts, a, b - 1);
      SlotStartStep(counts, b - 1);
    }
  }

  // The slots of different buckets are different, and all are below the total.
  lemma SlotsDisjoint(counts: seq<nat>, a: nat, i: nat, b: nat, j: nat)
    requires a < |counts| && b < |counts| && i < counts[a] && j < counts[b]
    ensures SlotStart(counts, a) + i == SlotStart(counts, b) + j <==> a == b && i == j
    ensures SlotStart(counts, a) + i < SlotStart(counts, |counts|)
  {
    SlotStartStep(counts, a);
    SlotStartStep(counts, b);
    SlotStartMonotone(counts, a + 1, |counts|);
    if a < b {
      SlotStartMonotone(counts, a + 1, b);
    } else if b < a {
      SlotStartMonotone(counts, b + 1, a);
    }
  }

  method Layout<T>(data: seq<seq<T>>, blockElems: nat) returns (start: seq<nat>, total: nat)
    requires blockElems > 0
    ensures |start| == |data| && forall b :: 0 <= b < |data| ==> start[b] == SlotStart(Counts(data, blockElems), b)
    ensures total == SlotStart(Counts(data, blockElems), |data|)
  {
    start, total := [], 0;
    for b := 0 to |data|
      invariant |start| == b && forall k :: 0 <= k < b ==> start[k] == SlotStart(Counts(data, blockElems), k)
      invariant total == SlotStart(Counts(data, blockElems), b)
    {
      SlotStartStep(Counts(data, blockElems), b);
      start := start + [total];
      total := total + BlockCount(|data[b]|, blockElems);
    }
  }

  // ---- writing the buckets -----------------------------------------------------------------

  // written counts the blocks each bucket has written; out has one slot for every block, and
  // owner says which slot a region was drawn for.
  datatype Output<T> = Output(out: seq<Header>, owner: map<(nat, nat), nat>, written: seq<nat>, disk: Disk<T>)

  // The slot holds the given block, in a region of its own.
  ghost predicate Slot<T>(st: Store<T>, out: seq<Header>, owner: map<(nat, nat), nat>, slot: nat, piece: seq<T>)
  {
    && slot < |out| && Located(st, out[slot]) && out[slot].index == slot && Block(st, out[slot]) == piece
    && (out[slot].file, out[slot].base) in owner && owner[(out[slot].file, out[slot].base)] == slot
  }

  ghost predicate BucketInv<T>(st: Store<T>, out: seq<Header>, owner: map<(nat, nat), nat>, data: seq<seq<T>>,
                               blockElems: nat, b: nat, written: nat)
    requires blockElems > 0 && b < |data|
  {
    && written <= Counts(data, blockElems)[b]
    && forall j {:trigger Piece(data[b], j, blockElems)} :: 0 <= j < written ==>
         Slot(st, out, owner, SlotStart(Counts(data, blockElems), b) + j, Piece(data[b], j, blockElems))
  }

  ghost predicate OutputInv<T>(st: Store<T>, out: seq<Header>, owner: map<(nat, nat), nat>, data: seq<seq<T>>,
                               blockElems: nat, written: seq<nat>)
    requires blockElems > 0
  {
    && |written| == |data| && |out| == SlotStart(Counts(data, blockElems), |data|)
    && forall b {:trigger BucketInv(st, out, owner, data, blockElems, b, written[b])} :: 0 <= b < |data| ==>
         BucketInv(st, out, owner, data, blockElems, b, written[b])
  }

  // Bucket b writes its next block to an unused region and fills its next slot.
  lemma WriteKeepsOutput<T(!new)>(st: Store<T>, out: seq<Header>, owner: map<(nat, nat), nat>, data: seq<seq<T>>,
                                  blockElems: nat, written: seq<nat>, b: nat, a: (nat, nat), h: Header)
    requires blockElems > 0 && OutputInv(st, out, owner, data, blockElems, written) && a !in st
    requires b < |data| && written[b] < Counts(data, blockElems)[b]
    requires h == Header(a.0, a.1, |Piece(data[b], written[b], blockElems)|,
                         SlotStart(Counts(data, blockElems), b) + written[b])
    ensures h.index < |out|
    ensures OutputInv(st[a := Piece(data[b], written[b], blockElems)], out[h.index := h], owner[a := h.index], data,
                      blockElems, written[b := written[b] + 1])
  {
    var counts := Counts(data, blockElems);
    var piece := Piece(data[b], written[b], blockElems);
    SlotsDisjoint(counts, b, written[b], b, written[b]);
    var st', out', owner', written' := st[a := piece], out[h.index := h], owner[a := h.index],
        written[b := written[b] + 1];
    SlotWritten(st, out, owner, a, h, piece);
    forall k | 0 <= k < |data| ensures BucketInv(st', out', owner', data, blockElems, k, written'[k]) {
      assert BucketInv(st, out, owner, data, blockElems, k, written[k]);
      BucketKept(st, out, owner, data, blockElems, b, written[b], a, h, piece, k, written[k]);
    }
  }

  // What bucket k has written so far is in other slots than a piece with number w of bucket b.
  lemma BucketKept<T(!new)>(st: Store<T>, out: seq<Header>, owner: map<(nat, nat), nat>, data: seq<seq<T>>,
                            blockElems: nat, b: nat, w: nat, a: (nat, nat), h: Header, piece: seq<T>, k: nat,
                            written: nat)
    requires blockElems > 0 && a !in st && b < |data| && w < Counts(data, blockElems)[b]
    requires k < |data| && BucketInv(st, out, owner, data, blockElems, k, written) && (k == b ==> written <= w)
    requires h.index == SlotStart(Counts(data, blockElems), b) + w < |out|
    ensures BucketInv(st[a := piece], out[h.index := h], owner[a := h.index], data, blockElems, k, written)
  {
    var counts := Counts(data, blockElems);
    var st', out', owner' := st[a := piece], out[h.index := h], owner[a := h.index];
    forall j | 0 <= j < written
      ensures Slot(st', out', owner', SlotStart(counts, k) + j, Piece(data[k], j, blockElems))
    {
      SlotsDisjoint(counts, k, j, b, w);
      SlotKept(st, out, owner, a, h, piece, SlotStart(counts, k) + j, Piece(data[k], j, blockElems));
    }
  }

  lemma SlotWritten<T>(st: Store<T>, out: seq<Header>, owner: map<(nat, nat), nat>, a: (nat, nat), h: Header,
                       piece: seq<T>)
    requires h.index < |out| && (h.file, h.base) == a && h.used == |piece|
    ensures Slot(st[a := piece], out[h.index := h], owner[a := h.index], h.index, piece)
  {
    assert piece[..|piece|] == piece;
  }

  // What another slot holds is in another region.
  lemma SlotKept<T>(st: Store<T>, out: seq<Header>, owner: map<(nat, nat), nat>, a: (nat, nat), h: Header,
                    piece: seq<T>, slot: nat, other: seq<T>)
    requires Slot(st, out, owner, slot, other) && a !in st && h.index < |out| && slot != h.index
    ensures Slot(st[a := piece], out[h.index := h], owner[a := h.index], slot, other)
  {
  }

  // ---- what the output denotes -------------------------------------------------------------

  // The first m blocks of a bucket are the beginning of its data.
  lemma {:induction false} PiecesJoin<T>(items: seq<Item<T>>, data: seq<T>, blockElems: nat, m: nat)
    requires blockElems > 0 && m <= BlockCount(|data|, blockElems) && |items| == m
    requires forall j :: 0 <= j < m ==> items[j].data == Piece(data, j, blockElems)
    ensures Elements(items) == data[..Min(|data|, m * blockElems)]
  {
    if m > 0 {
      PiecesJoin(items[..m - 1], data, blockElems, m - 1);
      assert Data(items)[..m - 1] == Data(items[..m - 1]);
      ProductStep(m - 1, blockElems);
      BlockCountBounds(|data|, blockElems, m - 1);
      assert data[..Min(|data|, m * blockElems)] == data[..(m - 1) * blockElems] + Piece(data, m - 1, blockElems);
    }
  }

  // The slots of a bucket, from slot lo on, hold its pieces in order.
  lemma SlotsHold<T>(st: Store<T>, out: seq<Header>, owner: map<(nat, nat), nat>, lo: nat, data: seq<T>,
                     blockElems: nat, m: nat)
    requires blockElems > 0 && lo + m <= |out|
    requires forall j {:trigger Piece(data, j, blockElems)} :: 0 <= j < m ==>
               Slot(st, out, owner, lo + j, Piece(data, j, blockElems))
    ensures forall j :: 0 <= j < m ==> Items(st, out[lo..lo + m])[j].data == Piece(data, j, blockElems)
  {
    forall j | 0 <= j < m ensures Items(st, out[lo..lo + m])[j].data == Piece(data, j, blockElems) {
      assert Slot(st, out, owner, lo + j, Piece(data, j, blockElems));
      assert out[lo..lo + m][j] == out[lo + j];
    }
  }

  lemma BucketDenotes<T>(st: Store<T>, out: seq<Header>, owner: map<(nat, nat), nat>, data: seq<seq<T>>,
                         blockElems: nat, b: nat)
    requires blockElems > 0 && b < |data| && |out| == SlotStart(Counts(data, blockElems), |data|)
    requires BucketInv(st, out, owner, data, blockElems, b, Counts(data, blockElems)[b])
    ensures SlotStart(Counts(data, blockElems), b) <= SlotStart(Counts(data, blockElems), b + 1) <= |out|
    ensures var counts := Counts(data, blockElems);
            Elements(Items(st, out[SlotStart(counts, b)..SlotStart(counts, b + 1)])) == data[b]
  {
    var counts := Counts(data, blockElems);
    var lo, m := SlotStart(counts, b), counts[b];
    SlotStartStep(counts, b);
    SlotStartMonotone(counts, b + 1, |data|);
    SlotsHold(st, out, owner, lo, data[b], blockElems, m);
    PiecesJoin(Items(st, out[lo..lo + m]), data[b], blockElems, m);
    BlockCountBounds(|data[b]|, blockElems, m);
    assert data[b][..|data[b]|] == data[b];
  }

  lemma {:induction false} OutputDenotes<T>(st: Store<T>, out: seq<Header>, owner: map<(nat, nat), nat>,
                                            data: seq<seq<T>>, blockElems: nat, n: nat)
    requires blockElems > 0 && n <= |data| && |out| == SlotStart(Counts(data, blockElems), |data|)
    requires forall b :: 0 <= b < |data| ==> BucketInv(st, out, owner, data, blockElems, b, Counts(data, blockElems)[b])
    ensures SlotStart(Counts(data, blockElems), n) <= |out|
    ensures Elements(Items(st, out[..SlotStart(Counts(data, blockElems), n)])) == Concat(data[..n])
  {
    var counts := Counts(data, blockElems);
    SlotStartMonotone(counts, n, |data|);
    if n == 0 {
      assert Items(st, out[..0]) == [];
    } else {
      OutputDenotes(st, out, owner, data, blockElems, n - 1);
      BucketDenotes(st, out, owner, data, blockElems, n - 1);
      assert data[..n] == data[..n - 1] + [data[n - 1]];
      RangesJoin(st, out, SlotStart(counts, n - 1), SlotStart(counts, n), data[..n - 1], data[n - 1]);
    }
  }

  lemma RangesJoin<T>(st: Store<T>, out: seq<Header>, lo: nat, hi: nat, before: seq<seq<T>>, last: seq<T>)
    requires lo <= hi <= |out| && Elements(Items(st, out[..lo])) == Concat(before)
    requires Elements(Items(st, out[lo..hi])) == last
    ensures Elements(Items(st, out[..hi])) == Concat(before + [last])
  {
    assert out[..hi] == out[..lo] + out[lo..hi];
    ItemsAppend(st, out[..lo], out[lo..hi]);
    ElementsAppend(Items(st, out[..lo]), Items(st, out[lo..hi]));
    ConcatSnoc(before, last);
  }

  // Every slot belongs to a bucket.
  lemma SlotOwner(counts: seq<nat>, n: nat, slot: nat) returns (b: nat)
    requires n <= |counts| && slot < SlotStart(counts, n)
    ensures b < n && SlotStart(counts, b) <= slot < SlotStart(counts, b) + counts[b]
  {
    SlotStartStep(counts, n - 1);
    if SlotStart(counts, n - 1) <= slot {
      b := n - 1;
    } else {
      b := SlotOwner(counts, n - 1, slot);
    }
  }

  lemma OutputDense<T>(st: Store<T>, out: seq<Header>, owner: map<(nat, nat), nat>, data: seq<seq<T>>, blockElems: nat)
    requires blockElems > 0 && |out| == SlotStart(Counts(data, blockElems), |data|)
    requires forall b :: 0 <= b < |data| ==> BucketInv(st, out, owner, data, blockElems, b, Counts(data, blockElems)[b])
    ensures Dense(out) && AllLocated(st, out)
  {
    forall slot | 0 <= slot < |out| ensures out[slot].index == slot && Located(st, out[slot]) {
      SlotFilled(st, out, owner, data, blockElems, slot);
    }
  }

  // No two output blocks share any part of a region.
  lemma OutputApart<T>(d: Disk<T>, blockBytes: nat, out: seq<Header>, owner: map<(nat, nat), nat>, data: seq<seq<T>>,
                       blockElems: nat)
    requires blockElems > 0 && |out| == SlotStart(Counts(data, blockElems), |data|) && Valid(d, blockBytes)
    requires forall b :: 0 <= b < |data| ==>
               BucketInv(Content(d), out, owner, data, blockElems, b, Counts(data, blockElems)[b])
    ensures AllApart(out, blockBytes)
  {
    forall slot | 0 <= slot < |out|
      ensures (out[slot].file, out[slot].base) in Content(d)
           && (out[slot].file, out[slot].base) in owner && owner[(out[slot].file, out[slot].base)] == slot
    {
      SlotFilled(Content(d), out, owner, data, blockElems, slot);
    }
    DifferentRegionsApart(out, Content(d).Keys, blockBytes);
  }

  lemma SlotFilled<T>(st: Store<T>, out: seq<Header>, owner: map<(nat, nat), nat>, data: seq<seq<T>>, blockElems: nat,
                      slot: nat)
    requires blockElems > 0 && |out| == SlotStart(Counts(data, blockElems), |data|) && slot < |out|
    requires forall b :: 0 <= b < |data| ==> BucketInv(st, out, owner, data, blockElems, b, Counts(data, blockElems)[b])
    ensures exists piece :: Slot(st, out, owner, slot, piece)
  {
    var counts := Counts(data, blockElems);
    var b := SlotOwner(counts, |data|, slot);
    assert BucketInv(st, out, owner, data, blockElems, b, counts[b]);
    var j := slot - SlotStart(counts, b);
    assert Slot(st, out, owner, SlotStart(counts, b) + j, Piece(data[b], j, blockElems));
  }
}
