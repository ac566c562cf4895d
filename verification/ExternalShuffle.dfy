// The whole external shuffle (Plaidlay/examples/Extern_random_shuffle.h).
module ExternalShuffle {
  import opened Sequences
  import opened ExternalSequence
  import opened BlockDisk
  import opened ShuffleGather
  import opened ShuffleLabels
  import Shares
  import ShuffleScatter
  import ChunkReader

  // One block of bucket b: a region of the file that the hash of its slot picks, and the slot.
  method WriteBlock<T(!new)>(start: Output<T>, data: seq<seq<T>>, starts: seq<nat>, c: ShuffleScatter.Config, b: nat)
    returns (o: Output<T>)
    requires Writing(c, start, data) && b < |data| && start.written[b] < BlockCount(|data[b]|, c.blockElems)
    requires |starts| == |data| && forall k :: 0 <= k < |data| ==> starts[k] == SlotStart(Counts(data, c.blockElems), k)
    ensures Writing(c, o, data)
    ensures o.written == start.written[b := start.written[b] + 1]
    ensures Total(Unwritten(data, c.blockElems, o.written)) < Total(Unwritten(data, c.blockElems, start.written))
  {
    OneWritten(data, c.blockElems, start.written, b);
    var j := start.written[b];
    var slot := starts[b] + j;
    var piece := Piece(data[b], j, c.blockElems);
    var f := c.hash(slot, 0) % c.numSsds;
    var h := Header(f, start.disk.offsets[f], |piece|, slot);
    AppendKeepsValid(start.disk, f, piece, c.blockBytes);
    WriteKeepsOutput(Content(start.disk), start.out, start.owner, data, c.blockElems, start.written, b,
                     (f, start.disk.offsets[f]), h);
    o := Output(start.out[slot := h], start.owner[(f, start.disk.offsets[f]) := slot], start.written[b := j + 1],
                Append(start.disk, f, piece, c.blockBytes));
  }

  ghost function Unwritten<T>(data: seq<seq<T>>, blockElems: nat, written: seq<nat>): (r: seq<nat>)
    requires blockElems > 0 && |written| == |data|
    ensures |r| == |data|
    ensures forall b :: 0 <= b < |data| && written[b] <= BlockCount(|data[b]|, blockElems) ==>
              r[b] == BlockCount(|data[b]|, blockElems) - written[b]
  {
    seq(|data|, b requires 0 <= b < |data| =>
      if written[b] <= BlockCount(|data[b]|, blockElems) then BlockCount(|data[b]|, blockElems) - written[b] else 0)
  }

  lemma OneWritten<T>(data: seq<seq<T>>, blockElems: nat, written: seq<nat>, b: nat)
    requires blockElems > 0 && |written| == |data| && b < |data| && written[b] < BlockCount(|data[b]|, blockElems)
    ensures Total(Unwritten(data, blockElems, written[b := written[b] + 1]))
          < Total(Unwritten(data, blockElems, written))
  {
    var u := Unwritten(data, blockElems, written);
    assert Unwritten(data, blockElems, written[b := written[b] + 1]) == u[b := u[b] - 1];
    TotalUpdate(u, b, u[b] - 1);
  }

  ghost predicate Writing<T>(c: ShuffleScatter.Config, o: Output<T>, data: seq<seq<T>>)
  {
    && c.blockElems > 0 && c.numSsds == |o.disk.offsets| > 0 && Valid(o.disk, c.blockBytes)
    && OutputInv(Content(o.disk), o.out, o.owner, data, c.blockElems, o.written)
  }

  // The buckets write their blocks in any interleaving.
  method WriteBuckets<T(==, !new)>(c: ShuffleScatter.Config, data: seq<seq<T>>) returns (st: Store<T>, out: seq<Header>)
    requires ShuffleScatter.IsConfig(c)
    ensures Dense(out) && AllLocated(st, out) && Denote(st, out) == Concat(data)
    ensures Contiguous(st, out, data, c.blockElems)
    ensures AllApart(out, c.blockBytes)
  {
    var starts, total := Layout(data, c.blockElems);
    var o := Output(seq(total, _ => Header(0, 0, 0, 0)), map[], seq(|data|, _ => 0), Empty(c.numSsds));
    o := WriteAll(c, o, data, starts);
    out := o.out;
    OutputMeans(Content(o.disk), out, o.owner, data, c.blockElems);
    OutputApart(o.disk, c.blockBytes, out, o.owner, data, c.blockElems);
    var d := Wait(o.disk);
    st := d.store;
  }

  method WriteAll<T(==, !new)>(c: ShuffleScatter.Config, start: Output<T>, data: seq<seq<T>>, starts: seq<nat>)
    returns (o: Output<T>)
    requires Writing(c, start, data)
    requires |starts| == |data| && forall k :: 0 <= k < |data| ==> starts[k] == SlotStart(Counts(data, c.blockElems), k)
    ensures AllWritten(Content(o.disk), o.out, o.owner, data, c.blockElems) && Valid(o.disk, c.blockBytes)
  {
    o := start;
    while exists b :: 0 <= b < |data| && o.written[b] < BlockCount(|data[b]|, c.blockElems)
      invariant Writing(c, o, data)
      decreases Total(Unwritten(data, c.blockElems, o.written))
    {
      var d := CompleteSome(o.disk);
      o := WriteAny(c, o.(disk := d), data, starts);
    }
    Finished(Content(o.disk), o.out, o.owner, data, c.blockElems, o.written);
  }

  method WriteAny<T(!new)>(c: ShuffleScatter.Config, start: Output<T>, data: seq<seq<T>>, starts: seq<nat>)
    returns (o: Output<T>)
    requires Writing(c, start, data)
    requires |starts| == |data| && forall k :: 0 <= k < |data| ==> starts[k] == SlotStart(Counts(data, c.blockElems), k)
    requires exists b :: 0 <= b < |data| && start.written[b] < BlockCount(|data[b]|, c.blockElems)
    ensures Writing(c, o, data)
    ensures Total(Unwritten(data, c.blockElems, o.written)) < Total(Unwritten(data, c.blockElems, start.written))
  {
    var b :| 0 <= b < |data| && start.written[b] < BlockCount(|data[b]|, c.blockElems);
    o := WriteBlock(start, data, starts, c, b);
  }

  ghost predicate AllWritten<T>(st: Store<T>, out: seq<Header>, owner: map<(nat, nat), nat>, data: seq<seq<T>>,
                                blockElems: nat)
  {
    && blockElems > 0 && |out| == SlotStart(Counts(data, blockElems), |data|)
    && forall b {:trigger data[b]} :: 0 <= b < |data| ==>
        BucketInv(st, out, owner, data, blockElems, b, Counts(data, blockElems)[b])
  }

  lemma Finished<T>(st: Store<T>, out: seq<Header>, owner: map<(nat, nat), nat>, data: seq<seq<T>>, blockElems: nat,
                    written: seq<nat>)
    requires blockElems > 0 && OutputInv(st, out, owner, data, blockElems, written)
    requires forall b :: 0 <= b < |data| ==> written[b] >= BlockCount(|data[b]|, blockElems)
    ensures AllWritten(st, out, owner, data, blockElems)
  {
    forall b | 0 <= b < |data| ensures BucketInv(st, out, owner, data, blockElems, b, Counts(data, blockElems)[b]) {
      assert BucketInv(st, out, owner, data, blockElems, b, written[b]);
    }
  }

  // The picks of bucket b.
  function Picks(rnd: (nat, nat) -> nat, b: nat): nat -> nat
  {
    (i: nat) => rnd(b, i)
  }

  lemma PicksOfBucket(rnd: (nat, nat) -> nat, b: nat, i: nat)
    ensures Picks(rnd, b)(i) == rnd(b, i)
  {
  }

  // Bucket b after the rounds with its own picks.
  ghost predicate IsShuffled<T>(gathered: seq<T>, rnd: (nat, nat) -> nat, b: nat, data: seq<T>)
  {
    data == FisherYates.Rounds(gathered, Picks(rnd, b), |gathered|)
  }

  // Every bucket is what was gathered of it, shuffled with its own picks.
  ghost predicate AllShuffled<T>(gathered: seq<seq<T>>, rnd: (nat, nat) -> nat, buckets: seq<seq<T>>)
  {
    && |buckets| == |gathered|
    && forall b {:trigger IsShuffled(gathered[b], rnd, b, buckets[b])} :: 0 <= b < |buckets| ==>
         IsShuffled(gathered[b], rnd, b, buckets[b])
  }

  lemma OneMoreShuffled<T>(gathered: seq<seq<T>>, rnd: (nat, nat) -> nat, buckets: seq<seq<T>>, next: seq<T>,
                           shuffled: seq<T>)
    requires AllShuffled(gathered, rnd, buckets) && IsShuffled(next, rnd, |buckets|, shuffled)
    ensures AllShuffled(gathered + [next], rnd, buckets + [shuffled])
  {
    var g, s := gathered + [next], buckets + [shuffled];
    forall b | 0 <= b < |s| ensures IsShuffled(g[b], rnd, b, s[b]) {
      ShuffledAt(gathered, rnd, buckets, next, shuffled, b);
    }
  }

  lemma ShuffledAt<T>(gathered: seq<seq<T>>, rnd: (nat, nat) -> nat, buckets: seq<seq<T>>, next: seq<T>,
                      shuffled: seq<T>, b: nat)
    requires AllShuffled(gathered, rnd, buckets) && IsShuffled(next, rnd, |buckets|, shuffled) && b <= |buckets|
    ensures IsShuffled((gathered + [next])[b], rnd, b, (buckets + [shuffled])[b])
  {
    if b < |buckets| {
      assert IsShuffled(gathered[b], rnd, b, buckets[b]);
      assert (gathered + [next])[b] == gathered[b] && (buckets + [shuffled])[b] == buckets[b];
    }
  }

  // Every bucket is read back and shuffled with picks of its own.
  method ShuffleBuckets<T(!new)>(st: Store<T>, groups: seq<seq<Header>>, rnd: (nat, nat) -> nat)
    returns (data: seq<seq<T>>, ghost gathered: seq<seq<T>>)
    requires forall b :: 0 <= b < |groups| ==> AllLocated(st, groups[b])
    ensures |gathered| == |groups| && forall b :: 0 <= b < |groups| ==> gathered[b] == Elements(Items(st, groups[b]))
    ensures AllShuffled(gathered, rnd, data)
  {
    data, gathered := [], [];
    for b := 0 to |groups|
      invariant |gathered| == b && forall k :: 0 <= k < b ==> gathered[k] == Elements(Items(st, groups[k]))
      invariant AllShuffled(gathered, rnd, data) && |data| == b
    {
      data, gathered := ShuffleNext(st, groups[b], rnd, data, gathered);
    }
  }

  method ShuffleNext<T(!new)>(st: Store<T>, group: seq<Header>, rnd: (nat, nat) -> nat, done: seq<seq<T>>,
                              ghost before: seq<seq<T>>)
    returns (data: seq<seq<T>>, ghost gathered: seq<seq<T>>)
    requires AllLocated(st, group) && AllShuffled(before, rnd, done)
    ensures gathered == before + [Elements(Items(st, group))] && AllShuffled(gathered, rnd, data)
  {
    var shuffled := ShuffleBucket(st, group, Picks(rnd, |done|));
    OneMoreShuffled(before, rnd, done, Elements(Items(st, group)), shuffled);
    data, gathered := done + [shuffled], before + [Elements(Items(st, group))];
  }

  lemma ShuffledSame<T>(gathered: seq<seq<T>>, rnd: (nat, nat) -> nat, buckets: seq<seq<T>>)
    requires AllShuffled(gathered, rnd, buckets)
    ensures multiset(Concat(buckets)) == multiset(Concat(gathered))
  {
    forall b | 0 <= b < |buckets| ensures multiset(buckets[b]) == multiset(gathered[b]) {
      assert IsShuffled(gathered[b], rnd, b, buckets[b]);
    }
    SameMultisets(buckets, gathered);
  }

  lemma {:induction false} SameMultisets<T>(a: seq<seq<T>>, b: seq<seq<T>>)
    requires |a| == |b| && forall k :: 0 <= k < |a| ==> multiset(a[k]) == multiset(b[k])
    ensures multiset(Concat(a)) == multiset(Concat(b))
  {
    if a != [] {
      SameMultisets(a[..|a| - 1], b[..|b| - 1]);
    }
  }

  // The blocks of bucket b occupy the slots from its start to the next one's, which are the
  // exclusive prefix sums of the block counts.
  ghost predicate OccupiesRange<T>(st: Store<T>, out: seq<Header>, data: seq<seq<T>>, blockElems: nat, b: nat)
    requires b < |data| && blockElems > 0
  {
    var lo, hi := SlotStart(Counts(data, blockElems), b), SlotStart(Counts(data, blockElems), b + 1);
    lo <= hi <= |out| && Elements(Items(st, out[lo..hi])) == data[b]
  }

  ghost predicate Contiguous<T>(st: Store<T>, out: seq<Header>, data: seq<seq<T>>, blockElems: nat)
  {
    blockElems > 0 && forall b {:trigger data[b]} :: 0 <= b < |data| ==> OccupiesRange(st, out, data, blockElems, b)
  }

  lemma OutputMeans<T>(st: Store<T>, out: seq<Header>, owner: map<(nat, nat), nat>, data: seq<seq<T>>, blockElems: nat)
    requires AllWritten(st, out, owner, data, blockElems)
    ensures Dense(out) && AllLocated(st, out) && Denote(st, out) == Concat(data)
    ensures Contiguous(st, out, data, blockElems)
  {
    OutputDense(st, out, owner, data, blockElems);
    OutputDenotes(st, out, owner, data, blockElems, |data|);
    assert data[..|data|] == data && out[..|out|] == out;
    forall b | 0 <= b < |data| ensures OccupiesRange(st, out, data, blockElems, b) {
      BucketDenotes(st, out, owner, data, blockElems, b);
    }
  }

  // For every order in which the readers deliver the chunks and every interleaving of the
  // workers, bucket b receives exactly the elements whose labels draw it, and buckets[b] is what
  // was gathered of the bucket, after the rounds of the in-place shuffle with the picks
  // rnd(b, _). The output is the buckets one after the other, its slots are all filled with dense
  // indices and regions of their own. An index out of range is refused; the input is taken for
  // empty when the number of elements computed from its headers is zero, and unless that is
  // wrong the output is a permutation of it.
  method ExternalShuffle<T(==, !new)>(c: ShuffleScatter.Config, reader: ChunkReader.Setup, input: Store<T>,
                                      headers: seq<Header>, numWorkers: nat, rnd: (nat, nat) -> nat)
    returns (ok: bool, st: Store<T>, out: seq<Header>, buckets: seq<seq<T>>,
             ghost gathered: seq<seq<T>>, ghost assign: (T, nat) -> nat)
    requires ShuffleScatter.IsConfig(c) && numWorkers > 0 && ChunkReader.CanRead(reader)
    ensures ok <==> InRange(headers, |headers|)
    ensures ok ==> Dense(out) && AllLocated(st, out) && AllApart(out, c.blockBytes)
    ensures ok ==> Denote(st, out) == Concat(buckets) && Contiguous(st, out, buckets, c.blockElems)
    ensures ok ==> |buckets| == if Label(headers, |headers|) == 0 then 0 else c.numBuckets
    ensures ok ==> AllShuffled(gathered, rnd, buckets)
    ensures forall x, k :: assign(x, k) == c.draw(k) % c.numBuckets
    ensures ok ==> Shares.HoldShares(gathered, assign, Labelled(input, headers))
    ensures ok ==> (multiset(Denote(st, out)) == multiset(Denote(input, headers)) <==>
                    Label(headers, |headers|) > 0 || Denote(input, headers) == [])
  {
    st, out, buckets, gathered := map[], [], [], [];
    assign := ShuffleScatter.ToBucket(c);
    assert Items<T>(map[], []) == [];
    var before, total;
    ok, before, total := ComputeLabels(headers);
    if ok && total > 0 {
      var items := ChunkReader.ReadChunks(reader, input, headers);
      var arrivals := Arrivals(before, items);
      var mid, produced := ShuffleScatter.RunScatter(c, arrivals, numWorkers);
      st, out, buckets, gathered := GatherPhase(c, mid, produced, rnd);
      GatheredShares(c, mid, produced, arrivals, input, headers, before, items, gathered);
    }
  }

  // What is gathered of the buckets is the input, every element in the bucket that its label
  // draws.
  lemma GatheredShares<T(!new)>(c: ShuffleScatter.Config, mid: Store<T>, produced: seq<Header>,
                                arrivals: seq<Shares.Chunk<T>>, input: Store<T>, headers: seq<Header>,
                                before: seq<nat>, items: seq<Item<T>>, gathered: seq<seq<T>>)
    requires ShuffleScatter.IsConfig(c) && InRange(headers, |headers|)
    requires |before| == |headers| && forall i :: 0 <= i < |headers| ==> before[i] == Label(headers, i)
    requires multiset(items) == multiset(Items(input, headers)) && arrivals == Arrivals(before, items)
    requires forall b: nat :: b < c.numBuckets ==> ShuffleScatter.HoldsShare(c, mid, produced, arrivals, b)
    requires gathered == Contents(mid, produced, c.numBuckets)
    ensures Shares.HoldShares(gathered, ShuffleScatter.ToBucket(c), Labelled(input, headers))
    ensures multiset(Concat(gathered)) == multiset(Denote(input, headers))
  {
    var labelled := Labelled(input, headers);
    ArrivalsLabelled(input, headers, before, items);
    forall b: nat | b < |gathered|
      ensures multiset(gathered[b]) == Shares.Share(labelled, ShuffleScatter.ToBucket(c), b)
    {
      assert ShuffleScatter.HoldsShare(c, mid, produced, arrivals, b);
      Shares.SameShares(arrivals, labelled, ShuffleScatter.ToBucket(c), b);
    }
    Shares.BucketsTotal(gathered, ShuffleScatter.ToBucket(c), labelled);
    LabelledElements(input, headers);
  }

  // With distinct indices and every block in place the output is always a permutation.
  lemma DistinctPermutes<T>(input: Store<T>, headers: seq<Header>)
    requires InRange(headers, |headers|) && Distinct(headers) && AllLocated(input, headers)
    ensures Label(headers, |headers|) > 0 || Denote(input, headers) == []
  {
    ElemsTotal(input, headers, |headers|);
    assert Elems(headers, |headers|)[..|headers|] == Elems(headers, |headers|);
  }

  // When an empty chunk repeats the index of another one, the input can be lost.
  lemma RepeatedIndexLosesInput<T>(x: T)
    ensures var input: Store<T> := map[(0, 0) := [x]];
            var headers := [Header(0, 0, 1, 0), Header(0, 0, 0, 0)];
            && InRange(headers, |headers|) && AllLocated(input, headers)
            && Label(headers, |headers|) == 0 && Denote(input, headers) == [x]
  {
    var input: Store<T> := map[(0, 0) := [x]];
    var a, b := Header(0, 0, 1, 0), Header(0, 0, 0, 0);
    assert Block(input, a) == [x] && Block(input, b) == [];
    var data := Data(Items(input, [a, b]));
    assert data[0] == [x] && data[1] == [];
    assert data == [[x]] + [[]];
    ConcatSnoc([[x]], []);
    assert [[x]] == [] + [[x]];
    ConcatSnoc([], [x]);
    var hs := [a, b];
    assert hs[..1] == [a] && [a][..0] == [];
    NoElems(2);
    var none := seq(2, _ => 0);
    assert Elems([], 2) == none && Elems([a], 2) == none[0 := 1] && Elems(hs, 2) == none == none[..2];
  }

  method GatherPhase<T(==, !new)>(c: ShuffleScatter.Config, mid: Store<T>, produced: seq<Header>,
                                  rnd: (nat, nat) -> nat)
    returns (st: Store<T>, out: seq<Header>, buckets: seq<seq<T>>, ghost gathered: seq<seq<T>>)
    requires ShuffleScatter.IsConfig(c)
    requires forall k :: 0 <= k < |produced| ==> ShuffleScatter.BucketBlock(c, mid, produced[k])
    ensures multiset(Denote(st, out)) == multiset(Concat(gathered))
    ensures Dense(out) && AllLocated(st, out) && AllApart(out, c.blockBytes)
    ensures Denote(st, out) == Concat(buckets) && Contiguous(st, out, buckets, c.blockElems)
    ensures |buckets| == c.numBuckets
    ensures AllShuffled(gathered, rnd, buckets) && gathered == Contents(mid, produced, c.numBuckets)
  {
    assert AllLocated(mid, produced) by {
      forall k | 0 <= k < |produced| ensures Located(mid, produced[k]) {
        assert ShuffleScatter.BucketBlock(c, mid, produced[k]);
      }
    }
    var groups := GroupByBucket(produced, c.numBuckets);
    forall b | 0 <= b < |groups| ensures AllLocated(mid, groups[b]) {
      TaggedLocated(mid, produced, b);
    }
    buckets, gathered := ShuffleBuckets(mid, groups, rnd);
    assert gathered == Contents(mid, produced, c.numBuckets);
    ShuffledSame(gathered, rnd, buckets);
    st, out := WriteBuckets(c, buckets);
  }
}
