// Drawing the pivots, and the sort from there on (scatter_gather_algorithms/sample_sort.h,
// GetPivots and Sort).
module Sampling {
  import opened Arithmetic
  import opened Sequences
  import opened Disk
  import opened Ordering
  import opened Routing
  import RF = ReaderFiles
  import RS = ReaderState
  import PipelineState
  import RandomRead
  import opened SampleSort
  import opened SortFiles

  // The bytes of the input files.
  function Contents<T>(layout: Layout<T>, inputs: seq<seq<T>>): (r: seq<seq<Byte>>)
    ensures |r| == |inputs| && forall i :: 0 <= i < |r| ==> r[i] == Encode(layout, inputs[i])
  {
    seq(|inputs|, i requires 0 <= i < |inputs| => Encode(layout, inputs[i]))
  }

  lemma {:induction false} ContentsJoin<T>(layout: Layout<T>, inputs: seq<seq<T>>)
    ensures Concat(Contents(layout, inputs)) == Encode(layout, Concat(inputs))
  {
    if inputs != [] {
      var n := |inputs| - 1;
      ContentsJoin(layout, inputs[..n]);
      assert Contents(layout, inputs)[..n] == Contents(layout, inputs[..n]);
      EncodeAppend(layout, Concat(inputs[..n]), inputs[n]);
    }
  }

  // Element r of the files, as the random reads return it.
  lemma EncodedElement<T(!new)>(layout: Layout<T>, s: seq<T>, r: nat)
    requires IsLayout(layout)
    ensures r * layout.size + layout.size <= |Encode(layout, s)| <==> r < |s|
    ensures r < |s| ==> Encode(layout, s)[r * layout.size..r * layout.size + layout.size] == layout.enc(s[r])
  {
    EncodeSize(layout, s);
    ProductStep(r, layout.size);
    ProductMonotone(r + 1, |s|, layout.size);
    ProductMonotone(|s|, r, layout.size);
    if r < |s| {
      EncodeSize(layout, s[..r]);
      EncodedAround(layout, s, r);
    }
  }

  lemma EncodedAround<T>(layout: Layout<T>, s: seq<T>, r: nat)
    requires r < |s|
    ensures Encode(layout, s) == Encode(layout, s[..r]) + (layout.enc(s[r]) + Encode(layout, s[r + 1..]))
  {
    var a, b := s[..r], s[r + 1..];
    assert s == a + ([s[r]] + b);
    EncodeAppend(layout, a, [s[r]] + b);
    EncodeAppend(layout, [s[r]], b);
    EncodeOne(layout, s[r]);
  }

  lemma EncodeOne<T>(layout: Layout<T>, x: T)
    ensures Encode(layout, [x]) == layout.enc(x)
  {
    assert [x][..0] == [];
  }

  function DecodeAll<T>(layout: Layout<T>, bytes: seq<seq<Byte>>): (r: seq<T>)
    ensures |r| == |bytes| && forall k :: 0 <= k < |r| ==> r[k] == layout.dec(bytes[k])
  {
    seq(|bytes|, k requires 0 <= k < |bytes| => layout.dec(bytes[k]))
  }

  // A sample size, as GetPivots computes it for k pivots with floor(sqrt(k)) == root.
  function SampleCount(n: nat, k: nat, root: nat): nat
  {
    Min(n, k * root)
  }

  // The elements at the drawn positions.
  ghost function Drawn<T>(all: seq<T>, positions: seq<nat>): (r: seq<T>)
    requires forall j :: 0 <= j < |positions| ==> positions[j] < |all|
    ensures |r| == |positions| && forall j :: 0 <= j < |r| ==> r[j] == all[positions[j]]
  {
    seq(|positions|, j requires 0 <= j < |positions| => all[positions[j]])
  }

  // The samples at arbitrary positions: random reads, and the sort by the default order.
  method DrawSamples<T(!new)>(layout: Layout<T>, inputs: seq<seq<T>>, align: nat, positions: seq<nat>,
                              ghost less: (T, T) -> bool, sort: seq<T> -> seq<T>,
                              numThreads: nat, numBuffers: nat, entries: nat)
    returns (samples: seq<T>)
    requires IsLayout(layout) && RandomRead.AlignedFiles(Contents(layout, inputs), align) && align % layout.size == 0
    requires 0 < entries <= numBuffers && numThreads > 0
    requires forall k :: 0 <= k < |positions| ==> positions[k] < |Concat(inputs)|
    requires SortsBy(sort, less)
    ensures Sorted(samples, less) && multiset(samples) == multiset(Drawn(Concat(inputs), positions))
  {
    var files := Contents(layout, inputs);
    ghost var all := Concat(inputs);
    ContentsJoin(layout, inputs);
    forall k | 0 <= k < |positions| ensures positions[k] * layout.size + layout.size <= |Concat(files)| {
      EncodedElement(layout, all, positions[k]);
    }
    var ok, read := RandomRead.RandomBatchRead(files, layout.size, align, positions, numThreads, numBuffers, entries);
    SamplesAreDrawn(layout, all, files, positions, read);
    samples := sort(DecodeAll(layout, read));
  }

  // What is read at positions within the input decodes to the elements at these positions.
  lemma SamplesAreDrawn<T(!new)>(layout: Layout<T>, all: seq<T>, files: seq<seq<Byte>>, positions: seq<nat>,
                                 read: seq<seq<Byte>>)
    requires IsLayout(layout) && Concat(files) == Encode(layout, all)
    requires forall k :: 0 <= k < |positions| ==> positions[k] < |all|
    requires multiset(read) == multiset(RandomRead.Expected(files, layout.size, positions))
    ensures multiset(DecodeAll(layout, read)) == multiset(Drawn(all, positions))
  {
    var expected := RandomRead.Expected(files, layout.size, positions);
    var decode := (b: seq<Byte>) => [layout.dec(b)];
    FlatMapAnyOrder(decode, read, expected);
    DecodedOneByOne(layout, read, decode);
    DecodedOneByOne(layout, expected, decode);
    ExpectedDrawn(layout, all, files, positions);
  }

  lemma ExpectedDrawn<T(!new)>(layout: Layout<T>, all: seq<T>, files: seq<seq<Byte>>, positions: seq<nat>)
    requires IsLayout(layout) && Concat(files) == Encode(layout, all)
    requires forall k :: 0 <= k < |positions| ==> positions[k] < |all|
    ensures DecodeAll(layout, RandomRead.Expected(files, layout.size, positions)) == Drawn(all, positions)
  {
    var decoded := DecodeAll(layout, RandomRead.Expected(files, layout.size, positions));
    forall j | 0 <= j < |positions| ensures decoded[j] == all[positions[j]] {
      EncodedElement(layout, all, positions[j]);
    }
    assert decoded == Drawn(all, positions);
  }

  lemma {:induction false} DecodedOneByOne<T(!new)>(layout: Layout<T>, bytes: seq<seq<Byte>>,
                                                    decode: seq<Byte> -> seq<T>)
    requires forall b :: decode(b) == [layout.dec(b)]
    ensures FlatMap(decode, bytes) == DecodeAll(layout, bytes)
  {
    if bytes == [] {
      assert MapParts(decode, bytes) == [];
    } else {
      DecodedOneByOne(layout, bytes[..|bytes| - 1], decode);
      FlatMapSnoc(decode, bytes);
    }
  }

  // The pivots are taken at evenly spaced positions of the sorted samples, which are the
  // elements at count drawn positions of the input.
  ghost predicate TakenFrom<T>(all: seq<T>, count: nat, less: (T, T) -> bool, drawn: seq<nat>, samples: seq<T>,
                               taken: seq<nat>, pivots: seq<T>)
  {
    && |drawn| == count && (forall j :: 0 <= j < |drawn| ==> drawn[j] < |all|)
    && Sorted(samples, less) && multiset(samples) == multiset(Drawn(all, drawn))
    && |taken| == |pivots| && (forall j :: 0 <= j < |pivots| ==> At(samples, taken[j], pivots[j]))
    && Increasing(taken) && EvenlySpaced(taken, |samples|)
  }

  ghost predicate EvenlyChosen<T(!new)>(all: seq<T>, count: nat, less: (T, T) -> bool, pivots: seq<T>)
  {
    exists drawn, samples, taken :: TakenFrom(all, count, less, drawn, samples, taken, pivots)
  }

  // Such pivots in another order.
  ghost predicate ReordersChosen<T(!new)>(all: seq<T>, count: nat, less: (T, T) -> bool, pivots: seq<T>)
  {
    exists chosen :: multiset(pivots) == multiset(chosen) && EvenlyChosen(all, count, less, chosen)
  }

  // GetPivots: for every choice of positions the walk stays within the samples exactly if at
  // least four pivots are wanted from at least twice as many elements, and the pivots are then
  // spread evenly over the sorted samples.
  method GetPivots<T(!new)>(layout: Layout<T>, inputs: seq<seq<T>>, align: nat, k: nat, root: nat,
                            ghost less: (T, T) -> bool, sort: seq<T> -> seq<T>,
                            numThreads: nat, numBuffers: nat, entries: nat)
    returns (pivots: Option<seq<T>>)
    requires IsLayout(layout) && RandomRead.AlignedFiles(Contents(layout, inputs), align) && align % layout.size == 0
    requires 0 < entries <= numBuffers && numThreads > 0
    requires k > 0 && FloorSqrt(root, k) && k < SIZE_BOUND && k * root < SIZE_BOUND
    requires SortsBy(sort, less)
    ensures pivots.Some? <==> k >= 4 && |Concat(inputs)| >= 2 * k
    ensures pivots.Some? ==> |pivots.value| == k && Sorted(pivots.value, less)
    ensures pivots.Some? ==>
              EvenlyChosen(Concat(inputs), if |Concat(inputs)| <= k * root then |Concat(inputs)| else k * root, less,
                           pivots.value)
  {
    var n := |Concat(inputs)|;
    var m := SampleCount(n, k, root);
    OversampleSuffices(n, k, root);
    PositionsExist(m, n);
    var drawn: seq<nat> :| |drawn| == m && forall j :: 0 <= j < m ==> drawn[j] < n;
    var samples := DrawSamples(layout, inputs, align, drawn, less, sort, numThreads, numBuffers, entries);
    SameLength(samples, Drawn(Concat(inputs), drawn));
    ghost var taken;
    var inRange, result;
    inRange, result, taken := PivotWalk(samples, k);
    if !inRange {
      return None;
    }
    SubsequenceSorted(samples, taken, result, less);
    assert TakenFrom(Concat(inputs), m, less, drawn, samples, taken, result);
    pivots := Some(result);
  }

  lemma PositionsExist(m: nat, n: nat)
    requires n == 0 ==> m == 0
    ensures exists positions: seq<nat> :: |positions| == m && forall j :: 0 <= j < m ==> positions[j] < n
  {
    var zeros := seq(m, _ => 0);
    assert |zeros| == m && forall j :: 0 <= j < m ==> zeros[j] < n;
  }

  lemma SameLength<X>(a: seq<X>, b: seq<X>)
    requires multiset(a) == multiset(b)
    ensures |a| == |b|
  {
    assert |multiset(a)| == |multiset(b)|;
  }

  // Sort, from the input files on. It draws k pivots, which must be at least four from at least
  // twice as many elements; the pivot walk leaves the samples otherwise. The result files are
  // those of the sort with these pivots.
  method SortSampled<T(==, !new)>(layout: Layout<T>, lt: (T, T) -> bool, sort: seq<T> -> seq<T>,
                                  ghost less: (T, T) -> bool, defaultSort: seq<T> -> seq<T>,
                                  k: nat, root: nat, rand: nat -> nat,
                                  bucketSize: nat, align: nat, vectorSize: nat, threshold: nat,
                                  infos: seq<RF.FileInfo>, inputs: seq<seq<T>>, chunk: nat, reader: RS.Config,
                                  readThreads: nat,
                                  numThreads: nat, numWorkers: nat, numBuffers: nat, entries: nat)
    returns (ok: bool, files: seq<File>, results: seq<PipelineState.Info>, sorted: seq<T>,
             ghost pivots: seq<T>, ghost parts: seq<seq<T>>, ghost assign: (T, nat) -> nat)
    requires IsLayout(layout) && StrictWeak(lt) && SortsBy(sort, lt) && SortsBy(defaultSort, less)
    requires k > 0 && FloorSqrt(root, k) && k < SIZE_BOUND && k * root < SIZE_BOUND
    requires layout.size <= bucketSize && 0 < align < MARKER_CAPACITY - 1 && vectorSize > 0
    requires RandomRead.AlignedFiles(Contents(layout, inputs), align) && align % layout.size == 0
    requires AreFiles(infos, inputs, layout.size) && chunk > 0 && reader.readSize == chunk * layout.size
    requires reader.readSize > 0
    requires reader.maxRequests > 0 && readThreads > 0 && numThreads > 0 && numWorkers > 0 && 0 < entries <= numBuffers
    ensures ok <==> k >= 4 && |Concat(inputs)| >= 2 * k
    ensures ok ==> Sorted(sorted, lt) && multiset(sorted) == multiset(Concat(inputs))
    ensures ok ==> sorted == Concat(parts) && StoreParts(layout, files, results, parts)
    ensures ok ==> |pivots| == k && Sorted(pivots, lt) &&
                   ReordersChosen(Concat(inputs), SampleCount(|Concat(inputs)|, k, root), less, pivots)
    ensures ok ==> Routes(pivots, lt, rand, assign)
    ensures ok ==> IsDistributed(pivots, lt, assign, WholeFiles(inputs, layout.size), parts)
  {
    var chosen := GetPivots(layout, inputs, align, k, root, less, defaultSort, numThreads, numBuffers, entries);
    if chosen.None? {
      return false, [], [], [], [], [], (t, i) => 0;
    }
    ok := true;
    var sortedPivots := sort(chosen.value);
    SameLength(sortedPivots, chosen.value);
    pivots := sortedPivots;
    assert ReordersChosen(Concat(inputs), SampleCount(|Concat(inputs)|, k, root), less, pivots);
    files, results, sorted, parts, assign := SortInputs(layout, lt, sort, sortedPivots, rand, bucketSize, align,
                                                        vectorSize, threshold, infos, inputs, chunk, reader,
                                                        readThreads, numThreads, numWorkers);
  }
}
