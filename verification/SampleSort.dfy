// External sample sort from input chunks to result files (scatter_gather_algorithms/sample_sort.h,
// Sort; scatter_gather_algorithms/scatter_gather.h, Run).
module SampleSort {
  import opened Sequences
  import opened Disk
  import opened Ordering
  import opened Routing
  import opened OrderedFileWriter
  import WriterState
  import Shares
  import ScatterState
  import PipelineState
  import opened ScatterGather
  import opened Pipeline

  // The processor of the gather phase: sorts the whole elements within the first n bytes of
  // the buffer and leaves the rest, with the marker, as it is.
  function SortPrefix<T>(layout: Layout<T>, sort: seq<T> -> seq<T>, b: seq<Byte>, n: nat): seq<Byte>
  {
    if layout.size == 0 then b else
    var k := n / layout.size * layout.size;
    if k > |b| then b else Encode(layout, sort(Decode(layout, b[..k]))) + b[k..]
  }

  lemma SortPrefixSize<T(!new)>(layout: Layout<T>, sort: seq<T> -> seq<T>, lt: (T, T) -> bool, b: seq<Byte>, n: nat)
    requires IsLayout(layout) && SortsBy(sort, lt)
    ensures |SortPrefix(layout, sort, b, n)| == |b|
  {
    var k := n / layout.size * layout.size;
    if k <= |b| {
      DecodeSize(layout, b[..k], n / layout.size);
      var s := Decode(layout, b[..k]);
      assert |multiset(sort(s))| == |multiset(s)|;
      EncodeSize(layout, sort(s));
    }
  }

  lemma SortPrefixOf<T(!new)>(layout: Layout<T>, sort: seq<T> -> seq<T>, lt: (T, T) -> bool, s: seq<T>, rest: seq<Byte>)
    requires IsLayout(layout) && SortsBy(sort, lt)
    ensures SortPrefix(layout, sort, Encode(layout, s) + rest, |Encode(layout, s)|) == Encode(layout, sort(s)) + rest
  {
    EncodeSize(layout, s);
    MulMod(|s|, layout.size);
    DecodeEncode(layout, s, []);
    var b := Encode(layout, s) + rest;
    assert b[..|Encode(layout, s)|] == Encode(layout, s) == Encode(layout, s) + [];
    assert b[|Encode(layout, s)|..] == rest;
  }

  // Sorted buckets in which no element precedes one of an earlier bucket are sorted as a whole.
  lemma {:induction false} ConcatSorted<T(!new)>(parts: seq<seq<T>>, lt: (T, T) -> bool)
    requires forall b :: 0 <= b < |parts| ==> Sorted(parts[b], lt)
    requires forall a, b :: 0 <= a < b < |parts| ==> Precedes(parts[a], parts[b], lt)
    ensures Sorted(Concat(parts), lt)
  {
    if parts != [] {
      var n := |parts| - 1;
      ConcatSorted(parts[..n], lt);
      forall i, j | 0 <= i < |Concat(parts[..n])| && 0 <= j < |parts[n]|
        ensures !lt(parts[n][j], Concat(parts[..n])[i])
      {
        var a := InSomePart(parts[..n], i);
        assert Precedes(parts[a], parts[n], lt);
        var k :| 0 <= k < |parts[a]| && parts[a][k] == Concat(parts[..n])[i];
        assert !lt(parts[n][j], parts[a][k]);
      }
      SortedAppend(Concat(parts[..n]), parts[n], lt);
    }
  }

  lemma {:induction false} InSomePart<T>(parts: seq<seq<T>>, i: nat) returns (a: nat)
    requires i < |Concat(parts)|
    ensures a < |parts| && Concat(parts)[i] in parts[a]
  {
    var n := |parts| - 1;
    if i < |Concat(parts[..n])| {
      a := InSomePart(parts[..n], i);
    } else {
      a := n;
    }
  }

  // What is in bucket b belongs between the pivots around it.
  ghost predicate AllInBucket<T>(pivots: seq<T>, lt: (T, T) -> bool, part: seq<T>, b: nat)
  {
    forall i :: 0 <= i < |part| ==> InBucket(pivots, lt, part[i], b)
  }

  // The routing puts no element into an earlier bucket than an element it precedes.
  lemma BucketsInOrder<T(!new)>(pivots: seq<T>, lt: (T, T) -> bool, parts: seq<seq<T>>)
    requires StrictWeak(lt) && Sorted(pivots, lt)
    requires forall b :: 0 <= b < |parts| ==> AllInBucket(pivots, lt, parts[b], b)
    ensures forall a, b :: 0 <= a < b < |parts| ==> Precedes(parts[a], parts[b], lt)
  {
    forall a, b, i, j | 0 <= a < b < |parts| && 0 <= i < |parts[a]| && 0 <= j < |parts[b]|
      ensures !lt(parts[b][j], parts[a][i])
    {
      assert AllInBucket(pivots, lt, parts[a], a) && AllInBucket(pivots, lt, parts[b], b);
      BucketOrder(pivots, lt, parts[a][i], parts[b][j], a, b);
    }
  }

  method ReadResult<T(!new)>(layout: Layout<T>, files: seq<File>, infos: seq<PipelineState.Info>,
                             ghost parts: seq<seq<T>>)
    returns (r: seq<T>)
    requires IsLayout(layout) && |files| == |infos| == |parts|
    requires forall b :: 0 <= b < |parts| ==> StoresPart(layout, files[b], infos[b].fileSize, parts[b])
    ensures r == Concat(parts)
  {
    r := [];
    for b := 0 to |files|
      invariant r == Concat(parts[..b])
    {
      var part := ReadPart(layout, files[b], infos[b].fileSize, parts[b]);
      assert parts[..b + 1] == parts[..b] + [part];
      ConcatSnoc(parts[..b], part);
      r := r + part;
    }
    assert parts[..|files|] == parts;
  }

  // From the end of the scatter phase to the input of the gather phase.
  method CollectBuckets<T(!new)>(scatter: Scatter<T>) returns (contents: seq<seq<Byte>>, infos: seq<PipelineState.Info>,
                                                               ghost parts: seq<seq<T>>)
    requires scatter.Valid() && scatter.arrivals == [] && ScatterState.AllDone(scatter.threads, scatter.NumBuckets())
    requires forall b :: 0 <= b < scatter.NumBuckets() ==> b in scatter.closed
    requires scatter.writer.inHand == {} && scatter.writer.pendingRequests == [] && scatter.writer.ring == {}
    ensures |contents| == |infos| == |parts| == scatter.NumBuckets()
    ensures forall b :: 0 <= b < |parts| ==> IsContents(scatter.layout, contents[b], infos[b], parts[b])
    ensures Shares.HoldShares(parts, scatter.assign, scatter.input)
  {
    contents, infos, parts := [], [], [];
    for b := 0 to scatter.NumBuckets()
      invariant |contents| == |infos| == |parts| == b
      invariant forall c :: 0 <= c < b ==> IsContents(scatter.layout, contents[c], infos[c], parts[c])
      invariant forall c :: 0 <= c < b ==>
                  c < |scatter.inPlace| == |scatter.setAside| && parts[c] == scatter.inPlace[c] + scatter.setAside[c]
    {
      var content, info, part := CollectBucket(scatter, b);
      contents, infos, parts := contents + [content], infos + [info], parts + [part];
    }
    PartsAreShares(scatter, parts);
  }

  lemma PartsAreShares<T(!new)>(scatter: Scatter<T>, parts: seq<seq<T>>)
    requires scatter.Valid() && scatter.arrivals == [] && ScatterState.AllDone(scatter.threads, scatter.NumBuckets())
    requires |parts| == scatter.NumBuckets() == |scatter.inPlace| == |scatter.setAside|
    requires forall b :: 0 <= b < |parts| ==> parts[b] == scatter.inPlace[b] + scatter.setAside[b]
    ensures Shares.HoldShares(parts, scatter.assign, scatter.input)
  {
    ScatterState.AllWithWriter(scatter.View(), scatter.assign, scatter.NumBuckets(), scatter.capacity, scatter.input);
  }

  // What the routing puts into a bucket belongs between the pivots around it.
  lemma SharesInBucket<T(!new)>(pivots: seq<T>, lt: (T, T) -> bool, rand: nat -> nat, assign: (T, nat) -> nat,
                                input: seq<Shares.Chunk<T>>, part: seq<T>, b: nat)
    requires StrictWeak(lt) && Sorted(pivots, lt) && Routes(pivots, lt, rand, assign)
    requires multiset(part) == Shares.Share(input, assign, b)
    ensures AllInBucket(pivots, lt, part, b)
  {
    forall i | 0 <= i < |part| ensures InBucket(pivots, lt, part[i], b) {
      assert part[i] in multiset(part);
      var c, j := Shares.FromShare(input, assign, b, part[i]);
      RoutedWithin(pivots, lt, part[i], rand(input[c].indexStart + j), b);
    }
  }

  // The bytes of a bucket file: its elements, padding and the marker.
  ghost predicate IsContents<T>(layout: Layout<T>, content: seq<Byte>, info: PipelineState.Info, part: seq<T>)
  {
    && |content| == info.fileSize >= METADATA_SIZE
    && info.trueSize == |Encode(layout, part)| == TrueSize(content) && info.trueSize + METADATA_SIZE <= info.fileSize
    && content[..info.trueSize] == Encode(layout, part)
  }

  method CollectBucket<T(!new)>(scatter: Scatter<T>, b: nat)
    returns (content: seq<Byte>, info: PipelineState.Info, ghost part: seq<T>)
    requires scatter.Valid() && b < scatter.NumBuckets() && b in scatter.closed
    requires scatter.writer.inHand == {} && scatter.writer.pendingRequests == [] && scatter.writer.ring == {}
    ensures b < |scatter.inPlace| == |scatter.setAside| && part == scatter.inPlace[b] + scatter.setAside[b]
    ensures IsContents(scatter.layout, content, info, part)
  {
    var writer := scatter.writer;
    writer.Delivered(b);
    EncodeAppend(scatter.layout, scatter.inPlace[b], scatter.setAside[b]);
    var r := writer.results[b];
    content := ReadAll(writer.files[b], r.fileSize);
    assert content == writer.stream[b];
    info := PipelineState.Info(r.fileSize, r.trueSize);
    part := scatter.inPlace[b] + scatter.setAside[b];
  }

  // Phase 1 of Run, from the chunks as they arrive to the bucket files.
  method ScatterPhase<T(!new)>(layout: Layout<T>, assign: (T, nat) -> nat, capacity: nat, cfg: WriterState.Config,
                               arrivals: seq<Shares.Chunk<T>>, numThreads: nat)
    returns (contents: seq<seq<Byte>>, infos: seq<PipelineState.Info>, ghost parts: seq<seq<T>>)
    requires IsLayout(layout) && capacity > 0 && WriterState.IsConfig(cfg) && numThreads > 0
    requires forall t, k :: assign(t, k) < cfg.numBuckets
    ensures |contents| == |infos| == |parts| == cfg.numBuckets
    ensures forall b :: 0 <= b < |parts| ==> IsContents(layout, contents[b], infos[b], parts[b])
    ensures Shares.HoldShares(parts, assign, arrivals)
  {
    var writer := new OrderedFileWriter(cfg);
    var scatter := new Scatter(layout, assign, capacity, writer, arrivals, numThreads);
    scatter.RunToCompletion();
    contents, infos, parts := CollectBuckets(scatter);
  }

  // Phase 2 of Run with the sorting processor.
  method GatherPhase<T(!new)>(layout: Layout<T>, sort: seq<T> -> seq<T>, ghost lt: (T, T) -> bool,
                              contents: seq<seq<Byte>>, infos: seq<PipelineState.Info>, ghost parts: seq<seq<T>>,
                              numWorkers: nat)
    returns (files: seq<File>, results: seq<PipelineState.Info>)
    requires IsLayout(layout) && SortsBy(sort, lt) && numWorkers > 0 && |contents| == |infos| == |parts|
    requires forall b :: 0 <= b < |parts| ==> IsContents(layout, contents[b], infos[b], parts[b])
    ensures StoreParts(layout, files, results, SortEach(sort, parts))
  {
    var process := (b: seq<Byte>, n: nat) => SortPrefix(layout, sort, b, n);
    forall b: seq<Byte>, n: nat ensures |process(b, n)| == |b| {
      SortPrefixSize(layout, sort, lt, b, n);
    }
    var gather := new Gather(contents, infos, process, numWorkers);
    ghost var run, choices := gather.RunToCompletion();
    files, results := gather.outputs, Reported(gather.results);
    forall b | 0 <= b < |parts| ensures StoresSized(layout, files[b], results[b], sort(parts[b])) {
      ProcessedPart(layout, sort, lt, files[b], contents[b], infos[b], parts[b]);
    }
  }

  function Reported(results: seq<Option<PipelineState.Info>>): (r: seq<PipelineState.Info>)
    requires forall b :: 0 <= b < |results| ==> results[b].Some?
    ensures |r| == |results| && forall b :: 0 <= b < |r| ==> results[b] == Some(r[b])
  {
    seq(|results|, b requires 0 <= b < |results| => results[b].value)
  }

  // A result file stores a bucket, and its sizes are reported as they are.
  ghost predicate StoresSized<T>(layout: Layout<T>, f: File, info: PipelineState.Info, part: seq<T>)
  {
    StoresPart(layout, f, info.fileSize, part) && info.trueSize == |Encode(layout, part)|
  }

  ghost predicate StoreParts<T>(layout: Layout<T>, files: seq<File>, infos: seq<PipelineState.Info>,
                                parts: seq<seq<T>>)
  {
    && |files| == |infos| == |parts|
    && forall b {:trigger files[b]} {:trigger parts[b]} :: 0 <= b < |parts| ==>
         StoresSized(layout, files[b], infos[b], parts[b])
  }

  lemma ProcessedPart<T(!new)>(layout: Layout<T>, sort: seq<T> -> seq<T>, lt: (T, T) -> bool,
                               f: File, content: seq<Byte>, info: PipelineState.Info, part: seq<T>)
    requires IsLayout(layout) && SortsBy(sort, lt) && IsContents(layout, content, info, part)
    requires HasContents(f, SortPrefix(layout, sort, content, info.trueSize))
    ensures StoresSized(layout, f, info, sort(part))
  {
    var rest := content[info.trueSize..];
    assert content == Encode(layout, part) + rest;
    SortPrefixOf(layout, sort, lt, part, rest);
    SortPrefixSize(layout, sort, lt, content, info.trueSize);
    SameEncodedSize(layout, part, sort(part));
    SameMarker(content, Encode(layout, part), Encode(layout, sort(part)), rest);
    assert IsMarkedFile(layout, f, info.fileSize, sort(part), rest);
  }

  lemma SameEncodedSize<T(!new)>(layout: Layout<T>, a: seq<T>, b: seq<T>)
    requires IsLayout(layout) && multiset(a) == multiset(b)
    ensures |Encode(layout, a)| == |Encode(layout, b)|
  {
    EncodeSize(layout, a);
    EncodeSize(layout, b);
    assert |multiset(a)| == |multiset(b)|;
  }

  // The marker is in what follows the payload.
  lemma SameMarker(content: seq<Byte>, a: seq<Byte>, b: seq<Byte>, rest: seq<Byte>)
    requires content == a + rest && |a| == |b| && |rest| >= METADATA_SIZE
    ensures TrueSize(b + rest) == TrueSize(content)
  {
  }

  // Each bucket sorted.
  ghost function SortEach<T(!new)>(sort: seq<T> -> seq<T>, buckets: seq<seq<T>>): (parts: seq<seq<T>>)
    ensures |parts| == |buckets| && forall b :: 0 <= b < |parts| ==> parts[b] == sort(buckets[b])
  {
    seq(|buckets|, b requires 0 <= b < |buckets| => sort(buckets[b]))
  }

  // Sorting the buckets leaves every element in its bucket, and puts the whole in order.
  lemma SortedBuckets<T(!new)>(pivots: seq<T>, lt: (T, T) -> bool, rand: nat -> nat, assign: (T, nat) -> nat,
                               sort: seq<T> -> seq<T>, input: seq<Shares.Chunk<T>>, buckets: seq<seq<T>>)
    requires StrictWeak(lt) && Sorted(pivots, lt) && SortsBy(sort, lt) && Routes(pivots, lt, rand, assign)
    requires |buckets| == |pivots| + 1 && Shares.HoldShares(buckets, assign, input)
    ensures IsDistributed(pivots, lt, assign, input, SortEach(sort, buckets))
    ensures Sorted(Concat(SortEach(sort, buckets)), lt)
  {
    var parts := SortEach(sort, buckets);
    forall b | 0 <= b < |parts|
      ensures multiset(parts[b]) == Shares.Share(input, assign, b) && AllInBucket(pivots, lt, parts[b], b)
    {
      assert multiset(sort(buckets[b])) == multiset(buckets[b]);
      SharesInBucket(pivots, lt, rand, assign, input, parts[b], b);
    }
    BucketsInOrder(pivots, lt, parts);
    ConcatSorted(parts, lt);
  }

  // One bucket around every pivot and between them, with exactly the elements assigned to it,
  // all of which belong between the pivots around it.
  ghost predicate IsDistributed<T>(pivots: seq<T>, lt: (T, T) -> bool, assign: (T, nat) -> nat,
                                   input: seq<Shares.Chunk<T>>, parts: seq<seq<T>>)
  {
    && |parts| == |pivots| + 1 && Shares.HoldShares(parts, assign, input)
    && forall b :: 0 <= b < |parts| ==> AllInBucket(pivots, lt, parts[b], b)
  }

  // Sort, once the pivots have been chosen: for every order in which the input chunks arrive,
  // every choice of buckets for duplicated pivots and every interleaving of producers, I/O
  // threads and gather workers, the elements read back from the result files in bucket order
  // are the input, sorted, and every result file has the elements routed to its bucket.
  method Sort<T(==, !new)>(layout: Layout<T>, lt: (T, T) -> bool, sort: seq<T> -> seq<T>, pivots: seq<T>,
                           rand: nat -> nat, bucketSize: nat, align: nat, vectorSize: nat, threshold: nat,
                           arrivals: seq<Shares.Chunk<T>>, numThreads: nat, numWorkers: nat)
    returns (files: seq<File>, results: seq<PipelineState.Info>, sorted: seq<T>,
             ghost parts: seq<seq<T>>, ghost assign: (T, nat) -> nat)
    requires IsLayout(layout) && StrictWeak(lt) && SortsBy(sort, lt)
    requires |pivots| > 0 && Sorted(pivots, lt)
    requires layout.size <= bucketSize && 0 < align < MARKER_CAPACITY - 1 && vectorSize > 0
    requires numThreads > 0 && numWorkers > 0
    ensures Sorted(sorted, lt) && multiset(sorted) == Shares.AllElements(arrivals)
    ensures sorted == Concat(parts) && StoreParts(layout, files, results, parts)
    ensures Routes(pivots, lt, rand, assign) && IsDistributed(pivots, lt, assign, arrivals, parts)
  {
    var assigner := new DeduplicatingAssigner(pivots, lt);
    var route := assigner.GetAssigner(rand);
    assign := route;
    forall t: T, k: nat ensures route(t, k) < |pivots| + 1 {
      RoutedWithin(pivots, lt, t, rand(k), route(t, k));
    }
    FullBuffer(bucketSize, layout.size);
    var cfg := WriterState.Config(|pivots| + 1, align, vectorSize, threshold);
    var contents, infos;
    ghost var buckets;
    contents, infos, buckets := ScatterPhase(layout, route, bucketSize / layout.size, cfg, arrivals, numThreads);
    files, results := GatherPhase(layout, sort, lt, contents, infos, buckets, numWorkers);
    parts := SortEach(sort, buckets);
    SortedBuckets(pivots, lt, rand, assign, sort, arrivals, buckets);
    Shares.BucketsTotal(parts, assign, arrivals);
    sorted := ReadResult(layout, files, results, parts);
  }

  lemma FullBuffer(bucketSize: nat, size: nat)
    requires 0 < size <= bucketSize
    ensures bucketSize / size > 0
  {
  }
}
