// The whole of the external sort, from the reader's threads to the result files
// (scatter_gather_algorithms/sample_sort.h, Sort; scatter_gather_algorithms/scatter_gather.h, Run).
module SortFiles {
  import opened Sequences
  import opened Disk
  import opened Ordering
  import RF = ReaderFiles
  import RS = ReaderState
  import opened UnorderedFileReader
  import opened ReadChunks
  import Shares
  import PipelineState
  import opened Routing
  import opened SampleSort

  // Input files of whole elements: file i holds inputs[i].
  ghost predicate AreFiles<T>(infos: seq<RF.FileInfo>, inputs: seq<seq<T>>, size: nat)
  {
    && size > 0 && |infos| == |inputs|
    && forall i {:trigger infos[i]} :: 0 <= i < |infos| ==> infos[i] == RF.FileInfo(i, |inputs[i]| * size, None)
  }

  // The elements of a chunk that the reader has read from one of the files.
  function ChunkData<T>(inputs: seq<seq<T>>, size: nat, c: RF.Chunk): seq<T>
    requires size > 0
  {
    if c.fileIndex < |inputs| then Loaded(inputs[c.fileIndex], size, c).data else []
  }

  ghost function ActiveLists(infos: seq<RF.FileInfo>, readSize: nat): (r: seq<seq<RF.Chunk>>)
    requires readSize > 0
    ensures |r| == |infos| && forall i :: 0 <= i < |infos| ==> r[i] == RF.ActiveFrom(infos[i], readSize, 0)
  {
    seq(|infos|, i requires 0 <= i < |infos| => RF.ActiveFrom(infos[i], readSize, 0))
  }

  lemma {:induction false} AllActiveLists(infos: seq<RF.FileInfo>, readSize: nat)
    requires readSize > 0
    ensures RS.AllActive(readSize, infos) == multiset(Concat(ActiveLists(infos, readSize)))
  {
    if infos != [] {
      var n := |infos| - 1;
      AllActiveLists(infos[..n], readSize);
      assert ActiveLists(infos, readSize)[..n] == ActiveLists(infos[..n], readSize);
    }
  }

  // The chunks of one file hold its elements.
  lemma FileElements<T>(infos: seq<RF.FileInfo>, inputs: seq<seq<T>>, size: nat, k: nat, i: nat,
                        data: RF.Chunk -> seq<T>)
    requires AreFiles(infos, inputs, size) && k > 0 && k * size > 0 && i < |infos|
    requires forall c :: data(c) == ChunkData(inputs, size, c)
    ensures FlatMap(data, RF.ActiveFrom(infos[i], k * size, 0)) == inputs[i]
  {
    var f, s := infos[i], inputs[i];
    assert f == RF.FileInfo(i, |s| * size, None);
    var m := RF.NumChunks(|s|, k);
    var all := RF.ActiveFrom(f, k * size, 0);
    ChunkCounts(|s|, size, k);
    EveryChunk(f, k * size, 0);
    BlocksAre(s, k, m);
    forall j | 0 <= j < m ensures data(all[j]) == Blocks(s, k, m)[j] {
      RF.ChunkStarts(f.size, k * size, j);
      ChunkIsBlock(f, s, size, k, j);
    }
    assert MapParts(data, all) == Blocks(s, k, m);
  }

  lemma {:induction false} ListsElements<T>(infos: seq<RF.FileInfo>, inputs: seq<seq<T>>, size: nat, k: nat, n: nat,
                                            data: RF.Chunk -> seq<T>)
    requires AreFiles(infos, inputs, size) && k > 0 && k * size > 0 && n <= |infos|
    requires forall c :: data(c) == ChunkData(inputs, size, c)
    ensures FlatMap(data, Concat(ActiveLists(infos, k * size)[..n])) == Concat(inputs[..n])
  {
    var lists := ActiveLists(infos, k * size);
    if n == 0 {
      assert MapParts(data, []) == [];
    } else {
      ListsElements(infos, inputs, size, k, n - 1, data);
      FileElements(infos, inputs, size, k, n - 1, data);
      StartStep(lists, n - 1);
      StartStep(inputs, n - 1);
      FlatMapAppend(data, Concat(lists[..n - 1]), lists[n - 1]);
    }
  }

  // Whatever the order of deliveries, together they hold the elements of all files.
  lemma DeliveredElements<T(!new)>(infos: seq<RF.FileInfo>, inputs: seq<seq<T>>, size: nat, k: nat,
                                   delivered: seq<RF.Chunk>, data: RF.Chunk -> seq<T>)
    requires AreFiles(infos, inputs, size) && k > 0 && k * size > 0
    requires multiset(delivered) == RS.AllActive(k * size, infos)
    requires forall c :: data(c) == ChunkData(inputs, size, c)
    ensures multiset(FlatMap(data, delivered)) == multiset(Concat(inputs))
  {
    var lists := ActiveLists(infos, k * size);
    AllActiveLists(infos, k * size);
    FlatMapAnyOrder(data, delivered, Concat(lists));
    ListsElements(infos, inputs, size, k, |infos|, data);
    assert lists[..|infos|] == lists && inputs[..|infos|] == inputs;
  }

  // ---- the indices of the elements ---------------------------------------------------------

  // The loop of ComputeBeforeSize: the number of bytes before each file.
  method ComputeBeforeSize<T>(infos: seq<RF.FileInfo>, ghost inputs: seq<seq<T>>, ghost size: nat)
    returns (before: seq<nat>)
    requires AreFiles(infos, inputs, size)
    ensures |before| == |infos| && forall i :: 0 <= i < |infos| ==> before[i] == BytesBefore(inputs, size, i)
  {
    var totalSize := 0;
    before := [];
    for i := 0 to |infos|
      invariant |before| == i && totalSize == BytesBefore(inputs, size, i)
      invariant forall j :: 0 <= j < i ==> before[j] == BytesBefore(inputs, size, j)
    {
      NextFile(inputs, size, i);
      before := before + [totalSize];
      totalSize := totalSize + infos[i].size;
    }
  }

  ghost function BytesBefore<T>(inputs: seq<seq<T>>, size: nat, i: nat): nat
    requires i <= |inputs|
  {
    |Concat(inputs[..i])| * size
  }

  lemma NextFile<T>(inputs: seq<seq<T>>, size: nat, i: nat)
    requires i < |inputs|
    ensures BytesBefore(inputs, size, i + 1) == BytesBefore(inputs, size, i) + |inputs[i]| * size
  {
    StartStep(inputs, i);
    var a, b := |Concat(inputs[..i])|, |inputs[i]|;
    assert (a + b) * size == a * size + b * size;
  }

  // The chunks as whole files, with the index of their first elements.
  ghost function WholeFiles<T>(inputs: seq<seq<T>>, size: nat): (r: seq<Shares.Chunk<T>>)
    ensures |r| == |inputs|
    ensures forall i :: 0 <= i < |r| ==> r[i] == Shares.Chunk(inputs[i], BytesBefore(inputs, size, i))
  {
    seq(|inputs|, i requires 0 <= i < |inputs| => Shares.Chunk(inputs[i], BytesBefore(inputs, size, i)))
  }

  // What the scatter threads receive of a chunk: its elements, and the index of the first.
  function Arrival<T>(inputs: seq<seq<T>>, before: seq<nat>, size: nat, c: RF.Chunk): Shares.Chunk<T>
    requires size > 0
  {
    Shares.Chunk(ChunkData(inputs, size, c), FileStart(before, c) + c.offset / size)
  }

  function FileStart(before: seq<nat>, c: RF.Chunk): nat
  {
    if c.fileIndex < |before| then before[c.fileIndex] else 0
  }

  function Arrivals<T>(inputs: seq<seq<T>>, before: seq<nat>, size: nat, delivered: seq<RF.Chunk>)
    : (r: seq<Shares.Chunk<T>>)
    requires size > 0
    ensures |r| == |delivered| && forall a :: 0 <= a < |r| ==> r[a] == Arrival(inputs, before, size, delivered[a])
  {
    seq(|delivered|, a requires 0 <= a < |delivered| => Arrival(inputs, before, size, delivered[a]))
  }

  // However a file is cut into chunks, and in whatever order they arrive, the elements keep
  // their indices.
  lemma ArrivalsIndexed<T(!new)>(infos: seq<RF.FileInfo>, inputs: seq<seq<T>>, before: seq<nat>, size: nat, k: nat,
                                 delivered: seq<RF.Chunk>)
    requires AreFiles(infos, inputs, size) && k > 0 && k * size > 0 && |before| == |inputs|
    requires forall i :: 0 <= i < |before| ==> before[i] == BytesBefore(inputs, size, i)
    requires multiset(delivered) == RS.AllActive(k * size, infos)
    ensures multiset(Concat(Shares.IndexedParts(Arrivals(inputs, before, size, delivered)))) ==
            multiset(Concat(Shares.IndexedParts(WholeFiles(inputs, size))))
  {
    var indexed := Shares.IndexedParts(WholeFiles(inputs, size));
    var data := (c: RF.Chunk) => ChunkData(indexed, size, c);
    DeliveredElements(infos, indexed, size, k, delivered, data);
    var arrivals := Arrivals(inputs, before, size, delivered);
    forall a | 0 <= a < |delivered| ensures Shares.IndexedParts(arrivals)[a] == data(delivered[a]) {
      IndexedChunk(inputs, before, size, delivered[a]);
    }
    assert Shares.IndexedParts(arrivals) == MapParts(data, delivered);
  }

  lemma IndexedChunk<T>(inputs: seq<seq<T>>, before: seq<nat>, size: nat, c: RF.Chunk)
    requires size > 0 && |before| == |inputs|
    requires forall i :: 0 <= i < |before| ==> before[i] == BytesBefore(inputs, size, i)
    ensures var arrival := Arrival(inputs, before, size, c);
            Shares.Indexed(arrival.data, arrival.indexStart) ==
            ChunkData(Shares.IndexedParts(WholeFiles(inputs, size)), size, c)
  {
    if c.fileIndex < |inputs| {
      var from, n := c.offset / size, c.size / size;
      IndexedSlice(inputs[c.fileIndex], before[c.fileIndex], from, n);
    }
  }

  lemma IndexedSlice<T>(s: seq<T>, k: nat, from: nat, n: nat)
    ensures from + n <= |s| ==> Shares.Indexed(s, k)[from..from + n] == Shares.Indexed(s[from..from + n], k + from)
  {
  }

  // For every interleaving of the reader's threads, the scatter threads, the I/O threads and
  // the gather workers, and every random choice, the elements read back from the result files
  // in bucket order are the elements of the input files, sorted, and every result file has the
  // elements routed to its bucket.
  method SortInputs<T(==, !new)>(layout: Layout<T>, lt: (T, T) -> bool, sort: seq<T> -> seq<T>, pivots: seq<T>,
                                 rand: nat -> nat, bucketSize: nat, align: nat, vectorSize: nat, threshold: nat,
                                 infos: seq<RF.FileInfo>, inputs: seq<seq<T>>, k: nat, reader: RS.Config,
                                 readThreads: nat, numThreads: nat, numWorkers: nat)
    returns (files: seq<File>, results: seq<PipelineState.Info>, sorted: seq<T>,
             ghost parts: seq<seq<T>>, ghost assign: (T, nat) -> nat)
    requires IsLayout(layout) && StrictWeak(lt) && SortsBy(sort, lt)
    requires |pivots| > 0 && Sorted(pivots, lt)
    requires layout.size <= bucketSize && 0 < align < MARKER_CAPACITY - 1 && vectorSize > 0
    requires AreFiles(infos, inputs, layout.size) && k > 0 && reader.readSize == k * layout.size && reader.readSize > 0
    requires reader.maxRequests > 0 && readThreads > 0 && numThreads > 0 && numWorkers > 0
    ensures Sorted(sorted, lt) && multiset(sorted) == multiset(Concat(inputs))
    ensures sorted == Concat(parts) && StoreParts(layout, files, results, parts)
    ensures Routes(pivots, lt, rand, assign)
    ensures IsDistributed(pivots, lt, assign, WholeFiles(inputs, layout.size), parts)
  {
    var before := ComputeBeforeSize(infos, inputs, layout.size);
    var fileReader := new FileReader(reader, infos, readThreads);
    fileReader.RunToCompletion();
    var delivered := fileReader.delivered;
    var arrivals := Arrivals(inputs, before, layout.size, delivered);
    AllArrived(infos, inputs, before, layout.size, k, delivered);
    files, results, sorted, parts, assign := Sort(layout, lt, sort, pivots, rand, bucketSize, align,
                                                  vectorSize, threshold, arrivals, numThreads, numWorkers);
  }

  lemma AllArrived<T(!new)>(infos: seq<RF.FileInfo>, inputs: seq<seq<T>>, before: seq<nat>, size: nat, k: nat,
                            delivered: seq<RF.Chunk>)
    requires AreFiles(infos, inputs, size) && k > 0 && k * size > 0 && |before| == |inputs|
    requires forall i :: 0 <= i < |before| ==> before[i] == BytesBefore(inputs, size, i)
    requires multiset(delivered) == RS.AllActive(k * size, infos)
    ensures var arrivals := Arrivals(inputs, before, size, delivered);
            && Shares.AllElements(arrivals) == multiset(Concat(inputs))
            && forall assign, b :: Shares.Share(arrivals, assign, b) ==
                                   Shares.Share(WholeFiles(inputs, size), assign, b)
  {
    var arrivals := Arrivals(inputs, before, size, delivered);
    var data := (c: RF.Chunk) => ChunkData(inputs, size, c);
    DeliveredElements(infos, inputs, size, k, delivered, data);
    Shares.ElementsJoined(arrivals, MapParts(data, delivered));
    ArrivalsIndexed(infos, inputs, before, size, k, delivered);
    forall assign: (T, nat) -> nat, b: nat
      ensures Shares.Share(arrivals, assign, b) == Shares.Share(WholeFiles(inputs, size), assign, b)
    {
      Shares.SameShares(arrivals, WholeFiles(inputs, size), assign, b);
    }
  }
}
