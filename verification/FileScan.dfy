// The two-pass exclusive scan over files whose chunks are read in any order
// (Plaidlay/NaiveExternalScan.h).
module FileScan {
  import opened Sequences
  import opened Disk
  import opened Arithmetic
  import opened Numbers
  import opened ReorderQueue
  import opened OutputFormat
  import opened ElementStream
  import opened FileOperators

  // ---- the first pass: the total of one file -----------------------------------------------

  method SumReady<T>(q: Queue<T>, num: Num<T>, start: T) returns (total: T)
    requires q.Valid() && start == SumFrom(num, num.zero, Concat(q.blocks[..q.taken]))
    modifies q`heap, q`taken, q`nextIndex
    ensures q.Valid() && total == SumFrom(num, num.zero, Concat(q.blocks[..q.taken]))
    ensures !(q.taken < |q.blocks| && q.taken in q.arrived)
  {
    total := start;
    var ready := q.Ready();
    while ready
      invariant q.Valid() && total == SumFrom(num, num.zero, Concat(q.blocks[..q.taken]))
      invariant ready <==> q.taken < |q.blocks| && q.taken in q.arrived
      invariant ready ==> q.nextIndex in q.heap
      decreases |q.blocks| - q.taken
    {
      StartStep(q.blocks, q.taken);
      ghost var before := Concat(q.blocks[..q.taken]);
      var data := q.Take();
      total := SumData(num, total, data);
      SumAppend(num, num.zero, before, data);
      ready := q.Ready();
    }
  }

  method SumData<T>(num: Num<T>, start: T, data: seq<T>) returns (total: T)
    ensures total == SumFrom(num, start, data)
  {
    total := start;
    for i := 0 to |data|
      invariant total == SumFrom(num, start, data[..i])
    {
      StepFrom(num, start, data[..i], data[i]);
      assert data[..i + 1] == data[..i] + [data[i]];
      total := num.plus(total, data[i]);
    }
    assert data[..|data|] == data;
  }

  // put_in_mem
  method SumFile<T>(num: Num<T>, chunks: seq<Chunk<T>>, ghost blocks: seq<seq<T>>, ghost order: seq<nat>)
    returns (total: T)
    requires Delivers(chunks, blocks, order)
    ensures total == SumFrom(num, num.zero, Concat(blocks))
  {
    var q := new Queue(blocks);
    total := num.zero;
    assert Concat(blocks[..0]) == [];
    for a := 0 to |chunks|
      invariant fresh(q) && q.blocks == blocks
      invariant q.Valid() && total == SumFrom(num, num.zero, Concat(blocks[..q.taken]))
      invariant !(q.taken < |blocks| && q.taken in q.arrived)
      invariant forall k: nat :: k in q.arrived <==> k in order[..a]
    {
      ArrivesOnce(order, a);
      q.Offer(chunks[a].index, chunks[a].data, order[a]);
      total := SumReady(q, num, total);
    }
    assert order[..|order|] == order;
    q.Drained();
    assert blocks[..|blocks|] == blocks;
  }

  // ---- the second pass ---------------------------------------------------------------------

  // The running total and the output after the part s of the input.
  ghost predicate Scanned<T(!new)>(num: Num<T>, init: T, s: seq<T>, running: T, out: Stream<T>)
    reads out
  {
    out.Valid() && running == SumFrom(num, init, s) && out.emitted == ScanFrom(num, init, s)
  }

  method ScanElement<T(!new)>(out: Stream<T>, num: Num<T>, start: T, x: T, ghost init: T, ghost before: seq<T>)
    returns (running: T)
    requires Scanned(num, init, before, start, out)
    modifies out
    ensures Scanned(num, init, before + [x], running, out)
  {
    StepFrom(num, init, before, x);
    out.Emit(start);
    running := num.plus(start, x);
  }

  method ScanData<T(!new)>(out: Stream<T>, num: Num<T>, start: T, data: seq<T>, ghost init: T, ghost before: seq<T>)
    returns (running: T)
    requires Scanned(num, init, before, start, out)
    modifies out
    ensures Scanned(num, init, before + data, running, out)
  {
    running := start;
    ghost var seen := before;
    PrefixGrows(before, data);
    for i := 0 to |data|
      invariant seen == before + data[..i]
      invariant Scanned(num, init, seen, running, out)
    {
      running := ScanElement(out, num, running, data[i], init, seen);
      seen := before + data[..i + 1];
    }
  }

  lemma PrefixGrows<T>(before: seq<T>, data: seq<T>)
    ensures before + data[..0] == before && before + data[..|data|] == before + data
    ensures forall i {:trigger data[..i]} :: 0 <= i < |data| ==>
              before + data[..i + 1] == (before + data[..i]) + [data[i]]
  {
    assert data[..|data|] == data;
    forall i | 0 <= i < |data| ensures before + data[..i + 1] == (before + data[..i]) + [data[i]] {
      assert data[..i + 1] == data[..i] + [data[i]];
    }
  }

  method ScanNext<T(!new)>(q: Queue<T>, out: Stream<T>, num: Num<T>, start: T, ghost init: T) returns (running: T)
    requires q.Valid() && Scanned(num, init, Concat(q.blocks[..q.taken]), start, out)
    requires q.taken < |q.blocks| && q.taken in q.arrived && q.nextIndex in q.heap
    modifies q`heap, q`taken, q`nextIndex, out
    ensures q.Valid() && Scanned(num, init, Concat(q.blocks[..q.taken]), running, out) && q.taken == old(q.taken) + 1
  {
    StartStep(q.blocks, q.taken);
    ghost var before := Concat(q.blocks[..q.taken]);
    var data := q.Take();
    running := ScanData(out, num, start, data, init, before);
  }

  method ScanReady<T(!new)>(q: Queue<T>, out: Stream<T>, num: Num<T>, start: T, ghost init: T) returns (running: T)
    requires q.Valid() && Scanned(num, init, Concat(q.blocks[..q.taken]), start, out)
    modifies q`heap, q`taken, q`nextIndex, out
    ensures q.Valid() && Scanned(num, init, Concat(q.blocks[..q.taken]), running, out)
    ensures !(q.taken < |q.blocks| && q.taken in q.arrived)
  {
    running := start;
    var ready := q.Ready();
    while ready
      invariant q.Valid() && Scanned(num, init, Concat(q.blocks[..q.taken]), running, out)
      invariant ready <==> q.taken < |q.blocks| && q.taken in q.arrived
      invariant ready ==> q.nextIndex in q.heap
      decreases |q.blocks| - q.taken
    {
      running := ScanNext(q, out, num, running, init);
      ready := q.Ready();
    }
  }

  method ScanChunks<T(!new)>(q: Queue<T>, out: Stream<T>, num: Num<T>, init: T, chunks: seq<Chunk<T>>,
                             ghost order: seq<nat>)
    requires q.Valid() && q.taken == 0 && q.arrived == {} && out.Valid() && out.emitted == []
    requires Delivers(chunks, q.blocks, order)
    modifies q, out
    ensures out.Valid() && out.emitted == ScanFrom(num, init, Concat(q.blocks))
  {
    assert Concat(q.blocks[..0]) == [];
    var running := init;
    for a := 0 to |chunks|
      invariant q.Valid() && Scanned(num, init, Concat(q.blocks[..q.taken]), running, out)
      invariant !(q.taken < |q.blocks| && q.taken in q.arrived)
      invariant forall k: nat :: k in q.arrived <==> k in order[..a]
    {
      ArrivesOnce(order, a);
      running := ScanArrival(q, out, num, running, init, chunks[a], order[a]);
    }
    assert order[..|order|] == order;
    q.Drained();
    assert q.blocks[..|q.blocks|] == q.blocks;
  }

  // One chunk arrives.
  method ScanArrival<T(!new)>(q: Queue<T>, out: Stream<T>, num: Num<T>, start: T, ghost init: T, chunk: Chunk<T>,
                              ghost k: nat)
    returns (running: T)
    requires q.Valid() && Scanned(num, init, Concat(q.blocks[..q.taken]), start, out)
    requires k < |q.blocks| && k !in q.arrived && chunk == Chunk(StartOf(q.blocks, k), q.blocks[k])
    modifies q, out
    ensures q.Valid() && Scanned(num, init, Concat(q.blocks[..q.taken]), running, out)
    ensures !(q.taken < |q.blocks| && q.taken in q.arrived) && q.arrived == old(q.arrived) + {k}
  {
    q.Offer(chunk.index, chunk.data, k);
    running := ScanReady(q, out, num, start, init);
  }

  // The output settings that all files share.
  datatype Output<!T> = Output(layout: Layout<T>, format: Format, maxOutstanding: nat)

  ghost predicate CanWrite<T(!new)>(c: Output<T>)
  {
    IsLayout(c.layout) && IsFormat(c.format) && c.layout.size == c.format.size && c.maxOutstanding > 0
  }

  // The outcome for one file; its reported size is right exactly if all blocks are whole numbers
  // of elements.
  ghost predicate IsResult<T(!new)>(c: Output<T>, o: Outcome, part: seq<T>)
    requires IsFormat(c.format)
  {
    && IsOutcome(c.layout, c.format, o, part)
    && o.fileSize == FullBuffers(c.format, |part|) * c.format.bufferBytes + EndSize(c.format, |part|)
    && (o.ok ==> (HasSize(o.file, o.fileSize) <==> WholeBuffers(c.format, |part|) && MarkerKept(c.format, |part|)))
  }

  lemma ScanSizeIff(f: Format, n: nat)
    requires IsFormat(f)
    ensures Bytes(FullBuffers(f, n), f.bufferBytes) + EndSize(f, n) == WrittenSize(f, n)
         <==> WholeBuffers(f, n) && MarkerKept(f, n)
  {
    Shortfall(f, FullBuffers(f, n));
  }

  // If the size of an element divides the alignment, and the alignment the buffer, the file
  // stores its part with the reported sizes.
  lemma DividingResult<T(!new)>(c: Output<T>, o: Outcome, part: seq<T>)
    requires CanWrite(c) && IsResult(c, o, part)
    requires c.format.align % c.format.size == 0 && c.format.bufferBytes % c.format.align == 0
    ensures o.ok && o.trueSize == |Encode(c.layout, part)| && StoresPart(c.layout, o.file, o.fileSize, part)
  {
    DividingSizeFits(c.format, |part|);
    SizesAgree(o.file, WrittenSize(c.format, |part|), o.fileSize);
  }

  // NaiveScanFile
  method ScanFile<T(!new)>(c: Output<T>, num: Num<T>, offset: nat, chunks: seq<Chunk<T>>, ghost blocks: seq<seq<T>>,
                           ghost order: seq<nat>)
    returns (o: Outcome)
    requires CanWrite(c) && Delivers(chunks, blocks, order)
    ensures IsResult(c, o, ScanFrom(num, num.fromSize(offset), Concat(blocks)))
  {
    var q := new Queue(blocks);
    var out := new Stream(c.layout, c.format);
    ghost var part := ScanFrom(num, num.fromSize(offset), Concat(blocks));
    ScanChunks(q, out, num, num.fromSize(offset), chunks, order);
    var endSize;
    o, endSize := FinishFile(out, c.maxOutstanding, part);
    o := o.(fileSize := Bytes(out.writeCount, c.format.bufferBytes) + endSize);
    ScanSizeIff(c.format, |part|);
    if o.ok {
      SizesAgree(o.file, WrittenSize(c.format, |part|), o.fileSize);
    }
  }

  // ---- both passes -------------------------------------------------------------------------

  ghost predicate Follows(store: seq<nat>, offsets: seq<nat>, k: nat)
  {
    k + 1 < |offsets| && k < |store| && offsets[k + 1] == (offsets[k] + store[k]) % U64
  }

  // Exclusive prefix sums in size_t arithmetic.
  ghost predicate Chained(store: seq<nat>, offsets: seq<nat>)
  {
    && |offsets| == |store| && (|store| > 0 ==> offsets[0] == 0)
    && forall k {:trigger Follows(store, offsets, k)} :: 0 <= k < |store| - 1 ==> Follows(store, offsets, k)
  }

  // std::exclusive_scan over the totals in size_t arithmetic.
  method Offsets(store: seq<nat>) returns (offsets: seq<nat>)
    ensures Chained(store, offsets)
  {
    offsets := [];
    var running := 0;
    for i := 0 to |store|
      invariant |offsets| == i && (i > 0 ==> offsets[0] == 0)
      invariant running == if i == 0 then 0 else (offsets[i - 1] + store[i - 1]) % U64
      invariant forall k {:trigger Follows(store, offsets, k)} :: 0 <= k < i - 1 ==> Follows(store, offsets, k)
    {
      ghost var before := offsets;
      offsets := offsets + [running];
      forall k | 0 <= k < i ensures Follows(store, offsets, k) {
        assert k < i - 1 ==> Follows(store, before, k);
      }
      running := (running + store[i]) % U64;
    }
  }

  // One file of the input: its chunks in the orders in which the two passes read them.
  datatype Reads<T> = Reads(first: seq<Chunk<T>>, second: seq<Chunk<T>>)

  ghost function Inputs<T>(blocks: seq<seq<seq<T>>>): (r: seq<seq<T>>)
    ensures |r| == |blocks| && forall i :: 0 <= i < |blocks| ==> r[i] == Concat(blocks[i])
  {
    seq(|blocks|, i requires 0 <= i < |blocks| => Concat(blocks[i]))
  }

  ghost predicate Totals<T>(num: Num<T>, inputs: seq<seq<T>>, store: seq<nat>)
  {
    |store| == |inputs| && forall i {:trigger IsTotal(num, inputs[i], store[i])} :: 0 <= i < |inputs| ==>
        IsTotal(num, inputs[i], store[i])
  }

  ghost predicate IsTotal<T>(num: Num<T>, s: seq<T>, n: nat)
  {
    n == num.toSize(SumFrom(num, num.zero, s))
  }

  // The offset of each file is the sum of everything before it, although it went through
  // size_t on the way.
  lemma {:induction false} OffsetIsSum<T(!new)>(num: Num<T>, inputs: seq<seq<T>>, store: seq<nat>, offsets: seq<nat>,
                                                i: nat)
    requires IsInteger(num) && Totals(num, inputs, store) && Chained(store, offsets) && i < |inputs|
    ensures num.fromSize(offsets[i]) == SumFrom(num, num.zero, Concat(inputs[..i]))
  {
    if i == 0 {
      assert inputs[..0] == [];
    } else {
      var s, before := inputs[i - 1], Concat(inputs[..i - 1]);
      OffsetIsSum(num, inputs, store, offsets, i - 1);
      assert inputs[..i] == inputs[..i - 1] + [s];
      ConcatSnoc(inputs[..i - 1], s);
      SumAppend(num, num.zero, before, s);
      SumShift(num, SumFrom(num, num.zero, before), s);
      assert Follows(store, offsets, i - 1);
      assert IsTotal(num, inputs[i - 1], store[i - 1]);
      assert Converts(num, offsets[i - 1], SumFrom(num, num.zero, s));
    }
  }

  ghost predicate ScannedParts<T>(num: Num<T>, inputs: seq<seq<T>>, offsets: seq<nat>, parts: seq<seq<T>>)
  {
    |parts| == |inputs| == |offsets|
        && forall i {:trigger IsPart(num, offsets[i], inputs[i], parts[i])} :: 0 <= i < |inputs| ==>
      IsPart(num, offsets[i], inputs[i], parts[i])
  }

  ghost predicate IsPart<T>(num: Num<T>, offset: nat, s: seq<T>, part: seq<T>)
  {
    part == ScanFrom(num, num.fromSize(offset), s)
  }

  // The scans of the files, each from its own offset, are together the scan of the whole input.
  lemma {:induction false} PartsAreScan<T(!new)>(num: Num<T>, inputs: seq<seq<T>>, store: seq<nat>, offsets: seq<nat>,
                                                 parts: seq<seq<T>>, n: nat)
    requires IsInteger(num) && Totals(num, inputs, store) && Chained(store, offsets)
    requires ScannedParts(num, inputs, offsets, parts) && n <= |inputs|
    ensures Concat(parts[..n]) == ScanFrom(num, num.zero, Concat(inputs[..n]))
  {
    if n == 0 {
      assert inputs[..0] == [] && parts[..0] == [];
    } else {
      var k := n - 1;
      PartsAreScan(num, inputs, store, offsets, parts, k);
      OffsetIsSum(num, inputs, store, offsets, k);
      assert IsPart(num, offsets[k], inputs[k], parts[k]);
      NextPart(num, inputs[..k], inputs[k], parts[..k], parts[k]);
      assert inputs[..n] == inputs[..k] + [inputs[k]] && parts[..n] == parts[..k] + [parts[k]];
    }
  }

  lemma NextPart<T>(num: Num<T>, before: seq<seq<T>>, s: seq<T>, parts: seq<seq<T>>, part: seq<T>)
    requires Concat(parts) == ScanFrom(num, num.zero, Concat(before))
    requires part == ScanFrom(num, SumFrom(num, num.zero, Concat(before)), s)
    ensures Concat(parts + [part]) == ScanFrom(num, num.zero, Concat(before + [s]))
  {
    ConcatSnoc(before, s);
    ConcatSnoc(parts, part);
    ScanAppend(num, num.zero, Concat(before), s);
  }

  method FirstPass<T(!new)>(num: Num<T>, passes: seq<Reads<T>>, ghost blocks: seq<seq<seq<T>>>,
                            ghost orders: seq<seq<nat>>)
    returns (store: seq<nat>)
    requires |passes| == |blocks| == |orders|
    requires forall i :: 0 <= i < |passes| ==> Delivers(passes[i].first, blocks[i], orders[i])
    ensures Totals(num, Inputs(blocks), store)
  {
    store := [];
    for i := 0 to |passes|
      invariant |store| == i
      invariant forall k :: 0 <= k < i ==> IsTotal(num, Inputs(blocks)[k], store[k])
    {
      var total := SumFile(num, passes[i].first, blocks[i], orders[i]);
      store := store + [num.toSize(total)];
    }
  }

  ghost predicate AllResults<T(!new)>(c: Output<T>, results: seq<Outcome>, parts: seq<seq<T>>)
    requires IsFormat(c.format)
  {
    |results| == |parts| && forall i :: 0 <= i < |results| ==> IsResult(c, results[i], parts[i])
  }

  // Scan: for every arrival order in either pass, the output files are the outcomes for parts
  // which are together the exclusive prefix sums of the concatenated input files.
  method Scan<T(!new)>(c: Output<T>, num: Num<T>, passes: seq<Reads<T>>, ghost blocks: seq<seq<seq<T>>>,
                       ghost orders: seq<seq<nat>>, ghost orders2: seq<seq<nat>>)
    returns (results: seq<Outcome>, ghost parts: seq<seq<T>>)
    requires CanWrite(c) && IsInteger(num) && |passes| == |blocks| == |orders| == |orders2|
    requires forall i :: 0 <= i < |passes| ==> Delivers(passes[i].first, blocks[i], orders[i])
    requires forall i :: 0 <= i < |passes| ==> Delivers(passes[i].second, blocks[i], orders2[i])
    ensures AllResults(c, results, parts)
    ensures Concat(parts) == ScanFrom(num, num.zero, Concat(Inputs(blocks)))
    ensures |parts| == |blocks| && forall i :: 0 <= i < |parts| ==> |parts[i]| == |Inputs(blocks)[i]|
  {
    var store := FirstPass(num, passes, blocks, orders);
    var offsets := Offsets(store);
    results, parts := SecondPass(c, num, offsets, passes, blocks, orders2);
    PartsAreScan(num, Inputs(blocks), store, offsets, parts, |passes|);
    assert parts[..|passes|] == parts && Inputs(blocks)[..|passes|] == Inputs(blocks);
    PartSizes(num, Inputs(blocks), offsets, parts);
  }

  lemma PartSizes<T>(num: Num<T>, inputs: seq<seq<T>>, offsets: seq<nat>, parts: seq<seq<T>>)
    requires ScannedParts(num, inputs, offsets, parts)
    ensures forall i :: 0 <= i < |parts| ==> |parts[i]| == |inputs[i]|
  {
    forall i | 0 <= i < |parts| ensures |parts[i]| == |inputs[i]| {
      assert IsPart(num, offsets[i], inputs[i], parts[i]);
    }
  }

  method SecondPass<T(!new)>(c: Output<T>, num: Num<T>, offsets: seq<nat>, passes: seq<Reads<T>>,
                             ghost blocks: seq<seq<seq<T>>>, ghost orders2: seq<seq<nat>>)
    returns (results: seq<Outcome>, ghost parts: seq<seq<T>>)
    requires CanWrite(c) && |passes| == |blocks| == |orders2| == |offsets|
    requires forall i :: 0 <= i < |passes| ==> Delivers(passes[i].second, blocks[i], orders2[i])
    ensures AllResults(c, results, parts) && ScannedParts(num, Inputs(blocks), offsets, parts)
  {
    results, parts := [], [];
    for i := 0 to |passes|
      invariant |parts| == i && AllResults(c, results, parts)
      invariant forall k :: 0 <= k < i ==> IsPart(num, offsets[k], Inputs(blocks)[k], parts[k])
    {
      var o := ScanFile(c, num, offsets[i], passes[i].second, blocks[i], orders2[i]);
      results := results + [o];
      parts := parts + [ScanFrom(num, num.fromSize(offsets[i]), Concat(blocks[i]))];
    }
  }
}
