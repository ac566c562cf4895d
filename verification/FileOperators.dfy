// Operators on one file whose chunks are read in any order: filtering, summing and scanning
// (sequence_algorithms/filter.h, Plaidlay/NaiveExternalScan.h).
module FileOperators {
  import opened Arithmetic
  import opened Sequences
  import opened Disk
  import opened ReorderQueue
  import opened OutputFormat
  import opened ElementStream
  import AppendWriter

  // A chunk as the reader delivers it: the index of its first element, and its elements.
  datatype Chunk<T> = Chunk(index: nat, data: seq<T>)

  // The chunks are the blocks of the input, each once, in the given order.
  ghost predicate Delivers<T>(chunks: seq<Chunk<T>>, blocks: seq<seq<T>>, order: seq<nat>)
  {
    && |chunks| == |order|
    && (forall k :: 0 <= k < |blocks| ==> blocks[k] != [])
    && (forall k: nat :: k < |blocks| ==> k in order)
    && (forall a, b :: 0 <= a < b < |order| ==> order[a] != order[b])
    && (forall a :: 0 <= a < |order| ==>
        order[a] < |blocks| && chunks[a] == Chunk(StartOf(blocks, order[a]), blocks[order[a]]))
  }

  // ---- the file writer ---------------------------------------------------------------------

  // Push: the program ends when a size is not a multiple of the alignment.
  method Accepts(pushes: seq<seq<Byte>>, align: nat) returns (ok: bool)
    requires align > 0
    ensures ok <==> forall k :: 0 <= k < |pushes| ==> |pushes[k]| % align == 0
  {
    ok := true;
    for k := 0 to |pushes|
      invariant ok <==> forall i :: 0 <= i < k ==> |pushes[i]| % align == 0
    {
      ok := ok && |pushes[k]| % align == 0;
    }
  }

  // A writer with one thread and one file; only the last push may be empty.
  method WriteFile(pushes: seq<seq<Byte>>, maxOutstanding: nat) returns (file: File)
    requires maxOutstanding > 0 && forall k :: 0 <= k < |pushes| - 1 ==> pushes[k] != []
    ensures HasContents(file, Concat(pushes))
  {
    var worker := new AppendWriter.AppendWorker(pushes, 1, maxOutstanding);
    worker.RunToCompletion();
    AppendWriter.DealtToOne(pushes);
    ghost var written := AppendWriter.UpToEmpty(pushes);
    assert |written| >= |pushes| - 1;
    file := worker.files[0];
    assert AppendWriter.Dealt(written, 1)[0] == Concat(pushes);
  }

  // What an operator leaves behind: whether the writer accepted every push, the file, and the
  // sizes reported for it.
  datatype Outcome = Outcome(ok: bool, file: File, trueSize: nat, fileSize: nat)

  // The outcome for the elements of part. The conditions depend on their number only.
  ghost predicate IsOutcome<T(!new)>(layout: Layout<T>, f: Format, o: Outcome, part: seq<T>)
    requires IsFormat(f)
  {
    && (o.ok <==> Accepted(f, |part|))
    && (o.ok ==> HasSize(o.file, WrittenSize(f, |part|)))
    && (o.ok ==> (Recoverable(layout, o.file, part) <==> MarkerKept(f, |part|)))
    && (o.ok && MarkerKept(f, |part|) ==> StoresPart(layout, o.file, WrittenSize(f, |part|), part))
    && (o.ok ==> BeginsWith(o.file, Encode(layout, part)))
    && o.trueSize == FullBuffers(f, |part|) * f.bufferBytes + TailBytes(f, |part|)
    && (o.trueSize == |Encode(layout, part)| <==> WholeBuffers(f, |part|))
  }

  ghost predicate BeginsWith(file: File, data: seq<Byte>)
  {
    forall k: nat :: k < |data| ==> k in file && file[k] == data[k]
  }

  // The last block and the file, once all elements are emitted. The file size is left to the
  // operators, which report it differently.
  method FinishFile<T(!new)>(out: Stream<T>, maxOutstanding: nat, ghost part: seq<T>) returns (o: Outcome, endSize: nat)
    requires out.Valid() && out.emitted == part && maxOutstanding > 0
    modifies out`pushes
    ensures IsOutcome(out.layout, out.format, o, part) && o.fileSize == 0
    ensures out.writeCount == FullBuffers(out.format, |part|) && endSize == EndSize(out.format, |part|)
  {
    ghost var f := out.format;
    var trueSize;
    trueSize, endSize := out.Finish();
    ghost var rest :| IsOutput(out.layout, f, part, Concat(out.pushes), rest);
    ContentSize(out.layout, f, part, Concat(out.pushes), rest);
    TrueSizeRight(f, |part|);
    var ok := Accepts(out.pushes, out.format.align);
    PushesAccepted(out.pushes, f, |part|);
    if !ok {
      return Outcome(false, map[], trueSize, 0), endSize;
    }
    var file := WriteFile(out.pushes, maxOutstanding);
    RecoverableIffKept(out.layout, f, part, file, Concat(out.pushes), rest);
    o := Outcome(true, file, trueSize, 0);
  }

  lemma PushesAccepted(pushes: seq<seq<Byte>>, f: Format, n: nat)
    requires IsFormat(f) && |pushes| == FullBuffers(f, n) + 1
    requires forall k :: 0 <= k < FullBuffers(f, n) ==> |pushes[k]| == FullBytes(f)
    requires |pushes[FullBuffers(f, n)]| == Pushed(EndSize(f, n), f.size)
    ensures (forall k :: 0 <= k < |pushes| ==> |pushes[k]| % f.align == 0) <==> Accepted(f, n)
  {
    if Accepted(f, n) {
      forall k | 0 <= k < |pushes| ensures |pushes[k]| % f.align == 0 {
        assert k < FullBuffers(f, n) ==> |pushes[k]| == FullBytes(f);
      }
    }
    if FullBuffers(f, n) > 0 {
      assert |pushes[0]| == FullBytes(f);
    }
  }

  // ---- filter ------------------------------------------------------------------------------

  lemma FilterSnoc<T>(p: T -> bool, s: seq<T>, x: T)
    ensures Filter(p, s + [x]) == Filter(p, s) + if p(x) then [x] else []
  {
    assert (s + [x])[..|s|] == s;
  }

  method FilterData<T(!new)>(out: Stream<T>, p: T -> bool, data: seq<T>, ghost before: seq<T>)
    requires out.Valid() && out.emitted == Filter(p, before)
    modifies out
    ensures out.Valid() && out.emitted == Filter(p, before + data)
  {
    assert before + data[..0] == before;
    for i := 0 to |data|
      invariant out.Valid() && out.emitted == Filter(p, before + data[..i])
    {
      FilterSnoc(p, before + data[..i], data[i]);
      assert before + data[..i + 1] == before + data[..i] + [data[i]];
      if p(data[i]) {
        out.Emit(data[i]);
      }
    }
    assert data[..|data|] == data;
  }

  method FilterNext<T(!new)>(q: Queue<T>, out: Stream<T>, p: T -> bool)
    requires q.Valid() && out.Valid() && out.emitted == Filter(p, Concat(q.blocks[..q.taken]))
    requires q.taken < |q.blocks| && q.taken in q.arrived && q.nextIndex in q.heap
    modifies q`heap, q`taken, q`nextIndex, out
    ensures q.Valid() && out.Valid() && out.emitted == Filter(p, Concat(q.blocks[..q.taken]))
    ensures q.taken == old(q.taken) + 1
  {
    StartStep(q.blocks, q.taken);
    ghost var before := Concat(q.blocks[..q.taken]);
    var data := q.Take();
    FilterData(out, p, data, before);
  }

  // The chunks that can be processed now, in index order.
  method FilterReady<T(!new)>(q: Queue<T>, out: Stream<T>, p: T -> bool)
    requires q.Valid() && out.Valid() && out.emitted == Filter(p, Concat(q.blocks[..q.taken]))
    modifies q`heap, q`taken, q`nextIndex, out
    ensures q.Valid() && out.Valid() && out.emitted == Filter(p, Concat(q.blocks[..q.taken]))
    ensures !(q.taken < |q.blocks| && q.taken in q.arrived)
  {
    var ready := q.Ready();
    while ready
      invariant q.Valid() && out.Valid() && out.emitted == Filter(p, Concat(q.blocks[..q.taken]))
      invariant ready <==> q.taken < |q.blocks| && q.taken in q.arrived
      invariant ready ==> q.nextIndex in q.heap
      decreases |q.blocks| - q.taken
    {
      FilterNext(q, out, p);
      ready := q.Ready();
    }
  }

  method FilterChunks<T(!new)>(q: Queue<T>, out: Stream<T>, p: T -> bool, chunks: seq<Chunk<T>>, ghost order: seq<nat>)
    requires q.Valid() && q.taken == 0 && q.arrived == {} && out.Valid() && out.emitted == []
    requires Delivers(chunks, q.blocks, order)
    modifies q, out
    ensures out.Valid() && out.emitted == Filter(p, Concat(q.blocks)) && q.heap == map[]
  {
    assert Concat(q.blocks[..0]) == [];
    for a := 0 to |chunks|
      invariant q.Valid() && out.Valid() && out.emitted == Filter(p, Concat(q.blocks[..q.taken]))
      invariant !(q.taken < |q.blocks| && q.taken in q.arrived)
      invariant forall k: nat :: k in q.arrived <==> k in order[..a]
    {
      ArrivesOnce(order, a);
      q.Offer(chunks[a].index, chunks[a].data, order[a]);
      FilterReady(q, out, p);
    }
    assert order[..|order|] == order;
    q.Drained();
    assert q.blocks[..|q.blocks|] == q.blocks;
  }

  // The size that FilterFile reports for n survivors.
  function FilterSize(f: Format, n: nat): nat
    requires IsFormat(f)
  {
    (FullBuffers(f, n) + 1) * f.bufferBytes
  }

  // It counts the last block as a full buffer.
  predicate FilterSizeRight(f: Format, n: nat)
    requires IsFormat(f)
  {
    FullBuffers(f, n) * (f.bufferBytes % f.size) + f.bufferBytes == Pushed(EndSize(f, n), f.size)
  }

  lemma FilterSizeIff(f: Format, n: nat)
    requires IsFormat(f)
    ensures Bytes(FullBuffers(f, n) + 1, f.bufferBytes) == WrittenSize(f, n) <==> FilterSizeRight(f, n)
  {
    Shortfall(f, FullBuffers(f, n));
    ProductStep(FullBuffers(f, n), f.bufferBytes);
  }

  // When the size of an element divides the alignment, that is the case exactly if the last
  // block fills a buffer up to the alignment.
  lemma FilterSizeDividing(f: Format, n: nat)
    requires IsFormat(f) && f.align % f.size == 0 && f.bufferBytes % f.align == 0
    ensures FilterSizeRight(f, n) <==> EndSize(f, n) == f.bufferBytes
    ensures FilterSizeRight(f, n)
       <==> f.bufferBytes - f.align < TailBytes(f, n) + METADATA_SIZE <= f.bufferBytes
  {
    DividingSizeFits(f, n);
    AlignUpBounds(TailBytes(f, n) + METADATA_SIZE, f.align);
    if EndSize(f, n) < f.bufferBytes {
      MultiplesApart(EndSize(f, n), f.bufferBytes, f.align);
    } else if EndSize(f, n) > f.bufferBytes {
      MultiplesApart(f.bufferBytes, EndSize(f, n), f.align);
    }
  }

  // With elements of eight bytes and the buffers of the library, the size reported for an empty
  // result is 1024 times too large; it is right when one element is missing from a full
  // buffer.
  lemma FilterSizeAt()
    ensures var f := Format(8, 0x40_0000, 4096);
            && IsFormat(f) && Accepted(f, 0) && MarkerKept(f, 0) && WrittenSize(f, 0) == 4096 && !FilterSizeRight(f, 0)
            && FilterSizeRight(f, 524287)
  {
  }

  // FilterFile: what the output file holds of the filtered input, and what is reported for it.
  method FilterFile<T(!new)>(layout: Layout<T>, f: Format, maxOutstanding: nat, p: T -> bool,
                             chunks: seq<Chunk<T>>, ghost blocks: seq<seq<T>>, ghost order: seq<nat>)
    returns (o: Outcome)
    requires IsLayout(layout) && IsFormat(f) && layout.size == f.size && maxOutstanding > 0
    requires Delivers(chunks, blocks, order)
    ensures IsOutcome(layout, f, o, Filter(p, Concat(blocks)))
    ensures o.fileSize == FilterSize(f, |Filter(p, Concat(blocks))|)
    ensures o.ok ==> (HasSize(o.file, o.fileSize) <==> FilterSizeRight(f, |Filter(p, Concat(blocks))|))
  {
    var q := new Queue(blocks);
    var out := new Stream(layout, f);
    ghost var part := Filter(p, Concat(blocks));
    FilterChunks(q, out, p, chunks, order);
    var endSize;
    o, endSize := FinishFile(out, maxOutstanding, part);
    o := o.(fileSize := Bytes(out.writeCount + 1, f.bufferBytes));
    FilterSizeIff(f, |part|);
    if o.ok {
      SizesAgree(o.file, WrittenSize(f, |part|), o.fileSize);
    }
  }

  lemma SizesAgree(file: File, a: nat, b: nat)
    requires HasSize(file, a)
    ensures HasSize(file, b) <==> a == b
  {
    if HasSize(file, b) {
      assert a in file <==> a < b;
      assert b in file <==> b < a;
    }
  }

  lemma ArrivesOnce(order: seq<nat>, a: nat)
    requires a < |order| && forall a, b :: 0 <= a < b < |order| ==> order[a] != order[b]
    ensures order[a] !in order[..a] && order[..a + 1] == order[..a] + [order[a]]
  {
  }
}
