// The two-pass scan together with the readers of its files (Plaidlay/NaiveExternalScan.h).
module ScanFiles {
  import opened Sequences
  import opened Disk
  import RF = ReaderFiles
  import opened FileOperators
  import opened Numbers
  import opened FileScan
  import opened ReadChunks

  // A reader's settings; k is the number of elements of a full chunk.
  datatype Reading = Reading(k: nat, numThreads: nat, maxRequests: nat, queueLimit: nat)

  ghost predicate CanRead(r: Reading)
  {
    r.k > 0 && r.numThreads > 0 && r.maxRequests > 0
  }

  ghost function BlocksOf<T>(inputs: seq<seq<T>>, k: nat): (r: seq<seq<seq<T>>>)
    requires k > 0
    ensures |r| == |inputs| && forall i :: 0 <= i < |r| ==> r[i] == Blocks(inputs[i], k, RF.NumChunks(|inputs[i]|, k))
  {
    seq(|inputs|, i requires 0 <= i < |inputs| => Blocks(inputs[i], k, RF.NumChunks(|inputs[i]|, k)))
  }

  lemma InputsOfBlocks<T>(inputs: seq<seq<T>>, k: nat)
    requires k > 0
    ensures Inputs(BlocksOf(inputs, k)) == inputs
  {
    forall i | 0 <= i < |inputs| ensures Inputs(BlocksOf(inputs, k))[i] == inputs[i] {
      BlocksAre(inputs[i], k, RF.NumChunks(|inputs[i]|, k));
    }
  }

  // One pass over one file.
  method ReadElements<T(!new)>(r: Reading, size: nat, f: RF.FileInfo, s: seq<T>)
    returns (chunks: seq<Chunk<T>>, ghost order: seq<nat>)
    requires CanRead(r) && size > 0 && f.size == |s| * size && f.words == None && r.k * size > 0
    ensures Delivers(chunks, Blocks(s, r.k, RF.NumChunks(|s|, r.k)), order)
  {
    var delivered := ReadFile(f, r.k * size, r.numThreads, r.maxRequests, r.queueLimit);
    order := DeliveriesAreBlocks(f, s, size, r.k, delivered);
    chunks := LoadAll(s, size, delivered);
  }

  ghost predicate AreFiles<T>(infos: seq<RF.FileInfo>, inputs: seq<seq<T>>, size: nat)
  {
    |infos| == |inputs| && forall i {:trigger infos[i]} :: 0 <= i < |infos| ==>
        infos[i].size == |inputs[i]| * size && infos[i].words == None
  }

  // What one file's two reads deliver.
  ghost predicate DeliveredTwice<T>(pass: Reads<T>, blocks: seq<seq<T>>, first: seq<nat>, second: seq<nat>)
  {
    Delivers(pass.first, blocks, first) && Delivers(pass.second, blocks, second)
  }

  ghost predicate Delivered<T>(passes: seq<Reads<T>>, blocks: seq<seq<seq<T>>>, first: seq<seq<nat>>,
                               second: seq<seq<nat>>)
  {
    && |passes| == |first| == |second| <= |blocks|
    && forall i {:trigger DeliveredTwice(passes[i], blocks[i], first[i], second[i])} :: 0 <= i < |passes| ==>
         DeliveredTwice(passes[i], blocks[i], first[i], second[i])
  }

  method ReadTwice<T(!new)>(r: Reading, size: nat, f: RF.FileInfo, s: seq<T>)
    returns (pass: Reads<T>, ghost first: seq<nat>, ghost second: seq<nat>)
    requires CanRead(r) && size > 0 && f.size == |s| * size && f.words == None && r.k * size > 0
    ensures DeliveredTwice(pass, Blocks(s, r.k, RF.NumChunks(|s|, r.k)), first, second)
  {
    var a, b;
    a, first := ReadElements(r, size, f, s);
    b, second := ReadElements(r, size, f, s);
    pass := Reads(a, b);
  }

  method ReadBothPasses<T(!new)>(r: Reading, size: nat, infos: seq<RF.FileInfo>, inputs: seq<seq<T>>)
    returns (passes: seq<Reads<T>>, ghost first: seq<seq<nat>>, ghost second: seq<seq<nat>>)
    requires CanRead(r) && size > 0 && r.k * size > 0 && AreFiles(infos, inputs, size)
    ensures |passes| == |inputs| && Delivered(passes, BlocksOf(inputs, r.k), first, second)
  {
    passes, first, second := [], [], [];
    for i := 0 to |infos|
      invariant |passes| == i && Delivered(passes, BlocksOf(inputs, r.k), first, second)
    {
      assert infos[i].size == |inputs[i]| * size;
      var pass;
      ghost var p, q;
      pass, p, q := ReadTwice(r, size, infos[i], inputs[i]);
      OneMoreFile(passes, BlocksOf(inputs, r.k), first, second, pass, p, q);
      passes, first, second := passes + [pass], first + [p], second + [q];
    }
  }

  lemma OneMoreFile<T>(passes: seq<Reads<T>>, blocks: seq<seq<seq<T>>>, first: seq<seq<nat>>, second: seq<seq<nat>>,
                       pass: Reads<T>, p: seq<nat>, q: seq<nat>)
    requires Delivered(passes, blocks, first, second) && |passes| < |blocks|
    requires DeliveredTwice(pass, blocks[|passes|], p, q)
    ensures Delivered(passes + [pass], blocks, first + [p], second + [q])
  {
    var passes', first', second' := passes + [pass], first + [p], second + [q];
    forall i | 0 <= i < |passes'| ensures DeliveredTwice(passes'[i], blocks[i], first'[i], second'[i]) {
      assert i < |passes| ==> DeliveredTwice(passes[i], blocks[i], first[i], second[i]);
    }
  }

  lemma EachDelivered<T>(passes: seq<Reads<T>>, blocks: seq<seq<seq<T>>>, first: seq<seq<nat>>, second: seq<seq<nat>>)
    requires Delivered(passes, blocks, first, second)
    ensures forall i :: 0 <= i < |passes| ==> Delivers(passes[i].first, blocks[i], first[i])
    ensures forall i :: 0 <= i < |passes| ==> Delivers(passes[i].second, blocks[i], second[i])
  {
    forall i | 0 <= i < |passes|
      ensures Delivers(passes[i].first, blocks[i], first[i]) && Delivers(passes[i].second, blocks[i], second[i])
    {
      assert DeliveredTwice(passes[i], blocks[i], first[i], second[i]);
    }
  }

  // For every interleaving of the readers' and the writers' threads, the output files are the
  // outcomes for parts which are together the exclusive prefix sums of the concatenated input
  // files; the part of a file has as many elements as the file.
  method ScanInputs<T(!new)>(c: Output<T>, num: Num<T>, r: Reading, infos: seq<RF.FileInfo>, inputs: seq<seq<T>>)
    returns (results: seq<Outcome>, ghost parts: seq<seq<T>>)
    requires CanWrite(c) && IsInteger(num) && CanRead(r) && AreFiles(infos, inputs, c.layout.size)
    requires r.k * c.layout.size > 0
    ensures AllResults(c, results, parts)
    ensures Concat(parts) == ScanFrom(num, num.zero, Concat(inputs))
    ensures |parts| == |inputs| && forall i :: 0 <= i < |parts| ==> |parts[i]| == |inputs[i]|
  {
    var passes;
    ghost var first, second;
    passes, first, second := ReadBothPasses(r, c.layout.size, infos, inputs);
    ghost var blocks := BlocksOf(inputs, r.k);
    EachDelivered(passes, blocks, first, second);
    InputsOfBlocks(inputs, r.k);
    results, parts := Scan(c, num, passes, blocks, first, second);
  }

  // With an element size that divides the alignment every file stores its part, with the sizes
  // reported for it.
  lemma DividingResults<T(!new)>(c: Output<T>, results: seq<Outcome>, parts: seq<seq<T>>)
    requires CanWrite(c) && AllResults(c, results, parts)
    requires c.format.align % c.format.size == 0 && c.format.bufferBytes % c.format.align == 0
    ensures forall i :: 0 <= i < |results| ==> results[i].ok && results[i].trueSize == |Encode(c.layout, parts[i])|
    ensures forall i :: 0 <= i < |results| ==> StoresPart(c.layout, results[i].file, results[i].fileSize, parts[i])
  {
    forall i | 0 <= i < |results|
      ensures results[i].ok && results[i].trueSize == |Encode(c.layout, parts[i])|
           && StoresPart(c.layout, results[i].file, results[i].fileSize, parts[i])
    {
      DividingResult(c, results[i], parts[i]);
    }
  }
}
