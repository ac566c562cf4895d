// From the reader to the file operators: the chunks of a whole file, in whatever order the
// reader's threads deliver them, are a reordering of the file's blocks
// (utils/unordered_file_reader.h, sequence_algorithms/filter.h).
module ReadChunks {
  import opened Arithmetic
  import opened Sequences
  import opened Disk
  import RF = ReaderFiles
  import RS = ReaderState
  import opened UnorderedFileReader
  import opened OutputFormat
  import opened FileOperators

  // ---- the blocks of a sequence ------------------------------------------------------------

  function Block<T>(s: seq<T>, k: nat, j: nat): seq<T>
  {
    if j * k <= |s| then s[j * k..Min((j * k) + k, |s|)] else []
  }

  ghost function Blocks<T>(s: seq<T>, k: nat, m: nat): (r: seq<seq<T>>)
    ensures |r| == m && forall j :: 0 <= j < m ==> r[j] == Block(s, k, j)
  {
    seq(m, j requires 0 <= j < m => Block(s, k, j))
  }

  lemma {:induction false} BlocksJoin<T>(s: seq<T>, k: nat, m: nat, j: nat)
    requires k > 0 && m == RF.NumChunks(|s|, k) && j <= m
    ensures Concat(Blocks(s, k, m)[..j]) == s[..Min(j * k, |s|)]
  {
    if j > 0 {
      BlocksJoin(s, k, m, j - 1);
      RF.ChunkStarts(|s|, k, j - 1);
      StartStep(Blocks(s, k, m), j - 1);
      NextBlock(s, k, j - 1);
    }
  }

  lemma NextBlock<T>(s: seq<T>, k: nat, j: nat)
    requires j * k < |s|
    ensures s[..Min((j + 1) * k, |s|)] == s[..Min(j * k, |s|)] + Block(s, k, j)
  {
    ProductStep(j, k);
    PrefixJoin(s, j * k, k);
  }

  lemma PrefixJoin<T>(s: seq<T>, at: nat, k: nat)
    requires at <= |s|
    ensures s[..Min(at + k, |s|)] == s[..at] + s[at..Min(at + k, |s|)]
  {
  }

  lemma BlocksAre<T>(s: seq<T>, k: nat, m: nat)
    requires k > 0 && m == RF.NumChunks(|s|, k)
    ensures Concat(Blocks(s, k, m)) == s
    ensures forall j :: 0 <= j < m ==> Blocks(s, k, m)[j] != [] && StartOf(Blocks(s, k, m), j) == j * k
  {
    BlocksJoin(s, k, m, m);
    RF.ChunkStarts(|s|, k, m);
    assert Blocks(s, k, m)[..m] == Blocks(s, k, m);
    forall j | 0 <= j < m ensures Blocks(s, k, m)[j] != [] && StartOf(Blocks(s, k, m), j) == j * k {
      BlocksJoin(s, k, m, j);
      RF.ChunkStarts(|s|, k, j);
    }
  }

  // ---- orders ------------------------------------------------------------------------------

  // A rearrangement of a sequence without duplicates visits every position once.
  lemma Rearranged<X(!new)>(a: seq<X>, b: seq<X>) returns (order: seq<nat>)
    requires multiset(a) == multiset(b) && forall i, j :: 0 <= i < j < |b| ==> b[i] != b[j]
    ensures |order| == |a| && forall i :: 0 <= i < |a| ==> order[i] < |b| && a[i] == b[order[i]]
    ensures forall i, j :: 0 <= i < j < |order| ==> order[i] != order[j]
    ensures forall k: nat :: k < |b| ==> k in order
  {
    forall i | 0 <= i < |a| ensures a[i] in b {
      assert a[i] in multiset(a);
    }
    order := Positions(a, b);
    forall i, j | 0 <= i < j < |order| ensures order[i] != order[j] {
      if order[i] == order[j] {
        TwiceIn(a, i, j);
        OnceIn(b, order[i]);
      }
    }
    forall k: nat | k < |b| ensures k in order {
      assert b[k] in multiset(a);
      var i :| 0 <= i < |a| && a[i] == b[k];
      assert order[i] == k;
    }
  }

  lemma {:induction false} Positions<X>(a: seq<X>, b: seq<X>) returns (order: seq<nat>)
    requires forall i :: 0 <= i < |a| ==> a[i] in b
    ensures |order| == |a| && forall i :: 0 <= i < |a| ==> order[i] < |b| && a[i] == b[order[i]]
  {
    if a == [] {
      order := [];
    } else {
      var rest := Positions(a[1..], b);
      var p :| 0 <= p < |b| && b[p] == a[0];
      order := [p] + rest;
    }
  }

  lemma OnceIn<X>(b: seq<X>, k: nat)
    requires k < |b| && forall i, j :: 0 <= i < j < |b| ==> b[i] != b[j]
    ensures multiset(b)[b[k]] == 1
  {
    assert b == b[..k] + [b[k]] + b[k + 1..];
    assert b[k] !in b[..k] && b[k] !in b[k + 1..];
  }

  // ---- what the reader delivers ------------------------------------------------------------

  // The elements of a chunk that the reader has read.
  function Loaded<T>(s: seq<T>, size: nat, c: RF.Chunk): Chunk<T>
    requires size > 0
  {
    var from, n := c.offset / size, c.size / size;
    Chunk(from, if from + n <= |s| then s[from..from + n] else [])
  }

  function LoadAll<T>(s: seq<T>, size: nat, cs: seq<RF.Chunk>): (r: seq<Chunk<T>>)
    requires size > 0
    ensures |r| == |cs| && forall a :: 0 <= a < |cs| ==> r[a] == Loaded(s, size, cs[a])
  {
    seq(|cs|, a requires 0 <= a < |cs| => Loaded(s, size, cs[a]))
  }

  // Without a bitmap every chunk of the file is active.
  lemma {:induction false} EveryChunk(f: RF.FileInfo, readSize: nat, idx: nat)
    requires readSize > 0 && f.words == None && idx <= RF.NumChunks(f.size, readSize)
    ensures |RF.ActiveFrom(f, readSize, idx)| == RF.NumChunks(f.size, readSize) - idx
    ensures forall j :: idx <= j < RF.NumChunks(f.size, readSize) ==>
              j * readSize <= f.size && RF.ActiveFrom(f, readSize, idx)[j - idx] == RF.ChunkAt(f, readSize, j)
    decreases RF.NumChunks(f.size, readSize) - idx
  {
    if idx < RF.NumChunks(f.size, readSize) {
      RF.ChunkStarts(f.size, readSize, idx);
      EveryChunk(f, readSize, idx + 1);
    }
  }

  // Byte sizes that are whole numbers of elements.
  lemma Scaled(a: nat, size: nat)
    requires size > 0
    ensures (a * size) / size == a
  {
    MulMod(a, size);
  }

  // The j-th chunk of a file of whole elements is the j-th block of its elements.
  lemma ChunkIsBlock<T>(f: RF.FileInfo, s: seq<T>, size: nat, k: nat, j: nat)
    requires size > 0 && k > 0 && f.size == |s| * size && j * (k * size) < f.size
    ensures Loaded(s, size, RF.ChunkAt(f, k * size, j)) == Chunk(j * k, Block(s, k, j))
    ensures j * k < |s|
  {
    var c := RF.ChunkAt(f, k * size, j);
    assert j * (k * size) == (j * k) * size;
    ProductMonotone(|s|, j * k, size);
    Scaled(j * k, size);
    var n := Min(k, |s| - j * k);
    assert (|s| - j * k) * size == |s| * size - (j * k) * size;
    ProductMonotone(k, |s| - j * k, size);
    ProductMonotone(|s| - j * k, k, size);
    assert c.size == n * size;
    Scaled(n, size);
  }

  lemma ChunkCounts(n: nat, size: nat, k: nat)
    requires size > 0 && k > 0
    ensures RF.NumChunks(n * size, k * size) == RF.NumChunks(n, k)
  {
    var a, b := RF.NumChunks(n * size, k * size), RF.NumChunks(n, k);
    assert k * size > 0;
    SameCount(n, size, k, a);
    SameCount(n, size, k, b);
    RF.ChunkStarts(n * size, k * size, a);
    RF.ChunkStarts(n, k, b);
    RF.ChunkStarts(n * size, k * size, b);
    RF.ChunkStarts(n, k, a);
  }

  lemma SameCount(n: nat, size: nat, k: nat, j: nat)
    requires size > 0
    ensures j * (k * size) < n * size <==> j * k < n
  {
    assert j * (k * size) == (j * k) * size;
    ProductMonotone(n, j * k, size);
    ProductMonotone(j * k + 1, n, size);
    ProductStep(j * k, size);
  }

  // Whatever the order of deliveries, they are the blocks of the file, each once.
  lemma DeliveriesAreBlocks<T(!new)>(f: RF.FileInfo, s: seq<T>, size: nat, k: nat, delivered: seq<RF.Chunk>)
    returns (order: seq<nat>)
    requires size > 0 && k > 0 && f.size == |s| * size && f.words == None
    requires multiset(delivered) == multiset(RF.ActiveFrom(f, k * size, 0))
    ensures Delivers(LoadAll(s, size, delivered), Blocks(s, k, RF.NumChunks(|s|, k)), order)
  {
    var m := RF.NumChunks(|s|, k);
    var all := RF.ActiveFrom(f, k * size, 0);
    ChunkCounts(|s|, size, k);
    EveryChunk(f, k * size, 0);
    forall i, j | 0 <= i < j < |all| ensures all[i] != all[j] {
      RF.ChunkStarts(f.size, k * size, i);
      RF.ChunkStarts(f.size, k * size, j);
      ProductMonotone(i + 1, j, k * size);
      ProductStep(i, k * size);
    }
    order := Rearranged(delivered, all);
    BlocksAre(s, k, m);
    var chunks, blocks := LoadAll(s, size, delivered), Blocks(s, k, m);
    forall a | 0 <= a < |order|
      ensures order[a] < m && chunks[a] == Chunk(StartOf(blocks, order[a]), blocks[order[a]])
    {
      RF.ChunkStarts(f.size, k * size, order[a]);
      ChunkIsBlock(f, s, size, k, order[a]);
    }
  }

  // ---- filtering a file --------------------------------------------------------------------

  // The reader's worker threads, the reordering and the writer together: whatever is scheduled
  // when, the output file is the outcome for the filtered elements of the input file.
  method ReadAndFilter<T(!new)>(layout: Layout<T>, format: Format, f: RF.FileInfo, s: seq<T>, k: nat, numThreads: nat,
                                maxRequests: nat, queueLimit: nat, maxOutstanding: nat, p: T -> bool)
    returns (o: Outcome)
    requires IsLayout(layout) && IsFormat(format) && layout.size == format.size && maxOutstanding > 0
    requires numThreads > 0 && maxRequests > 0 && k > 0 && f.size == |s| * layout.size && f.words == None
    ensures IsOutcome(layout, format, o, Filter(p, s))
    ensures o.fileSize == FilterSize(format, |Filter(p, s)|)
    ensures o.ok ==> (HasSize(o.file, o.fileSize) <==> FilterSizeRight(format, |Filter(p, s)|))
  {
    var delivered := ReadFile(f, k * layout.size, numThreads, maxRequests, queueLimit);
    ghost var order := DeliveriesAreBlocks(f, s, layout.size, k, delivered);
    ghost var blocks := Blocks(s, k, RF.NumChunks(|s|, k));
    BlocksAre(s, k, RF.NumChunks(|s|, k));
    o := FilterFile(layout, format, maxOutstanding, p, LoadAll(s, layout.size, delivered), blocks, order);
  }

  // All polls of a reader of one file.
  method ReadFile(f: RF.FileInfo, readSize: nat, numThreads: nat, maxRequests: nat, queueLimit: nat)
    returns (delivered: seq<RF.Chunk>)
    requires readSize > 0 && numThreads > 0 && maxRequests > 0
    ensures multiset(delivered) == multiset(RF.ActiveFrom(f, readSize, 0))
  {
    var reader := new FileReader(RS.Config(readSize, maxRequests, queueLimit), [f], numThreads);
    reader.RunToCompletion();
    delivered := reader.delivered;
    OneFile(f, readSize);
  }

  lemma OneFile(f: RF.FileInfo, readSize: nat)
    requires readSize > 0
    ensures RS.AllActive(readSize, [f]) == multiset(RF.ActiveFrom(f, readSize, 0))
  {
    assert [f][..0] == [];
    assert RS.AllActive(readSize, []) == multiset{};
  }
}
