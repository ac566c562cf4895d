// The chunks of a file and which of them are to be read (utils/unordered_file_reader.h).
module ReaderFiles {
  import opened Arithmetic
  import opened Sequences

  // A word of the bitmap, from its lowest bit on.
  type Row = r: seq<bool> | |r| == 64 witness seq(64, _ => false)

  // words: what the pointer to the bitmap of active chunks leads to, in rows of 64 flags; None if
  // the pointer is null. It is null for an empty vector without storage, too, so a file that is
  // given such a vector is read in full and one given an empty vector with storage not at all.
  datatype FileInfo = FileInfo(index: nat, size: nat, words: Option<seq<Row>>)

  datatype Chunk = Chunk(fileIndex: nat, offset: nat, size: nat)

  // The number of chunks, rounded up.
  function NumChunks(size: nat, readSize: nat): nat
    requires readSize > 0
  {
    (size + readSize - 1) / readSize
  }

  function ChunkActive(f: FileInfo, idx: nat): bool
  {
    match f.words
    case None => true
    case Some(words) =>
      idx / 64 < |words| && words[idx / 64][idx % 64]
  }

  // All flags of the bitmap, one for each chunk.
  ghost function Flags(words: seq<Row>): (flags: seq<bool>)
  {
    if words == [] then [] else Flags(words[..|words| - 1]) + words[|words| - 1]
  }

  // Without a bitmap every chunk is to be read, and with one those that have a flag that is set.
  ghost predicate Flagged(f: FileInfo, idx: nat)
  {
    match f.words
    case None => true
    case Some(words) => idx < |Flags(words)| && Flags(words)[idx]
  }

  lemma {:induction false} FlagAt(words: seq<Row>, idx: nat)
    ensures |Flags(words)| == 64 * |words|
    ensures idx < |Flags(words)| ==> Flags(words)[idx] == words[idx / 64][idx % 64]
  {
    if words != [] {
      var n := |words| - 1;
      FlagAt(words[..n], idx);
      if 64 * n <= idx < 64 * n + 64 {
        Remainder(n, idx - 64 * n, 64);
        DivMod(idx, 64);
      }
    }
  }

  lemma ActiveIffFlagged(f: FileInfo, idx: nat)
    ensures ChunkActive(f, idx) <==> Flagged(f, idx)
  {
    if f.words.Some? {
      FlagAt(f.words.value, idx);
      DivMod(idx, 64);
    }
  }

  function ChunkAt(f: FileInfo, readSize: nat, idx: nat): Chunk
    requires idx * readSize <= f.size
  {
    Chunk(f.index, idx * readSize, Min(readSize, f.size - idx * readSize))
  }

  lemma ChunkStarts(size: nat, readSize: nat, idx: nat)
    requires readSize > 0
    ensures idx < NumChunks(size, readSize) <==> idx * readSize < size
  {
    var q := NumChunks(size, readSize);
    QuotientBounds(size + readSize - 1, readSize);
    ProductMonotone(idx + 1, q, readSize);
    ProductMonotone(q, idx, readSize);
    assert (idx + 1) * readSize == idx * readSize + readSize;
  }

  // The active chunks from chunk idx on, in order.
  ghost function ActiveFrom(f: FileInfo, readSize: nat, idx: nat): (r: seq<Chunk>)
    requires readSize > 0
    decreases NumChunks(f.size, readSize) - idx
  {
    if idx >= NumChunks(f.size, readSize) then []
    else
      ChunkStarts(f.size, readSize, idx);
      (if Flagged(f, idx) then [ChunkAt(f, readSize, idx)] else []) + ActiveFrom(f, readSize, idx + 1)
  }

  // bytes_issued is at the start of a chunk or at the end of the file.
  ghost predicate AtChunk(f: FileInfo, readSize: nat, issued: nat, idx: nat)
  {
    issued == Min(idx * readSize, f.size)
  }

  // What the loop finds at the start of chunk k.
  lemma AtActive(f: FileInfo, readSize: nat, at: nat, k: nat)
    requires readSize > 0 && k <= NumChunks(f.size, readSize) && AtChunk(f, readSize, at, k)
    ensures at < f.size <==> k < NumChunks(f.size, readSize)
    ensures at < f.size ==> at == k * readSize && at / readSize == k
    ensures at < f.size ==> ChunkAt(f, readSize, k) == Chunk(f.index, at, Min(readSize, f.size - at))
  {
    ChunkStarts(f.size, readSize, k);
    if at < f.size {
      IndexOf(at, readSize, k);
    }
  }

  // advance_to_active: skips inactive chunks; succeeds when it has found an active one.
  method AdvanceToActive(f: FileInfo, readSize: nat, issued: nat, ghost idx: nat)
    returns (found: bool, at: nat, ghost k: nat)
    requires readSize > 0 && AtChunk(f, readSize, issued, idx) && idx <= NumChunks(f.size, readSize)
    ensures idx <= k <= NumChunks(f.size, readSize) && AtChunk(f, readSize, at, k)
    ensures ActiveFrom(f, readSize, k) == ActiveFrom(f, readSize, idx)
    ensures found <==> ActiveFrom(f, readSize, idx) != []
    ensures found ==> at < f.size && at == k * readSize && at / readSize == k
    ensures found ==>
              ActiveFrom(f, readSize, k)
              == [Chunk(f.index, at, Min(readSize, f.size - at))] + ActiveFrom(f, readSize, k + 1)
  {
    at, k := issued, idx;
    while at < f.size
      invariant idx <= k <= NumChunks(f.size, readSize) && AtChunk(f, readSize, at, k)
      invariant ActiveFrom(f, readSize, k) == ActiveFrom(f, readSize, idx)
      decreases NumChunks(f.size, readSize) - k
    {
      AtActive(f, readSize, at, k);
      ActiveIffFlagged(f, k);
      if ChunkActive(f, at / readSize) {
        return true, at, k;
      }
      NextChunk(f, readSize, at, k);
      at := at + Min(readSize, f.size - at);
      k := k + 1;
    }
    AtActive(f, readSize, at, k);
    found := false;
  }

  lemma IndexOf(at: nat, readSize: nat, k: nat)
    requires readSize > 0 && at == k * readSize
    ensures at / readSize == k
  {
    QuotientBounds(at, readSize);
    ProductMonotone(at / readSize + 1, k, readSize);
    ProductMonotone(k + 1, at / readSize, readSize);
    assert (at / readSize + 1) * readSize == at / readSize * readSize + readSize;
    assert (k + 1) * readSize == k * readSize + readSize;
  }

  // The chunk after the one just issued.
  lemma NextChunk(f: FileInfo, readSize: nat, at: nat, k: nat)
    requires readSize > 0 && k < NumChunks(f.size, readSize) && AtChunk(f, readSize, at, k)
    ensures at < f.size && AtChunk(f, readSize, at + Min(readSize, f.size - at), k + 1)
  {
    ChunkStarts(f.size, readSize, k);
    assert (k + 1) * readSize == k * readSize + readSize;
  }

  // The number of chunks the worker plans to read.
  method CountActive(f: FileInfo, readSize: nat) returns (count: nat)
    requires readSize > 0
    ensures count == |ActiveFrom(f, readSize, 0)|
  {
    var total := NumChunks(f.size, readSize);
    if f.words == None {
      AllActive(f, readSize, 0);
      return total;
    }
    count := 0;
    var c := 0;
    while c < total
      invariant 0 <= c <= total && count + |ActiveFrom(f, readSize, c)| == |ActiveFrom(f, readSize, 0)|
    {
      ActiveIffFlagged(f, c);
      if ChunkActive(f, c) {
        count := count + 1;
      }
      c := c + 1;
    }
  }

  lemma {:induction false} AllActive(f: FileInfo, readSize: nat, idx: nat)
    requires readSize > 0 && f.words == None && idx <= NumChunks(f.size, readSize)
    ensures |ActiveFrom(f, readSize, idx)| == NumChunks(f.size, readSize) - idx
    decreases NumChunks(f.size, readSize) - idx
  {
    if idx < NumChunks(f.size, readSize) {
      AllActive(f, readSize, idx + 1);
    }
  }

  lemma ChunksDiffer(f: FileInfo, readSize: nat, i: nat, k: nat)
    requires readSize > 0 && i != k && i * readSize < f.size && k * readSize < f.size
    ensures ChunkAt(f, readSize, i) != ChunkAt(f, readSize, k)
  {
    IndexOf(i * readSize, readSize, i);
    IndexOf(k * readSize, readSize, k);
  }

  // The chunks from chunk from on are the chunk itself, if it is active, and the later ones.
  lemma CountFrom(f: FileInfo, readSize: nat, from: nat, x: Chunk)
    requires readSize > 0 && from < NumChunks(f.size, readSize) && from * readSize < f.size
    ensures multiset(ActiveFrom(f, readSize, from))[x]
         == (if Flagged(f, from) && x == ChunkAt(f, readSize, from) then 1 else 0)
            + multiset(ActiveFrom(f, readSize, from + 1))[x]
  {
    var head := if Flagged(f, from) then [ChunkAt(f, readSize, from)] else [];
    assert multiset(head + ActiveFrom(f, readSize, from + 1))
        == multiset(head) + multiset(ActiveFrom(f, readSize, from + 1));
  }

  // A chunk is listed exactly when it is active, once, with its own offset and size.
  lemma {:induction false} ActiveChunks(f: FileInfo, readSize: nat, from: nat, idx: nat)
    requires readSize > 0 && from <= NumChunks(f.size, readSize) && idx * readSize < f.size
    ensures multiset(ActiveFrom(f, readSize, from))[ChunkAt(f, readSize, idx)]
         == if from <= idx && Flagged(f, idx) then 1 else 0
    decreases NumChunks(f.size, readSize) - from
  {
    ChunkStarts(f.size, readSize, idx);
    if from < NumChunks(f.size, readSize) {
      ChunkStarts(f.size, readSize, from);
      ActiveChunks(f, readSize, from + 1, idx);
      CountFrom(f, readSize, from, ChunkAt(f, readSize, idx));
      if from != idx {
        ChunksDiffer(f, readSize, from, idx);
      }
    }
  }

  // c is one of the chunks of the file whose flags are set.
  ghost predicate IsFlagged(f: FileInfo, readSize: nat, c: Chunk)
  {
    exists idx: nat :: idx * readSize < f.size && Flagged(f, idx) && c == ChunkAt(f, readSize, idx)
  }

  // Those are the chunks to be read, each once.
  lemma ListedIffFlagged(f: FileInfo, readSize: nat, c: Chunk)
    requires readSize > 0
    ensures multiset(ActiveFrom(f, readSize, 0))[c] == if IsFlagged(f, readSize, c) then 1 else 0
  {
    if IsFlagged(f, readSize, c) {
      var idx: nat :| idx * readSize < f.size && Flagged(f, idx) && c == ChunkAt(f, readSize, idx);
      ActiveChunks(f, readSize, 0, idx);
    } else {
      NotFlagged(f, readSize, 0, c);
    }
  }

  lemma {:induction false} NotFlagged(f: FileInfo, readSize: nat, from: nat, c: Chunk)
    requires readSize > 0 && from <= NumChunks(f.size, readSize) && !IsFlagged(f, readSize, c)
    ensures multiset(ActiveFrom(f, readSize, from))[c] == 0
    decreases NumChunks(f.size, readSize) - from
  {
    if from < NumChunks(f.size, readSize) {
      ChunkStarts(f.size, readSize, from);
      NotFlagged(f, readSize, from + 1, c);
      CountFrom(f, readSize, from, c);
    }
  }
}
