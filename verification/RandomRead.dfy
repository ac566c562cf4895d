// Reading elements at random global positions with aligned reads
// (utils/random_read.h).
module RandomRead {
  import opened Arithmetic
  import opened Sequences
  import opened Disk
  import Routing

  function AlignDown(n: nat, align: nat): nat
    requires align > 0
  {
    n / align * align
  }

  // GetRandomBatchReadBufferSize
  function BufferSize(size: nat, align: nat): nat
    requires align > 0
  {
    AlignUp(size + align - 1, align)
  }

  // ---- one request -------------------------------------------------------------------------

  // Where the files end in the concatenation of their contents.
  ghost function EndOf(files: seq<seq<Byte>>, i: nat): nat
    requires i < |files|
  {
    |Concat(files[..i + 1])|
  }

  method PrefixSums(files: seq<seq<Byte>>) returns (sums: seq<nat>)
    ensures |sums| == |files| && forall i :: 0 <= i < |files| ==> sums[i] == EndOf(files, i)
  {
    sums := [];
    for i := 0 to |files|
      invariant |sums| == i && forall k :: 0 <= k < i ==> sums[k] == EndOf(files, k)
    {
      StartStep(files, i);
      assert files[..0] == [];
      sums := sums + [|files[i]| + if i == 0 then 0 else sums[i - 1]];
    }
  }

  // Every file is a whole number of aligned blocks.
  ghost predicate AlignedFiles(files: seq<seq<Byte>>, align: nat)
  {
    align > 0 && forall i :: 0 <= i < |files| ==> |files[i]| % align == 0
  }

  lemma {:induction false} EndsAligned(files: seq<seq<Byte>>, align: nat, n: nat)
    requires AlignedFiles(files, align) && n <= |files|
    ensures |Concat(files[..n])| % align == 0
  {
    if n == 0 {
      SmallRemainder(0, align);
    } else {
      EndsAligned(files, align, n - 1);
      StartStep(files, n - 1);
      AddMod(|Concat(files[..n - 1])|, |files[n - 1]|, align);
    }
  }

  // An aligned block that begins within a whole number of blocks also ends within them.
  lemma BlockFits(start: nat, end: nat, align: nat)
    requires align > 0 && start % align == 0 && end % align == 0 && start < end
    ensures start + align <= end
  {
    DivMod(start, align);
    DivMod(end, align);
    ProductMonotone(end / align, start / align, align);
    ProductStep(start / align, align);
    ProductMonotone(start / align + 1, end / align, align);
  }

  // An element never crosses a boundary of aligned blocks, so one block is read.
  lemma ElementInBlock(r: nat, size: nat, align: nat)
    requires align > 0 && size > 0 && align % size == 0
    ensures var off := r * size;
            AlignDown(off, align) <= off && off + size <= AlignDown(off, align) + align
    ensures AlignUp(r * size + size, align) == AlignDown(r * size, align) + align
    ensures AlignDown(r * size, align) % align == 0
  {
    var off := r * size;
    var start := AlignDown(off, align);
    QuotientBounds(off, align);
    MulMod(off / align, align);
    var k := align / size;
    DivMod(align, size);
    var q := off / align;
    assert start == (q * k) * size by {
      assert q * (k * size) == (q * k) * size;
    }
    assert start + align == (q * k + k) * size;
    ProductMonotone(q * k + k, r, size);
    ProductMonotone(r + 1, q * k + k, size);
    ProductStep(r, size);
    AlignsTo(off + size, align, q);
  }

  lemma AlignsTo(x: nat, align: nat, q: nat)
    requires align > 0 && q * align < x <= q * align + align
    ensures AlignUp(x, align) == q * align + align
  {
    var p := (x + align - 1) / align;
    QuotientBounds(x + align - 1, align);
    ProductStep(q, align);
    ProductStep(q + 1, align);
    ProductMonotone(p, q, align);
    ProductMonotone(q + 2, p, align);
    ProductStep(p, align);
  }

  // The element at global position r of the concatenated files.
  ghost function ElementAt(files: seq<seq<Byte>>, size: nat, r: nat): (e: seq<Byte>)
    requires r * size + size <= |Concat(files)|
  {
    Concat(files)[r * size..r * size + size]
  }

  // What pread returns for the read that serves request r, and where the element is in it.
  datatype Read = Read(data: seq<Byte>, offset: nat)

  // The read for one request; it fails exactly if the position is beyond the last file.
  method PrepareRead(files: seq<seq<Byte>>, sums: seq<nat>, size: nat, align: nat, r: nat) returns (read: Option<Read>)
    requires AlignedFiles(files, align) && size > 0 && align % size == 0
    requires |sums| == |files| && forall i :: 0 <= i < |files| ==> sums[i] == EndOf(files, i)
    ensures read.None? <==> r * size + size > |Concat(files)|
    ensures read.Some? ==> read.value.offset + size <= |read.value.data| <= BufferSize(size, align)
    ensures read.Some? ==> read.value.data[read.value.offset..read.value.offset + size] == ElementAt(files, size, r)
  {
    var byteOffset := r * size;
    var start, end := AlignDown(byteOffset, align), AlignUp(byteOffset + size, align);
    ElementInBlock(r, size, align);
    var fileNum := Routing.UpperBound(sums, start, (a: nat, b: nat) => a < b);
    FileExists(files, align, sums, start, fileNum);
    if fileNum >= |files| {
      return None;
    }
    var base := if fileNum == 0 then 0 else sums[fileNum - 1];
    InFile(files, align, sums, start, fileNum);
    var data := files[fileNum][start - base..end - base];
    BufferFits(size, align);
    SliceOfSlice(Concat(files), start, end, byteOffset - start, size);
    read := Some(Read(data, byteOffset - start));
  }

  lemma SliceOfSlice<X>(s: seq<X>, start: nat, end: nat, offset: nat, size: nat)
    requires start + offset + size <= end <= |s|
    ensures s[start..end][offset..offset + size] == s[start + offset..start + offset + size]
  {
    var block, at := s[start..end], start + offset;
    var a, b := block[offset..offset + size], s[at..at + size];
    forall i | 0 <= i < size ensures a[i] == b[i] {
      assert block[offset + i] == s[start + (offset + i)];
    }
  }

  lemma BufferFits(size: nat, align: nat)
    requires size > 0 && align > 0
    ensures align <= BufferSize(size, align)
  {
    AlignUpBounds(size + align - 1, align);
  }

  // The block at start lies in the file that upper_bound finds.
  lemma InFile(files: seq<seq<Byte>>, align: nat, sums: seq<nat>, start: nat, f: nat)
    requires AlignedFiles(files, align) && start % align == 0
    requires |sums| == |files| && forall i :: 0 <= i < |files| ==> sums[i] == EndOf(files, i)
    requires f < |files| && start < sums[f] && forall j :: 0 <= j < f ==> sums[j] <= start
    ensures var base := if f == 0 then 0 else sums[f - 1];
            base <= start && start + align <= base + |files[f]| && start + align <= |Concat(files)|
            && files[f][start - base..start + align - base] == Concat(files)[start..start + align]
  {
    var base := if f == 0 then 0 else sums[f - 1];
    assert f == 0 ==> files[..0] == [];
    assert base == StartOf(files, f);
    StartStep(files, f);
    EndsAligned(files, align, f + 1);
    BlockFits(start, sums[f], align);
    ConcatSplit(files, f + 1);
    SliceInMiddle(Concat(files[..f]), files[f], Concat(files[f + 1..]), start - base, align);
  }

  lemma SliceInMiddle<X>(a: seq<X>, m: seq<X>, b: seq<X>, offset: nat, size: nat)
    requires offset + size <= |m|
    ensures m[offset..offset + size] == (a + m + b)[|a| + offset..|a| + offset + size]
  {
  }

  // There is a file for the block exactly if the whole block is within the data.
  lemma FileExists(files: seq<seq<Byte>>, align: nat, sums: seq<nat>, start: nat, f: nat)
    requires AlignedFiles(files, align) && start % align == 0
    requires |sums| == |files| && forall i :: 0 <= i < |files| ==> sums[i] == EndOf(files, i)
    requires f <= |files| && (forall j :: 0 <= j < f ==> sums[j] <= start) && (f < |files| ==> start < sums[f])
    ensures f < |files| ==> start + align <= |Concat(files)|
    ensures f == |files| ==> |Concat(files)| <= start
  {
    if f < |files| {
      InFile(files, align, sums, start, f);
    } else {
      assert files[..|files|] == files;
      assert |files| > 0 ==> sums[f - 1] == |Concat(files)|;
    }
  }

  // ---- the buffer pool and the ring --------------------------------------------------------

  // next: the requests prepared so far. free is a stack of buffers; pending are prepared but not
  // submitted, ring are submitted; buffers says what each of these reads returns.
  datatype State = State(next: nat, free: seq<nat>, pending: seq<nat>, ring: seq<nat>, buffers: map<nat, Read>,
                         results: seq<seq<Byte>>)

  function Element(read: Read, size: nat): seq<Byte>
  {
    if read.offset + size <= |read.data| then read.data[read.offset..read.offset + size] else []
  }

  ghost function Expected(files: seq<seq<Byte>>, size: nat, requests: seq<nat>): (r: seq<seq<Byte>>)
    ensures |r| == |requests|
    ensures forall k :: 0 <= k < |requests| && requests[k] * size + size <= |Concat(files)| ==>
              r[k] == ElementAt(files, size, requests[k])
  {
    seq(|requests|, k requires 0 <= k < |requests| =>
      if requests[k] * size + size <= |Concat(files)| then ElementAt(files, size, requests[k]) else [])
  }

  // What the reads of the given buffers return.
  ghost function Held(buffers: map<nat, Read>, ids: seq<nat>, size: nat): (r: seq<seq<Byte>>)
    ensures |r| == |ids| && forall k :: 0 <= k < |ids| && ids[k] in buffers ==> r[k] == Element(buffers[ids[k]], size)
  {
    seq(|ids|, k requires 0 <= k < |ids| => if ids[k] in buffers then Element(buffers[ids[k]], size) else [])
  }

  function Ids(n: nat): (r: seq<nat>)
    ensures |r| == n && forall k :: 0 <= k < n ==> r[k] == k
  {
    seq(n, k => k)
  }

  ghost predicate Conserved(s: State, expected: seq<seq<Byte>>, size: nat)
    requires s.next <= |expected|
  {
    multiset(s.results) + multiset(Held(s.buffers, s.pending + s.ring, size)) == multiset(expected[..s.next])
  }

  // Every buffer is free, pending or in the ring, and every prepared request has its element
  // either in a buffer or among the results.
  ghost predicate Inv(s: State, expected: seq<seq<Byte>>, size: nat, numBuffers: nat)
  {
    && s.next <= |expected|
    && multiset(s.free) + multiset(s.pending + s.ring) == multiset(Ids(numBuffers))
    && Conserved(s, expected, size)
  }

  lemma {:induction false} NoDuplicates(n: nat, b: nat)
    ensures multiset(Ids(n))[b] == if b < n then 1 else 0
  {
    if n > 0 {
      NoDuplicates(n - 1, b);
      assert Ids(n) == Ids(n - 1) + [n - 1];
    }
  }

  // A buffer from the free list receives the next read.
  function Prepare(s: State, read: Read): State
    requires s.free != []
  {
    var b := s.free[|s.free| - 1];
    s.(next := s.next + 1, free := s.free[..|s.free| - 1], pending := s.pending + [b], buffers := s.buffers[b := read])
  }

  lemma PrepareKeepsInv(s: State, read: Read, expected: seq<seq<Byte>>, size: nat, numBuffers: nat)
    requires Inv(s, expected, size, numBuffers) && s.free != [] && s.next < |expected|
    requires Element(read, size) == expected[s.next]
    ensures Inv(Prepare(s, read), expected, size, numBuffers)
  {
    PreparePartition(s, read, numBuffers);
    HeldExtends(s, read, s.free[|s.free| - 1], size);
    assert expected[..s.next + 1] == expected[..s.next] + [expected[s.next]];
  }

  lemma PreparePartition(s: State, read: Read, numBuffers: nat)
    requires multiset(s.free) + multiset(s.pending + s.ring) == multiset(Ids(numBuffers)) && s.free != []
    ensures multiset(Prepare(s, read).free) + multiset(Prepare(s, read).pending + Prepare(s, read).ring)
         == multiset(Ids(numBuffers))
    ensures s.free[|s.free| - 1] !in s.pending + s.ring
  {
    var t := Prepare(s, read);
    var b := s.free[|s.free| - 1];
    assert s.free == t.free + [b];
    NoDuplicates(numBuffers, b);
    assert multiset(s.free)[b] >= 1;
    assert b !in s.pending + s.ring by {
      assert multiset(s.pending + s.ring)[b] == 0;
    }
    assert multiset(t.pending + t.ring) == multiset(s.pending + s.ring) + multiset{b};
    Transfer(multiset(s.free), multiset(s.pending + s.ring), multiset(t.free), multiset(t.pending + t.ring),
             multiset{b});
  }

  lemma HeldExtends(s: State, read: Read, b: nat, size: nat)
    requires b !in s.pending + s.ring
    ensures multiset(Held(s.buffers[b := read], (s.pending + [b]) + s.ring, size))
         == multiset(Held(s.buffers, s.pending + s.ring, size)) + multiset{Element(read, size)}
  {
    var p, r := Held(s.buffers, s.pending, size), Held(s.buffers, s.ring, size);
    HeldElsewhere(s.buffers, read, b, s.pending, size);
    HeldElsewhere(s.buffers, read, b, s.ring, size);
    HeldAppend(s.buffers, s.pending, s.ring, size);
    HeldAppend(s.buffers[b := read], s.pending, [b], size);
    HeldAppend(s.buffers[b := read], s.pending + [b], s.ring, size);
    AddBetween(p, r, Element(read, size));
  }

  lemma HeldAppend(buffers: map<nat, Read>, a: seq<nat>, b: seq<nat>, size: nat)
    ensures Held(buffers, a + b, size) == Held(buffers, a, size) + Held(buffers, b, size)
  {
  }

  lemma HeldElsewhere(buffers: map<nat, Read>, read: Read, b: nat, ids: seq<nat>, size: nat)
    requires b !in ids
    ensures Held(buffers[b := read], ids, size) == Held(buffers, ids, size)
  {
  }

  lemma AddBetween<X>(p: seq<X>, r: seq<X>, x: X)
    ensures multiset((p + [x]) + r) == multiset(p + r) + multiset{x}
  {
  }

  function Submit(s: State): State
  {
    s.(ring := s.pending + s.ring, pending := [])
  }

  lemma SubmitKeepsInv(s: State, expected: seq<seq<Byte>>, size: nat, numBuffers: nat)
    requires Inv(s, expected, size, numBuffers)
    ensures Inv(Submit(s), expected, size, numBuffers)
  {
    assert [] + (s.pending + s.ring) == s.pending + s.ring;
  }

  // Any read in the ring completes: its element is a result, and its buffer is free again.
  function Reap(s: State, k: nat, size: nat): State
    requires k < |s.ring| && s.ring[k] in s.buffers
  {
    s.(ring := s.ring[..k] + s.ring[k + 1..], free := s.free + [s.ring[k]],
       results := s.results + [Element(s.buffers[s.ring[k]], size)])
  }

  lemma ReapKeepsInv(s: State, k: nat, expected: seq<seq<Byte>>, size: nat, numBuffers: nat)
    requires Inv(s, expected, size, numBuffers) && k < |s.ring| && s.ring[k] in s.buffers
    ensures Inv(Reap(s, k, size), expected, size, numBuffers)
  {
    ReapPartition(s, k, size);
    ReapConserves(s, k, size);
  }

  lemma ReapPartition(s: State, k: nat, size: nat)
    requires k < |s.ring| && s.ring[k] in s.buffers
    ensures multiset(Reap(s, k, size).free) + multiset(Reap(s, k, size).pending + Reap(s, k, size).ring)
         == multiset(s.free) + multiset(s.pending + s.ring)
  {
    var t := Reap(s, k, size);
    var b := s.ring[k];
    assert s.ring == s.ring[..k] + ([b] + s.ring[k + 1..]);
    Transfer(multiset(s.pending + s.ring), multiset(s.free), multiset(t.pending + t.ring), multiset(t.free),
             multiset{b});
  }

  lemma ReapConserves(s: State, k: nat, size: nat)
    requires k < |s.ring| && s.ring[k] in s.buffers
    ensures multiset(Reap(s, k, size).results)
            + multiset(Held(s.buffers, Reap(s, k, size).pending + Reap(s, k, size).ring, size))
         == multiset(s.results) + multiset(Held(s.buffers, s.pending + s.ring, size))
  {
    var t, n := Reap(s, k, size), |s.pending| + k;
    var ids := s.pending + s.ring;
    assert ids[..n] + ids[n + 1..] == t.pending + t.ring;
    HeldWithout(s.buffers, ids, n, size);
    Transfer(multiset(Held(s.buffers, ids, size)), multiset(s.results),
             multiset(Held(s.buffers, t.pending + t.ring, size)),
             multiset(t.results), multiset{Element(s.buffers[ids[n]], size)});
  }

  lemma HeldWithout(buffers: map<nat, Read>, ids: seq<nat>, n: nat, size: nat)
    requires n < |ids| && ids[n] in buffers
    ensures multiset(Held(buffers, ids, size))
         == multiset(Held(buffers, ids[..n] + ids[n + 1..], size)) + multiset{Element(buffers[ids[n]], size)}
  {
    assert ids == (ids[..n] + [ids[n]]) + ids[n + 1..];
    HeldAppend(buffers, ids[..n] + [ids[n]], ids[n + 1..], size);
    HeldAppend(buffers, ids[..n], [ids[n]], size);
    HeldAppend(buffers, ids[..n], ids[n + 1..], size);
    AddBetween(Held(buffers, ids[..n], size), Held(buffers, ids[n + 1..], size), Element(buffers[ids[n]], size));
  }

  // ---- requests within the data ------------------------------------------------------------

  ghost predicate Fits(files: seq<seq<Byte>>, size: nat, request: nat)
  {
    request * size + size <= |Concat(files)|
  }

  ghost predicate InRange(files: seq<seq<Byte>>, size: nat, requests: seq<nat>)
  {
    forall k {:trigger requests[k]} :: 0 <= k < |requests| ==> Fits(files, size, requests[k])
  }

  lemma RangeSplit(files: seq<seq<Byte>>, size: nat, a: seq<nat>, b: seq<nat>)
    ensures InRange(files, size, a + b) <==> InRange(files, size, a) && InRange(files, size, b)
    ensures Expected(files, size, a + b) == Expected(files, size, a) + Expected(files, size, b)
  {
    var c := a + b;
    if InRange(files, size, c) {
      forall k | 0 <= k < |a| ensures Fits(files, size, a[k]) {
        assert c[k] == a[k];
      }
      forall k | 0 <= k < |b| ensures Fits(files, size, b[k]) {
        assert c[|a| + k] == b[k];
      }
    }
  }

  lemma RangePrefix(files: seq<seq<Byte>>, size: nat, requests: seq<nat>, n: nat)
    requires n < |requests|
    ensures InRange(files, size, requests[..n + 1])
         <==> InRange(files, size, requests[..n]) && Fits(files, size, requests[n])
    ensures InRange(files, size, requests) ==> Fits(files, size, requests[n])
  {
    assert requests[..n + 1] == requests[..n] + [requests[n]];
    RangeSplit(files, size, requests[..n], [requests[n]]);
    assert InRange(files, size, [requests[n]]) ==> Fits(files, size, [requests[n]][0]);
  }

  // ---- the loop of one segment -------------------------------------------------------------

  class Segment {
    const files: seq<seq<Byte>>
    const size: nat
    const align: nat
    const requests: seq<nat>
    const numBuffers: nat
    const entries: nat
    const sums: seq<nat>
    var s: State

    ghost function Wanted(): seq<seq<Byte>>
      reads this
    {
      Expected(files, size, requests)
    }

    ghost predicate Valid()
      reads this
    {
      && AlignedFiles(files, align) && size > 0 && align % size == 0 && 0 < entries <= numBuffers
      && |sums| == |files| && (forall i :: 0 <= i < |files| ==> sums[i] == EndOf(files, i))
      && Inv(s, Wanted(), size, numBuffers) && |s.pending| < entries
      && (forall b :: b in s.pending + s.ring ==> b in s.buffers)
      && (s.next == |requests| ==> s.pending == [])
    }

    constructor (files: seq<seq<Byte>>, sums: seq<nat>, size: nat, align: nat, requests: seq<nat>, numBuffers: nat,
                 entries: nat)
      requires AlignedFiles(files, align) && size > 0 && align % size == 0 && 0 < entries <= numBuffers
      requires |sums| == |files| && forall i :: 0 <= i < |files| ==> sums[i] == EndOf(files, i)
      ensures Valid() && this.files == files && this.size == size && this.requests == requests
      ensures s.next == 0 && s.results == []
    {
      this.files, this.sums, this.size, this.align, this.requests := files, sums, size, align, requests;
      this.numBuffers, this.entries := numBuffers, entries;
      s := State(0, Ids(numBuffers), [], [], map[], []);
    }

    // The next request is prepared; the prepared ones are submitted when there are as many as
    // the ring has entries, and after the last request. It fails if the position is out of range.
    method PrepareNext() returns (ok: bool)
      requires Valid() && s.next < |requests| && s.free != [] && InRange(files, size, requests[..s.next])
      modifies this
      ensures ok <==> Fits(files, size, requests[old(s.next)])
      ensures if ok then s.next <= |requests| && InRange(files, size, requests[..s.next])
              else !InRange(files, size, requests)
      ensures ok ==> Valid() && s.next == old(s.next) + 1
      ensures ok ==> |s.pending| + |s.ring| == old(|s.pending| + |s.ring|) + 1
    {
      RangePrefix(files, size, requests, s.next);
      var r := PrepareRead(files, sums, size, align, requests[s.next]);
      ok := r.Some?;
      if ok {
        Take(r.value);
      }
    }

    method Take(read: Read)
      requires Valid() && s.next < |requests| && s.free != []
      requires Element(read, size) == Wanted()[s.next]
      modifies this
      ensures Valid() && s.next == old(s.next) + 1
      ensures |s.pending| + |s.ring| == old(|s.pending| + |s.ring|) + 1
    {
      PrepareKeepsInv(s, read, Wanted(), size, numBuffers);
      s := Prepare(s, read);
      if |s.pending| == entries || s.next == |requests| {
        SubmitKeepsInv(s, Wanted(), size, numBuffers);
        s := Submit(s);
      }
    }

    method ReapOne()
      requires Valid() && s.ring != []
      modifies this
      ensures Valid() && s.next == old(s.next)
      ensures |s.pending| + |s.ring| < old(|s.pending| + |s.ring|) && |s.ring| < old(|s.ring|)
    {
      var k :| 0 <= k < |s.ring|;
      assert s.ring[k] in s.pending + s.ring;
      ReapKeepsInv(s, k, Wanted(), size, numBuffers);
      ghost var before := s;
      s := Reap(s, k, size);
      forall b | b in s.pending + s.ring ensures b in s.buffers {
        assert b in before.pending + before.ring;
      }
    }

    // With requests left and no free buffer, some read is in the ring: waiting cannot stall.
    lemma RingBusy()
      requires Valid() && s.next < |requests| && s.free == []
      ensures s.ring != []
    {
      assert |multiset(s.free) + multiset(s.pending + s.ring)| == |multiset(Ids(numBuffers))|;
    }

    ghost function Left(): nat
      requires s.next <= |requests|
      reads this
    {
      2 * (|requests| - s.next) + |s.pending| + |s.ring|
    }

    // Submits requests as long as there are any and a buffer is free.
    method FillRing() returns (ok: bool)
      requires Valid() && s.next <= |requests| && InRange(files, size, requests[..s.next])
      modifies this
      ensures ok ==> Valid() && s.next <= |requests| && InRange(files, size, requests[..s.next])
      ensures ok ==> Left() <= old(Left())
      ensures ok ==> s.next == |requests| || s.free == []
      ensures !ok ==> !InRange(files, size, requests)
    {
      ok := true;
      while s.next < |requests| && s.free != []
        invariant Valid() && s.next <= |requests| && InRange(files, size, requests[..s.next]) && Left() <= old(Left())
        decreases |requests| - s.next
      {
        ok := PrepareNext();
        if !ok {
          return;
        }
      }
      ok := true;
    }

    // Submits as much as possible, then waits for one read and reaps the ones that happen to be
    // complete, until everything is done or a position is out of range.
    method Run() returns (ok: bool)
      requires Valid() && s.next == 0 && s.results == []
      modifies this
      ensures ok <==> InRange(files, size, requests)
      ensures ok ==> multiset(s.results) == multiset(Wanted()) && s.pending == [] && s.ring == []
      ensures ok ==> multiset(s.free) == multiset(Ids(numBuffers))
    {
      while s.next < |requests| || s.ring != []
        invariant Valid() && s.next <= |requests| && InRange(files, size, requests[..s.next])
        decreases Left()
      {
        ok := FillRing();
        if !ok {
          return;
        }
        if s.next < |requests| {
          RingBusy();
        }
        ReapSome();
      }
      ok := true;
      assert requests[..s.next] == requests && Wanted()[..s.next] == Wanted();
    }

    // Waits for a completion, then goes on for as long as another one happens to be there.
    method ReapSome()
      requires Valid()
      modifies this
      ensures Valid() && s.next == old(s.next)
      ensures |s.pending| + |s.ring| <= old(|s.pending| + |s.ring|)
      ensures old(s.ring) != [] ==> |s.pending| + |s.ring| < old(|s.pending| + |s.ring|)
    {
      var wait := true;
      while s.ring != []
        invariant Valid() && s.next == old(s.next) && |s.pending| + |s.ring| <= old(|s.pending| + |s.ring|)
        invariant !wait ==> |s.pending| + |s.ring| < old(|s.pending| + |s.ring|)
        invariant wait ==> s == old(s)
        decreases |s.ring|
      {
        var another: bool := *;
        if !wait && !another {
          break;
        }
        ReapOne();
        wait := false;
      }
    }
  }

  // ---- all segments ------------------------------------------------------------------------

  // All requested positions are within the files.
  method RunSegment(files: seq<seq<Byte>>, sums: seq<nat>, size: nat, align: nat, requests: seq<nat>, numBuffers: nat,
                    entries: nat)
    returns (ok: bool, results: seq<seq<Byte>>)
    requires AlignedFiles(files, align) && size > 0 && align % size == 0 && 0 < entries <= numBuffers
    requires |sums| == |files| && forall i :: 0 <= i < |files| ==> sums[i] == EndOf(files, i)
    ensures ok <==> InRange(files, size, requests)
    ensures ok ==> multiset(results) == multiset(Expected(files, size, requests))
  {
    var segment := new Segment(files, sums, size, align, requests, numBuffers, entries);
    ok := segment.Run();
    results := segment.s.results;
  }

  // Where segment t begins.
  function Cut(t: nat, segmentSize: nat, n: nat): (c: nat)
    ensures c <= n
  {
    Min(t * segmentSize, n)
  }

  lemma Cuts(t: nat, segmentSize: nat, n: nat)
    ensures Cut(t, segmentSize, n) <= Cut(t + 1, segmentSize, n) && Cut(0, segmentSize, n) == 0
  {
    ProductStep(t, segmentSize);
  }

  // RandomBatchRead: the requests are split into one segment for each thread. It fails exactly
  // if some position is out of range; otherwise every requested element is returned once.
  method RandomBatchRead(files: seq<seq<Byte>>, size: nat, align: nat, requests: seq<nat>, numThreads: nat,
                         numBuffers: nat, entries: nat)
    returns (ok: bool, results: seq<seq<Byte>>)
    requires AlignedFiles(files, align) && size > 0 && align % size == 0
    requires 0 < entries <= numBuffers && numThreads > 0
    ensures ok <==> InRange(files, size, requests)
    ensures ok ==> multiset(results) == multiset(Expected(files, size, requests))
  {
    var sums := PrefixSums(files);
    var segmentSize := (|requests| + numThreads - 1) / numThreads;
    ok, results := true, [];
    for t := 0 to numThreads
      invariant ok <==> InRange(files, size, requests[..Cut(t, segmentSize, |requests|)])
      invariant ok ==> multiset(results) == multiset(Expected(files, size, requests[..Cut(t, segmentSize, |requests|)]))
    {
      Cuts(t, segmentSize, |requests|);
      var from, to := Cut(t, segmentSize, |requests|), Cut(t + 1, segmentSize, |requests|);
      var good, part := RunSegment(files, sums, size, align, requests[from..to], numBuffers, entries);
      assert requests[..to] == requests[..from] + requests[from..to];
      RangeSplit(files, size, requests[..from], requests[from..to]);
      ok := ok && good;
      results := results + part;
    }
    SegmentsCover(|requests|, numThreads);
    assert requests[..|requests|] == requests;
  }

  lemma SegmentsCover(n: nat, numThreads: nat)
    requires numThreads > 0
    ensures Cut(numThreads, (n + numThreads - 1) / numThreads, n) == n
  {
    QuotientBounds(n + numThreads - 1, numThreads);
  }
}
