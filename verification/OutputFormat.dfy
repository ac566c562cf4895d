// The format of the files that the file operators write: full buffers, and a last block that is
// padded to the alignment and ends in a marker (sequence_algorithms/filter.h,
// Plaidlay/NaiveExternalScan.h). Blocks are pushed as a number of elements, so what does not
// amount to a whole element is not written.
module OutputFormat {
  import opened Arithmetic
  import opened Disk

  // Bytes of an element and of a buffer, and the alignment of all writes.
  datatype Format = Format(size: nat, bufferBytes: nat, align: nat)

  // A buffer holds at least one element, and the marker can express the largest padding.
  predicate IsFormat(f: Format)
  {
    0 < f.size <= f.bufferBytes && 0 < f.align && f.align + 1 < MARKER_CAPACITY
  }

  // ---- sizes, for a stream of n elements ---------------------------------------------------

  // The elements of a full buffer, and their bytes.
  function Capacity(f: Format): (c: nat)
    requires IsFormat(f)
    ensures c > 0
  {
    QuotientBounds(f.bufferBytes, f.size);
    f.bufferBytes / f.size
  }

  function FullBytes(f: Format): (b: nat)
    requires IsFormat(f)
    ensures b + f.bufferBytes % f.size == f.bufferBytes && b > 0
  {
    DivMod(f.bufferBytes, f.size);
    Capacity(f) * f.size
  }

  function FullBuffers(f: Format, n: nat): nat
    requires IsFormat(f)
  {
    n / Capacity(f)
  }

  // The bytes of the elements in the last block.
  function TailBytes(f: Format, n: nat): nat
    requires IsFormat(f)
  {
    (n % Capacity(f)) * f.size
  }

  function EndSize(f: Format, n: nat): nat
    requires IsFormat(f)
  {
    AlignUp(TailBytes(f, n) + METADATA_SIZE, f.align)
  }

  // What is pushed of a block of the given size: whole elements.
  function Pushed(bytes: nat, size: nat): (p: nat)
    requires size > 0
    ensures p + bytes % size == bytes
  {
    DivMod(bytes, size);
    bytes / size * size
  }

  function WrittenSize(f: Format, n: nat): nat
    requires IsFormat(f)
  {
    FullBuffers(f, n) * FullBytes(f) + Pushed(EndSize(f, n), f.size)
  }

  // ---- conditions --------------------------------------------------------------------------

  // Every push is a multiple of the alignment; the writer ends the program otherwise.
  predicate Accepted(f: Format, n: nat)
    requires IsFormat(f)
  {
    (FullBuffers(f, n) > 0 ==> FullBytes(f) % f.align == 0) && Pushed(EndSize(f, n), f.size) % f.align == 0
  }

  // The last block, with its marker, is a whole number of elements.
  predicate MarkerKept(f: Format, n: nat)
    requires IsFormat(f)
  {
    EndSize(f, n) % f.size == 0
  }

  // Counting whole buffers gives the number of bytes before the last block.
  predicate WholeBuffers(f: Format, n: nat)
    requires IsFormat(f)
  {
    FullBuffers(f, n) == 0 || f.bufferBytes % f.size == 0
  }

  // The last block holds its elements, and less than two bytes more if it is cut off although
  // its pushed part is aligned.
  lemma TailPushed(f: Format, n: nat)
    requires IsFormat(f)
    ensures TailBytes(f, n) + METADATA_SIZE <= EndSize(f, n) <= TailBytes(f, n) + f.align + 1
    ensures TailBytes(f, n) <= Pushed(EndSize(f, n), f.size)
    ensures Accepted(f, n) && !MarkerKept(f, n) ==> Pushed(EndSize(f, n), f.size) < TailBytes(f, n) + METADATA_SIZE
  {
    var k, end := n % Capacity(f), EndSize(f, n);
    AlignUpBounds(TailBytes(f, n) + METADATA_SIZE, f.align);
    WholePart(k, end, f.size);
    if Accepted(f, n) && !MarkerKept(f, n) {
      MultiplesApart(Pushed(end, f.size), end, f.align);
    }
  }

  // Elements that fit into a block are within its whole elements.
  lemma WholePart(k: nat, bytes: nat, size: nat)
    requires size > 0 && k * size <= bytes
    ensures k * size <= Pushed(bytes, size)
  {
    QuotientBounds(bytes, size);
    ProductMonotone(bytes / size + 1, k, size);
    ProductStep(bytes / size, size);
    ProductMonotone(k, bytes / size, size);
  }

  lemma MultiplesApart(a: nat, b: nat, d: nat)
    requires d > 0 && a % d == 0 && b % d == 0 && a < b
    ensures a + d <= b
  {
    DivMod(a, d);
    DivMod(b, d);
    ProductMonotone(b / d, a / d, d);
    ProductMonotone(a / d + 1, b / d, d);
    ProductStep(a / d, d);
  }

  // ---- for which element sizes all is well -------------------------------------------------

  // When the size of an element divides the alignment, everything fits for every stream.
  lemma DividingSizeFits(f: Format, n: nat)
    requires IsFormat(f) && f.align % f.size == 0 && f.bufferBytes % f.align == 0
    ensures f.bufferBytes % f.size == 0 && Accepted(f, n) && MarkerKept(f, n) && WholeBuffers(f, n)
  {
    var end := EndSize(f, n);
    AlignUpBounds(TailBytes(f, n) + METADATA_SIZE, f.align);
    DividesThrough(f.bufferBytes, f.align, f.size);
    DividesThrough(end, f.align, f.size);
  }

  lemma DividesThrough(a: nat, b: nat, c: nat)
    requires b > 0 && c > 0 && a % b == 0 && b % c == 0
    ensures a % c == 0
  {
    DivMod(a, b);
    DivMod(b, c);
    var q := a / b * (b / c);
    assert a == q * c by {
      assert (a / b * (b / c)) * c == a / b * (b / c * c);
    }
    MulMod(q, c);
  }

  // That is also the only case in which every stream keeps its marker.
  lemma FitsAlwaysIffDividing(f: Format)
    requires IsFormat(f) && f.align >= METADATA_SIZE && f.bufferBytes % f.align == 0
    ensures (forall n: nat {:trigger Accepted(f, n)} :: Accepted(f, n) && MarkerKept(f, n)) <==> f.align % f.size == 0
  {
    if f.align % f.size == 0 {
      forall n: nat ensures Accepted(f, n) && MarkerKept(f, n) {
        DividingSizeFits(f, n);
      }
    } else {
      EmptyStream(f);
      assert !(Accepted(f, 0) && MarkerKept(f, 0));
    }
  }

  lemma EmptyStream(f: Format)
    requires IsFormat(f) && f.align >= METADATA_SIZE
    ensures EndSize(f, 0) == f.align
  {
    SmallRemainder(0, Capacity(f));
    AlignUpBounds(METADATA_SIZE, f.align);
    assert EndSize(f, 0) % f.align == 0 && METADATA_SIZE <= EndSize(f, 0) < METADATA_SIZE + f.align;
    SmallRemainder(0, f.align);
    if EndSize(f, 0) > f.align {
      DivMod(f.align, f.align);
      MulMod(1, f.align);
      MultiplesApart(f.align, EndSize(f, 0), f.align);
    } else if EndSize(f, 0) < f.align {
      MultiplesApart(0, EndSize(f, 0), f.align);
    }
  }

  // Elements of 8192 bytes with the buffers and the alignment of the library: the writer
  // accepts every push, but the block with the marker is not written.
  lemma MarkerLost()
    ensures var f := Format(8192, 0x40_0000, 4096);
            && IsFormat(f) && f.bufferBytes % f.size == 0
            && Accepted(f, 1) && !MarkerKept(f, 1) && EndSize(f, 1) == 12288 && WrittenSize(f, 1) == 8192
            && Accepted(f, 0) && !MarkerKept(f, 0) && EndSize(f, 0) == 4096 && WrittenSize(f, 0) == 0
  {
  }

  // ---- the bytes written -------------------------------------------------------------------

  // The data is followed by padding whose last two bytes say where the data ends.
  ghost predicate EndsMarked(content: seq<Byte>, data: seq<Byte>, rest: seq<Byte>)
  {
    content == data + rest && |rest| >= METADATA_SIZE && TrueSize(content) == |data|
  }

  // The content of an output file for the elements of part: their bytes, and what is pushed of
  // the padding, with the marker unless it is cut off.
  ghost predicate IsOutput<T>(layout: Layout<T>, f: Format, part: seq<T>, content: seq<Byte>, rest: seq<Byte>)
    requires IsFormat(f)
  {
    && content == Encode(layout, part) + rest
    && TailBytes(f, |part|) + |rest| == Pushed(EndSize(f, |part|), f.size)
    && (MarkerKept(f, |part|) ==> EndsMarked(content, Encode(layout, part), rest))
  }

  // A consumer can find the elements of the file by its marker, whatever its size.
  ghost predicate Recoverable<T>(layout: Layout<T>, file: File, part: seq<T>)
  {
    exists fileSize: nat :: StoresPart(layout, file, fileSize, part)
  }

  ghost predicate HasSize(file: File, n: nat)
  {
    forall k: nat :: k in file <==> k < n
  }

  // That is the case exactly if the marker is not cut off.
  lemma RecoverableIffKept<T(!new)>(layout: Layout<T>, f: Format, part: seq<T>, file: File, content: seq<Byte>,
                                    rest: seq<Byte>)
    requires IsLayout(layout) && layout.size == f.size && IsFormat(f) && Accepted(f, |part|)
    requires IsOutput(layout, f, part, content, rest) && HasContents(file, content)
    ensures Recoverable(layout, file, part) <==> MarkerKept(f, |part|)
    ensures MarkerKept(f, |part|) ==> StoresPart(layout, file, |content|, part)
  {
    if MarkerKept(f, |part|) {
      MarkedContent(layout, part, file, content, rest);
    } else {
      TailPushed(f, |part|);
      NoRoomForMarker(layout, part, file, content, rest);
    }
  }

  lemma MarkedContent<T>(layout: Layout<T>, part: seq<T>, file: File, content: seq<Byte>, rest: seq<Byte>)
    requires HasContents(file, content) && EndsMarked(content, Encode(layout, part), rest)
    ensures StoresPart(layout, file, |content|, part) && Recoverable(layout, file, part)
  {
    assert IsMarkedFile(layout, file, |content|, part, rest);
  }

  lemma NoRoomForMarker<T>(layout: Layout<T>, part: seq<T>, file: File, content: seq<Byte>, rest: seq<Byte>)
    requires HasContents(file, content) && content == Encode(layout, part) + rest && |rest| < METADATA_SIZE
    ensures !Recoverable(layout, file, part)
  {
    forall n: nat, other: seq<Byte> ensures !IsMarkedFile(layout, file, n, part, other) {
      if HasContents(file, Encode(layout, part) + other) {
        SameContents(file, content, Encode(layout, part) + other);
      }
    }
  }

  lemma SameContents(file: File, a: seq<Byte>, b: seq<Byte>)
    requires HasContents(file, a) && HasContents(file, b)
    ensures a == b
  {
    assert |a| in file <==> |a| < |b|;
    assert |b| in file <==> |b| < |a|;
  }

  // The size of the content is the one computed from the number of elements.
  lemma ContentSize<T(!new)>(layout: Layout<T>, f: Format, part: seq<T>, content: seq<Byte>, rest: seq<Byte>)
    requires IsLayout(layout) && layout.size == f.size && IsFormat(f) && IsOutput(layout, f, part, content, rest)
    ensures |Encode(layout, part)| == FullBuffers(f, |part|) * FullBytes(f) + TailBytes(f, |part|)
    ensures |content| == WrittenSize(f, |part|)
  {
    EncodeSize(layout, part);
    SplitBytes(|part|, Capacity(f), f.size);
  }

  lemma SplitBytes(n: nat, cap: nat, size: nat)
    requires cap > 0
    ensures n * size == n / cap * (cap * size) + (n % cap) * size
  {
    var q, r := n / cap, n % cap;
    DivMod(n, cap);
    assert (q * cap + r) * size == (q * cap) * size + r * size;
    assert (q * cap) * size == q * (cap * size);
  }

  // ---- reported sizes ----------------------------------------------------------------------

  // The true size is reported as full-sized buffers and the bytes of the last elements.
  lemma TrueSizeRight(f: Format, n: nat)
    requires IsFormat(f)
    ensures FullBuffers(f, n) * f.bufferBytes + TailBytes(f, n) == FullBuffers(f, n) * FullBytes(f) + TailBytes(f, n)
       <==> WholeBuffers(f, n)
  {
    Shortfall(f, FullBuffers(f, n));
  }

  lemma Shortfall(f: Format, buffers: nat)
    requires IsFormat(f)
    ensures buffers * f.bufferBytes == buffers * FullBytes(f) + buffers * (f.bufferBytes % f.size)
    ensures buffers * (f.bufferBytes % f.size) == 0 <==> buffers == 0 || f.bufferBytes % f.size == 0
  {
    var r := f.bufferBytes % f.size;
    assert buffers * (FullBytes(f) + r) == buffers * FullBytes(f) + buffers * r;
    if buffers > 0 && r > 0 {
      ProductMonotone(1, buffers, r);
    }
  }
}
