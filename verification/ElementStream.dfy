// The output buffer of the file operators: full buffers are pushed to the writer, and the last
// one is padded and ends in a marker (sequence_algorithms/filter.h, Plaidlay/NaiveExternalScan.h).
module ElementStream {
  import opened Arithmetic
  import opened Sequences
  import opened Disk
  import opened OutputFormat

  lemma EncodeBoth<T>(layout: Layout<T>, pushed: seq<Byte>, buffer: seq<T>, emitted: seq<T>, x: T)
    requires pushed + Encode(layout, buffer) == Encode(layout, emitted)
    ensures pushed + Encode(layout, buffer + [x]) == Encode(layout, emitted + [x])
  {
    EncodeAppend(layout, buffer, [x]);
    EncodeAppend(layout, emitted, [x]);
  }

  class Stream<T(!new)> {
    const layout: Layout<T>
    const format: Format
    var buffer: seq<T>
    var writeCount: nat
    var pushes: seq<seq<Byte>>
    ghost var emitted: seq<T>

    ghost predicate Conserved()
      reads this
    {
      && IsLayout(layout) && IsFormat(format) && layout.size == format.size
      && |pushes| == writeCount && (forall k :: 0 <= k < |pushes| ==> |pushes[k]| == FullBytes(format))
      && |emitted| == writeCount * Capacity(format) + |buffer|
      && Concat(pushes) + Encode(layout, buffer) == Encode(layout, emitted)
    }

    ghost predicate Valid()
      reads this
    {
      Conserved() && |buffer| < Capacity(format)
    }

    constructor (layout: Layout<T>, format: Format)
      requires IsLayout(layout) && IsFormat(format) && layout.size == format.size
      ensures Valid() && emitted == []
      ensures this.layout == layout && this.format == format
    {
      this.layout, this.format := layout, format;
      buffer, writeCount, pushes, emitted := [], 0, [], [];
    }

    // One element more; the buffer is pushed when it is full.
    method Emit(x: T)
      requires Valid()
      modifies this
      ensures Valid() && emitted == old(emitted) + [x]
    {
      EncodeBoth(layout, Concat(pushes), buffer, emitted, x);
      buffer := buffer + [x];
      emitted := emitted + [x];
      if |buffer| == format.bufferBytes / format.size {
        PushBuffer();
      }
    }

    method PushBuffer()
      requires Conserved() && |buffer| == Capacity(format)
      modifies this`buffer, this`pushes, this`writeCount
      ensures Valid()
    {
      EncodeSize(layout, buffer);
      ConcatSnoc(pushes, Encode(layout, buffer));
      ProductStep(writeCount, Capacity(format));
      pushes := pushes + [Encode(layout, buffer)];
      writeCount := writeCount + 1;
      buffer := [];
    }

    // The last block: the remaining elements, padding up to the alignment with room for the
    // marker, and the marker. What is pushed is as many elements as its size amounts to.
    method Finish() returns (trueSize: nat, endSize: nat)
      requires Valid()
      modifies this`pushes
      ensures writeCount == FullBuffers(format, |emitted|) && endSize == EndSize(format, |emitted|)
      ensures trueSize == Bytes(writeCount, format.bufferBytes) + TailBytes(format, |emitted|)
      ensures |pushes| == writeCount + 1 && |pushes[writeCount]| == Pushed(endSize, format.size)
      ensures forall k :: 0 <= k < writeCount ==> |pushes[k]| == FullBytes(format)
      ensures exists rest: seq<Byte> :: IsOutput(layout, format, emitted, Concat(pushes), rest)
    {
      BuffersAndRest(|emitted|, Capacity(format), writeCount, |buffer|);
      TailPushed(format, |emitted|);
      var payload := Encode(layout, buffer);
      EncodeSize(layout, buffer);
      endSize := AlignUp(|payload| + METADATA_SIZE, format.align);
      var block := LastBlock(payload, endSize);
      var last := block[..Pushed(endSize, format.size)];
      ConcatSnoc(pushes, last);
      CutOff(Concat(pushes), payload, block, |last|);
      assert IsOutput(layout, format, emitted, Concat(pushes) + last, last[|payload|..]);
      trueSize := Bytes(writeCount, format.bufferBytes) + |payload|;
      pushes := pushes + [last];
    }

    // Whatever the unused bytes of the buffer are, the marker records how many there are.
    method LastBlock(payload: seq<Byte>, endSize: nat) returns (last: seq<Byte>)
      requires |payload| + METADATA_SIZE <= endSize && endSize - |payload| < MARKER_CAPACITY
      ensures |last| == endSize && last[..|payload|] == payload && TrueSize(last) == |payload|
    {
      var block := new Byte[endSize];
      forall k | 0 <= k < |payload| {
        block[k] := payload[k];
      }
      ghost var before := block[..];
      assert before[..|payload|] == payload;
      MakeFileEndMarker(block, |payload|);
      MarkerRoundTrip(before, |payload|);
      last := block[..];
    }
  }

  function Bytes(buffers: nat, bufferBytes: nat): nat
  {
    buffers * bufferBytes
  }

  lemma BuffersAndRest(n: nat, cap: nat, full: nat, rest: nat)
    requires n == full * cap + rest && rest < cap
    ensures n / cap == full && n % cap == rest
  {
    DivMod(n, cap);
    ProductMonotone(full + 1, n / cap, cap);
    ProductMonotone(n / cap + 1, full, cap);
    ProductStep(full, cap);
    ProductStep(n / cap, cap);
  }

  // The pushed part of the last block continues the data; if it is the whole block it ends in
  // the marker.
  lemma CutOff(data: seq<Byte>, payload: seq<Byte>, block: seq<Byte>, n: nat)
    requires |payload| + METADATA_SIZE <= |block| && |payload| <= n <= |block|
    requires block[..|payload|] == payload && TrueSize(block) == |payload|
    ensures data + block[..n] == (data + payload) + block[..n][|payload|..]
    ensures n == |block| ==> EndsMarked(data + block[..n], data + payload, block[..n][|payload|..])
  {
    var last := block[..n];
    assert last == payload + last[|payload|..];
    if n == |block| {
      assert last == block;
      var c := data + last;
      assert c[|c| - 2] == block[|block| - 2] && c[|c| - 1] == block[|block| - 1];
    }
  }
}
