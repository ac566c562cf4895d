// Flattening a sequence of sequences block by block, and the predecessor search it starts from
// (Plaidlay/flatten.h).
module Flatten {
  import opened Arithmetic
  import opened Sequences

  ghost predicate Ascending(s: seq<nat>)
  {
    forall i, j :: 0 <= i <= j < |s| ==> s[i] <= s[j]
  }

  // The last position whose value is at most find. The search leaves the array exactly when it
  // is empty or even its first value is greater: then size_t high wraps around below zero.
  method PredecessorSearch(input: seq<nat>, find: nat) returns (r: Option<nat>)
    requires Ascending(input)
    ensures r.None? <==> input == [] || find < input[0]
    ensures r.Some? ==> r.value < |input| && input[r.value] <= find
    ensures r.Some? ==> forall j :: r.value < j < |input| ==> find < input[j]
  {
    if |input| == 0 {
      return None;
    }
    var low, high, answer := 0, |input| - 1, 0;
    while low <= high
      invariant 0 <= low <= |input| && low - 1 <= high < |input| && 0 <= high
      invariant forall j :: 0 <= j < low ==> input[j] <= find
      invariant forall j :: high < j < |input| ==> find < input[j]
      invariant low > 0 ==> answer == low - 1
      decreases high + 1 - low
    {
      var mid := low + (high - low) / 2;
      if input[mid] <= find {
        answer := mid;
        low := mid + 1;
      } else if mid == 0 {
        return None;
      } else {
        high := mid - 1;
      }
    }
    r := Some(answer);
  }

  // The exclusive prefix sums of the sizes; with fewer than two sequences the second write is
  // out of range.
  method Starts<T>(input: seq<seq<T>>) returns (overSeq: Option<seq<nat>>)
    ensures overSeq.None? <==> |input| < 2
    ensures overSeq.Some? ==> AreStarts(input, overSeq.value)
  {
    if |input| < 2 {
      return None;
    }
    var s := [0, |input[0]|];
    StartStep(input, 0);
    var i := 2;
    while i < |input|
      invariant 2 <= i <= |input| && |s| == i
      invariant forall j :: 0 <= j < i ==> s[j] == StartOf(input, j)
    {
      StartStep(input, i - 1);
      s := s + [|input[i - 1]| + s[i - 1]];
      i := i + 1;
    }
    overSeq := Some(s);
  }

  ghost predicate AreStarts<T>(input: seq<seq<T>>, s: seq<nat>)
  {
    |s| == |input| && forall j :: 0 <= j < |s| ==> s[j] == StartOf(input, j)
  }

  lemma {:induction false} StartsMonotone<T>(input: seq<seq<T>>, a: nat, b: nat)
    requires a <= b <= |input|
    ensures StartOf(input, a) <= StartOf(input, b)
    decreases b - a
  {
    if a < b {
      StartStep(input, b - 1);
      StartsMonotone(input, a, b - 1);
    }
  }

  lemma StartsAscend<T>(input: seq<seq<T>>, s: seq<nat>)
    requires AreStarts(input, s)
    ensures Ascending(s)
  {
    forall i, j | 0 <= i <= j < |s| ensures s[i] <= s[j] {
      StartsMonotone(input, i, j);
    }
  }

  lemma WholeStart<T>(input: seq<seq<T>>)
    ensures StartOf(input, |input|) == |Concat(input)|
  {
    assert input[..|input|] == input;
  }

  // Position k of the concatenation lies in the sequence whose range it falls into.
  lemma ElementOf<T>(input: seq<seq<T>>, c: nat, k: nat)
    requires c < |input| && StartOf(input, c) <= k < StartOf(input, c) + |input[c]|
    ensures k < |Concat(input)| && Concat(input)[k] == input[c][k - StartOf(input, c)]
  {
    StartStep(input, c);
    ConcatSplit(input, c + 1);
    assert Concat(input)[k] == Concat(input[..c + 1])[k];
  }

  // The walk from one output position to the next: either an element is copied, or an exhausted
  // sequence is left behind, so that the positions left and the sequences left together shrink.
  method CopyRange<T>(input: seq<seq<T>>, overSeq: seq<nat>, out: array<T>, from: nat, to: nat)
    requires |input| >= 2 && AreStarts(input, overSeq)
    requires out.Length == |Concat(input)| && from <= to <= out.Length
    modifies out
    ensures forall k :: from <= k < to ==> out[k] == Concat(input)[k]
    ensures forall k :: 0 <= k < out.Length && !(from <= k < to) ==> out[k] == old(out[k])
  {
    StartsAscend(input, overSeq);
    var found := PredecessorSearch(overSeq, from);
    var c, k := found.value, from;
    WholeStart(input);
    if c + 1 < |input| {
      StartStep(input, c);
    }
    while k < to
      invariant from <= k <= to && 0 <= c < |input| && StartOf(input, c) <= k
      invariant k <= StartOf(input, c + 1)
      invariant forall j :: from <= j < k ==> out[j] == Concat(input)[j]
      invariant forall j :: 0 <= j < out.Length && !(from <= j < k) ==> out[j] == old(out[j])
      decreases (to - k) + (|input| - c)
    {
      var offset := k - overSeq[c];
      StartStep(input, c);
      if offset == |input[c]| {
        assert c + 1 < |input|;
        c := c + 1;
        StartStep(input, c);
      } else {
        ElementOf(input, c, k);
        out[k] := input[c][offset];
        k := k + 1;
      }
    }
  }

  // block_flatten_in_dram: whole blocks in any order, then the rest.
  method BlockFlatten<T(0)>(input: seq<seq<T>>, blockSize: nat) returns (r: Option<seq<T>>)
    requires blockSize > 0
    ensures r.None? <==> |input| < 2
    ensures r.Some? ==> r.value == Concat(input)
  {
    var overSeq := Starts(input);
    if overSeq.None? {
      return None;
    }
    var total := TotalElements(input);
    var finalSeq := new T[total];
    var numBlocks := total / blockSize;
    QuotientBounds(total, blockSize);
    CopyBlocks(input, overSeq.value, finalSeq, blockSize, numBlocks);
    if total % blockSize != 0 {
      CopyRange(input, overSeq.value, finalSeq, numBlocks * blockSize, total);
    } else {
      assert total == numBlocks * blockSize;
    }
    r := Some(finalSeq[..]);
  }

  method TotalElements<T>(input: seq<seq<T>>) returns (total: nat)
    ensures total == |Concat(input)|
  {
    total := 0;
    for i := 0 to |input|
      invariant total == StartOf(input, i)
    {
      StartStep(input, i);
      total := total + |input[i]|;
    }
    WholeStart(input);
  }

  ghost predicate BlockCopied<T>(input: seq<seq<T>>, out: seq<T>, blockSize: nat, i: nat)
  {
    |out| == |Concat(input)| && forall k :: i * blockSize <= k < (i + 1) * blockSize && k < |out| ==>
        out[k] == Concat(input)[k]
  }

  method CopyBlocks<T>(input: seq<seq<T>>, overSeq: seq<nat>, out: array<T>, blockSize: nat, numBlocks: nat)
    requires blockSize > 0 && |input| >= 2 && AreStarts(input, overSeq)
    requires out.Length == |Concat(input)| && numBlocks * blockSize <= out.Length
    modifies out
    ensures forall k :: 0 <= k < numBlocks * blockSize ==> out[k] == Concat(input)[k]
  {
    var todo := Below(numBlocks);
    while todo != {}
      invariant forall i :: i in todo ==> i < numBlocks
      invariant forall i: nat {:trigger BlockCopied(input, out[..], blockSize, i)} :: i < numBlocks && i !in todo ==>
                  BlockCopied(input, out[..], blockSize, i)
    {
      var i :| i in todo;
      ghost var before := out[..];
      ProductMonotone(i + 1, numBlocks, blockSize);
      ProductStep(i, blockSize);
      var end := Min((i + 1) * blockSize, out.Length);
      CopyRange(input, overSeq, out, i * blockSize, end);
      forall j: nat | j < numBlocks && j !in todo - {i} ensures BlockCopied(input, out[..], blockSize, j) {
        if j != i {
          BlockFrame(input, before, out[..], blockSize, i, end, j);
        }
      }
      todo := todo - {i};
    }
    forall k | 0 <= k < numBlocks * blockSize ensures out[k] == Concat(input)[k] {
      var i := BlockOf(k, blockSize, numBlocks);
      assert BlockCopied(input, out[..], blockSize, i);
      assert out[..][k] == out[k];
    }
  }

  // What a block holds when another one, up to its end, has been copied.
  lemma BlockFrame<T>(input: seq<seq<T>>, a: seq<T>, b: seq<T>, blockSize: nat, i: nat, end: nat, j: nat)
    requires BlockCopied(input, a, blockSize, j) && i != j && |b| == |a| && end <= (i + 1) * blockSize
    requires forall k :: 0 <= k < |a| && !(i * blockSize <= k < end) ==> b[k] == a[k]
    ensures BlockCopied(input, b, blockSize, j)
  {
    BlocksApart(i, j, blockSize);
  }

  lemma BlocksApart(i: nat, j: nat, blockSize: nat)
    requires i != j
    ensures (i + 1) * blockSize <= j * blockSize || (j + 1) * blockSize <= i * blockSize
  {
    ProductMonotone(i + 1, j, blockSize);
    ProductMonotone(j + 1, i, blockSize);
  }

  lemma BlockOf(k: nat, blockSize: nat, numBlocks: nat) returns (i: nat)
    requires blockSize > 0 && k < numBlocks * blockSize
    ensures i < numBlocks && i * blockSize <= k < (i + 1) * blockSize
  {
    i := k / blockSize;
    QuotientBounds(k, blockSize);
    ProductStep(i, blockSize);
    ProductMonotone(numBlocks, i, blockSize);
  }
}
