// Exclusive scans in memory: one pass, and block by block with a scan over the block totals
// (Plaidlay/NaiveExternalScan.h).
module BlockScan {
  import opened Sequences
  import opened Arithmetic
  import opened Numbers

  // The sum of elements a to b - 1.
  function Between<T>(num: Num<T>, s: seq<T>, a: nat, b: nat): T
    requires a <= b <= |s|
  {
    SumFrom(num, num.zero, s[a..b])
  }

  lemma NextBetween<T>(num: Num<T>, s: seq<T>, a: nat, b: nat)
    requires a <= b < |s|
    ensures Between(num, s, a, b + 1) == num.plus(Between(num, s, a, b), s[b])
  {
    assert s[a..b + 1] == s[a..b] + [s[b]];
    StepFrom(num, num.zero, s[a..b], s[b]);
  }

  lemma JoinBetween<T(!new)>(num: Num<T>, s: seq<T>, a: nat, b: nat)
    requires IsInteger(num) && a <= b <= |s|
    ensures Between(num, s, 0, b) == num.plus(Between(num, s, 0, a), Between(num, s, a, b))
  {
    assert s[0..b] == s[0..a] + s[a..b];
    SumAppend(num, num.zero, s[0..a], s[a..b]);
    SumShift(num, SumFrom(num, num.zero, s[0..a]), s[a..b]);
  }

  lemma {:induction false} ScanAt<T>(num: Num<T>, s: seq<T>, k: nat)
    requires k < |s|
    ensures ScanFrom(num, num.zero, s)[k] == Between(num, s, 0, k)
  {
    var n := |s| - 1;
    assert s[..n] == s[0..n];
    if k < n {
      ScanAt(num, s[..n], k);
      assert s[..n][0..k] == s[0..k];
    }
  }

  lemma ScanByPositions<T(!new)>(num: Num<T>, s: seq<T>, r: seq<T>)
    requires |r| == |s| && forall k :: 0 <= k < |s| ==> r[k] == Between(num, s, 0, k)
    ensures r == ScanFrom(num, num.zero, s)
  {
    forall k | 0 <= k < |s| ensures r[k] == ScanFrom(num, num.zero, s)[k] {
      ScanAt(num, s, k);
    }
  }

  // scan: the first element is written without looking at the size, so the empty input is out
  // of range.
  method Scan<T(!new)>(num: Num<T>, input: seq<T>) returns (r: Option<seq<T>>)
    requires IsInteger(num)
    ensures r == if input == [] then None else Some(ScanFrom(num, num.zero, input))
  {
    if |input| == 0 {
      return None;
    }
    var ret := new T[|input|](_ => num.zero);
    ret[0] := num.zero;
    if |input| > 1 {
      ret[1] := input[0];
      assert Neutral(num, input[0]);
      NextBetween(num, input, 0, 0);
    }
    var i := 2;
    while i < |input|
      invariant 2 <= i && forall k :: 0 <= k < i && k < |input| ==> ret[k] == Between(num, input, 0, k)
    {
      assert Commutes(num, input[i - 1], ret[i - 1]);
      NextBetween(num, input, 0, i - 1);
      ret[i] := num.plus(input[i - 1], ret[i - 1]);
      i := i + 1;
    }
    ScanByPositions(num, input, ret[..]);
    r := Some(ret[..]);
  }

  // ---- blocks ------------------------------------------------------------------------------

  function Start(i: nat, size: nat): nat
  {
    i * size
  }

  function End(i: nat, size: nat, n: nat): nat
  {
    if (i + 1) * size < n then (i + 1) * size else n
  }

  function NumBlocks(n: nat, size: nat): nat
    requires size > 0
  {
    if n % size != 0 then n / size + 1 else n / size
  }

  // The blocks tile the input.
  lemma BlocksTile(n: nat, size: nat, i: nat)
    requires size > 0
    ensures i < NumBlocks(n, size) <==> Start(i, size) < n
    ensures i < NumBlocks(n, size) ==> Start(i, size) < End(i, size, n) <= n
    ensures i + 1 < NumBlocks(n, size) ==> End(i, size, n) == Start(i + 1, size)
    ensures i + 1 == NumBlocks(n, size) ==> End(i, size, n) == n
  {
    var q := n / size;
    assert n == q * size + n % size;
    ProductMonotone(i, q, size);
    ProductMonotone(q + 1, i, size);
    ProductMonotone(i + 1, q, size);
    ProductMonotone(q, i, size);
    ProductMonotone(i + 2, q, size);
    ProductMonotone(q + 1, i + 1, size);
    assert (q + 1) * size == q * size + size && (i + 1) * size == i * size + size
        && (i + 2) * size == (i + 1) * size + size;
  }

  // Different blocks have no position in common.
  lemma BlocksApart(i: nat, j: nat, size: nat, n: nat, k: nat)
    requires i != j && Start(i, size) <= k < End(i, size, n)
    ensures !(Start(j, size) <= k < End(j, size, n))
  {
    ProductMonotone(i + 1, j, size);
    ProductMonotone(j + 1, i, size);
  }

  // From position start up to position end there are the sums from position from.
  ghost predicate Sums<T>(num: Num<T>, input: seq<T>, output: seq<T>, from: nat, start: nat, end: nat)
  {
    && from <= start && end <= |input| == |output|
    && forall k {:trigger output[k]} :: start <= k < end ==> output[k] == Between(num, input, from, k)
  }

  // Block i holds the sums from its own start.
  ghost predicate Local<T>(num: Num<T>, input: seq<T>, output: seq<T>, size: nat, i: nat)
  {
    Sums(num, input, output, Start(i, size), Start(i, size), End(i, size, |input|))
  }

  // Block i holds the sums from the start of the input.
  ghost predicate Global<T>(num: Num<T>, input: seq<T>, output: seq<T>, size: nat, i: nat)
  {
    Sums(num, input, output, 0, Start(i, size), End(i, size, |input|))
  }

  // The total of block i, converted to 64 bits.
  ghost function BlockTotal<T>(num: Num<T>, input: seq<T>, size: nat, i: nat): nat
    requires size > 0 && i < NumBlocks(|input|, size)
  {
    BlocksTile(|input|, size, i);
    num.toSize(Between(num, input, Start(i, size), End(i, size, |input|)))
  }

  method ScanRange<T(!new)>(num: Num<T>, input: seq<T>, output: array<T>, start: nat, end: nat) returns (total: nat)
    requires IsInteger(num) && start < end <= |input| == output.Length
    modifies output
    ensures Sums(num, input, output[..], start, start, end) && total == num.toSize(Between(num, input, start, end))
    ensures forall k :: 0 <= k < |input| && !(start <= k < end) ==> output[k] == old(output[k])
  {
    output[start] := num.zero;
    assert input[start..start] == [];
    var r := start + 1;
    while r < end
      invariant start < r <= end && Sums(num, input, output[..], start, start, r)
      invariant forall k :: 0 <= k < |input| && !(start <= k < end) ==> output[k] == old(output[k])
    {
      assert output[..][r - 1] == Between(num, input, start, r - 1);
      NextBetween(num, input, start, r - 1);
      ghost var before := output[..];
      output[r] := num.plus(output[r - 1], input[r - 1]);
      assert forall k :: start <= k < r ==> output[..][k] == before[k];
      r := r + 1;
    }
    assert output[..][end - 1] == Between(num, input, start, end - 1);
    NextBetween(num, input, start, end - 1);
    total := num.toSize(num.plus(output[end - 1], input[end - 1]));
  }

  method ScanBlock<T(!new)>(num: Num<T>, input: seq<T>, output: array<T>, size: nat, i: nat) returns (total: nat)
    requires IsInteger(num) && size > 0 && output.Length == |input| && i < NumBlocks(|input|, size)
    modifies output
    ensures Local(num, input, output[..], size, i) && total == BlockTotal(num, input, size, i)
    ensures SameOutside(old(output[..]), output[..], Start(i, size), End(i, size, |input|))
  {
    BlocksTile(|input|, size, i);
    total := ScanRange(num, input, output, Start(i, size), End(i, size, |input|));
  }

  // The offset is added in 64 bits, and the sum is converted back.
  lemma Shifted<T(!new)>(num: Num<T>, input: seq<T>, start: nat, r: nat, offset: nat)
    requires IsInteger(num) && start <= r <= |input| && num.fromSize(offset) == Between(num, input, 0, start)
    ensures num.fromSize((offset + num.toSize(Between(num, input, start, r))) % U64) == Between(num, input, 0, r)
  {
    assert Converts(num, offset, Between(num, input, start, r));
    JoinBetween(num, input, start, r);
  }

  method ShiftRange<T(!new)>(num: Num<T>, input: seq<T>, output: array<T>, start: nat, end: nat, offset: nat)
    requires IsInteger(num) && start < end <= |input| == output.Length
    requires Sums(num, input, output[..], start, start, end) && num.fromSize(offset) == Between(num, input, 0, start)
    modifies output
    ensures Sums(num, input, output[..], 0, start, end)
    ensures forall k :: 0 <= k < |input| && !(start <= k < end) ==> output[k] == old(output[k])
  {
    ghost var before := output[..];
    var r := start;
    while r < end
      invariant start <= r <= end
      invariant forall k :: start <= k < r ==> output[k] == Between(num, input, 0, k)
      invariant forall k :: r <= k < end ==> output[k] == before[k]
      invariant forall k :: 0 <= k < |input| && !(start <= k < end) ==> output[k] == old(output[k])
    {
      assert before[r] == Between(num, input, start, r);
      Shifted(num, input, start, r, offset);
      output[r] := num.fromSize((offset + num.toSize(output[r])) % U64);
      r := r + 1;
    }
  }

  method ShiftBlock<T(!new)>(num: Num<T>, input: seq<T>, output: array<T>, size: nat, i: nat, offset: nat)
    requires IsInteger(num) && size > 0 && output.Length == |input| && i < NumBlocks(|input|, size)
    requires Local(num, input, output[..], size, i)
    requires Start(i, size) < |input| && num.fromSize(offset) == Between(num, input, 0, Start(i, size))
    modifies output
    ensures Global(num, input, output[..], size, i)
    ensures SameOutside(old(output[..]), output[..], Start(i, size), End(i, size, |input|))
  {
    BlocksTile(|input|, size, i);
    ShiftRange(num, input, output, Start(i, size), End(i, size, |input|), offset);
  }

  // The sum of the first k numbers in 64 bits.
  function Running(s: seq<nat>, k: nat): nat
    requires k <= |s|
  {
    if k == 0 then 0 else (Running(s, k - 1) + s[k - 1]) % U64
  }

  // std::exclusive_scan in place over the block totals.
  method ScanTotals(totals: array<nat>)
    modifies totals
    ensures forall k :: 0 <= k < totals.Length ==> totals[k] == Running(old(totals[..]), k)
  {
    ghost var s := totals[..];
    var running: nat, i := 0, 0;
    while i < totals.Length
      invariant 0 <= i <= totals.Length && running == Running(s, i)
      invariant forall k :: 0 <= k < i ==> totals[k] == Running(s, k)
      invariant forall k :: i <= k < totals.Length ==> totals[k] == s[k]
    {
      running, totals[i] := (running + totals[i]) % U64, running;
      i := i + 1;
    }
  }

  // The totals of the blocks before block i, added up in 64 bits, convert to the sum of the
  // elements before the block.
  lemma {:induction false} TotalsAdd<T(!new)>(num: Num<T>, input: seq<T>, size: nat, totals: seq<nat>, i: nat)
    requires IsInteger(num) && size > 0 && |totals| == NumBlocks(|input|, size) && i < |totals|
    requires forall j :: 0 <= j < |totals| ==> totals[j] == BlockTotal(num, input, size, j)
    ensures Start(i, size) < |input| && num.fromSize(Running(totals, i)) == Between(num, input, 0, Start(i, size))
  {
    BlocksTile(|input|, size, i);
    if i == 0 {
      assert input[0..Start(0, size)] == [];
    } else {
      TotalsAdd(num, input, size, totals, i - 1);
      BlocksTile(|input|, size, i - 1);
      assert totals[i - 1] == BlockTotal(num, input, size, i - 1);
      Shifted(num, input, Start(i - 1, size), Start(i, size), Running(totals, i - 1));
    }
  }

  ghost predicate SameOutside<T>(a: seq<T>, b: seq<T>, start: nat, end: nat)
  {
    |a| == |b| && forall k {:trigger b[k]} :: 0 <= k < |a| && !(start <= k < end) ==> b[k] == a[k]
  }

  // What another block satisfies in a frame that leaves its positions alone.
  lemma BlockFrame<T(!new)>(num: Num<T>, input: seq<T>, a: seq<T>, b: seq<T>, size: nat, i: nat, j: nat)
    requires i != j && |b| == |input| && SameOutside(a, b, Start(i, size), End(i, size, |input|))
    ensures Local(num, input, a, size, j) ==> Local(num, input, b, size, j)
    ensures Global(num, input, a, size, j) ==> Global(num, input, b, size, j)
  {
    forall k | Start(j, size) <= k < End(j, size, |input|) ensures b[k] == a[k] {
      BlocksApart(j, i, size, |input|, k);
    }
  }

  ghost predicate Locals<T(!new)>(num: Num<T>, input: seq<T>, output: seq<T>, size: nat, blocks: set<nat>)
  {
    forall j: nat {:trigger Local(num, input, output, size, j)} :: j in blocks ==> Local(num, input, output, size, j)
  }

  ghost predicate Globals<T(!new)>(num: Num<T>, input: seq<T>, output: seq<T>, size: nat, blocks: set<nat>)
  {
    forall j: nat {:trigger Global(num, input, output, size, j)} :: j in blocks ==> Global(num, input, output, size, j)
  }

  lemma FrameAll<T(!new)>(num: Num<T>, input: seq<T>, a: seq<T>, b: seq<T>, size: nat, i: nat, locals: set<nat>,
                          globals: set<nat>)
    requires Locals(num, input, a, size, locals) && Globals(num, input, a, size, globals) && i !in locals
    requires i !in globals
    requires |b| == |input| && SameOutside(a, b, Start(i, size), End(i, size, |input|))
    ensures Locals(num, input, b, size, locals) && Globals(num, input, b, size, globals)
  {
    forall j: nat | j in locals ensures Local(num, input, b, size, j) {
      BlockFrame(num, input, a, b, size, i, j);
    }
    forall j: nat | j in globals ensures Global(num, input, b, size, j) {
      BlockFrame(num, input, a, b, size, i, j);
    }
  }

  // The first parallel loop, in any order of blocks.
  method ScanBlocks<T(!new)>(num: Num<T>, input: seq<T>, output: array<T>, size: nat, totals: array<nat>)
    requires IsInteger(num) && size > 0 && output.Length == |input| && totals.Length == NumBlocks(|input|, size)
    requires (output as object) != totals
    modifies output, totals
    ensures Locals(num, input, output[..], size, Below(totals.Length))
    ensures forall j :: 0 <= j < totals.Length ==> totals[j] == BlockTotal(num, input, size, j)
  {
    var done, todo := {}, Below(totals.Length);
    while todo != {}
      invariant done + todo == Below(totals.Length) && done !! todo
      invariant Locals(num, input, output[..], size, done)
      invariant forall j {:trigger totals[j]} :: j in done ==> totals[j] == BlockTotal(num, input, size, j)
      decreases todo
    {
      var i :| i in todo;
      ghost var before := output[..];
      var total := ScanBlock(num, input, output, size, i);
      FrameAll(num, input, before, output[..], size, i, done, {});
      totals[i] := total;
      done, todo := done + {i}, todo - {i};
    }
  }

  // The second parallel loop.
  method ShiftBlocks<T(!new)>(num: Num<T>, input: seq<T>, output: array<T>, size: nat, offsets: array<nat>)
    requires IsInteger(num) && size > 0 && output.Length == |input| && offsets.Length == NumBlocks(|input|, size)
    requires (output as object) != offsets && Locals(num, input, output[..], size, Below(offsets.Length))
    requires forall j :: 0 <= j < offsets.Length ==>
               Start(j, size) < |input| && num.fromSize(offsets[j]) == Between(num, input, 0, Start(j, size))
    modifies output
    ensures Globals(num, input, output[..], size, Below(offsets.Length))
  {
    var done, todo := {}, Below(offsets.Length);
    while todo != {}
      invariant done + todo == Below(offsets.Length) && done !! todo
      invariant Locals(num, input, output[..], size, todo) && Globals(num, input, output[..], size, done)
      decreases todo
    {
      var i :| i in todo;
      ghost var before := output[..];
      ShiftBlock(num, input, output, size, i, offsets[i]);
      todo := todo - {i};
      FrameAll(num, input, before, output[..], size, i, todo, done);
      done := done + {i};
    }
  }

  // block_scan: whatever the order of the blocks, the result is the exclusive scan, also when
  // sums wrap around.
  method BlockedScan<T(!new)>(num: Num<T>, input: seq<T>, size: nat) returns (r: seq<T>)
    requires IsInteger(num) && size > 0
    ensures r == ScanFrom(num, num.zero, input)
  {
    var output, offsets := new T[|input|](_ => num.zero), new nat[NumBlocks(|input|, size)];
    ScanBlocks(num, input, output, size, offsets);
    ghost var totals := offsets[..];
    ScanTotals(offsets);
    forall j | 0 <= j < offsets.Length
      ensures Start(j, size) < |input| && num.fromSize(offsets[j]) == Between(num, input, 0, Start(j, size))
    {
      TotalsAdd(num, input, size, totals, j);
    }
    ShiftBlocks(num, input, output, size, offsets);
    forall k | 0 <= k < |input| ensures output[..][k] == Between(num, input, 0, k) {
      var i := BlockOf(|input|, size, k);
      assert i in Below(offsets.Length) && Global(num, input, output[..], size, i);
    }
    r := output[..];
    ScanByPositions(num, input, r);
  }

  lemma BlockOf(n: nat, size: nat, k: nat) returns (i: nat)
    requires size > 0 && k < n
    ensures i < NumBlocks(n, size) && Start(i, size) <= k < End(i, size, n)
  {
    i := k / size;
    assert k == i * size + k % size;
    assert (i + 1) * size == i * size + size;
    BlocksTile(n, size, i);
  }
}
