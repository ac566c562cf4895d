// ExternalTransform: every schedule of the tasks and of the writer gives the sequence that
// processing the chunks one after the other would give
// (Plaidlay/external_engine/external_engine.h).
module ChunkEngine {
  import opened Sequences
  import opened ExternalSequence
  import opened EngineState
  import ChunkReader

  // ---- when everything is written ----------------------------------------------------------

  predicate Finished<T>(s: State<T>)
  {
    BatchDone(s) && s.waiting == [] && s.writes == map[]
  }

  // The headers of the claimed slots then describe exactly the emitted blocks, in regions that
  // do not overlap.
  lemma FinishedHeaders<T(!new)>(c: Config, s: State<T>, total: multiset<Item<T>>)
    requires Inv(c, s, total) && Finished(s)
    ensures Items(s.store, s.headers[..|s.log|]) == s.log && multiset(s.log) == total
    ensures AllApart(s.headers[..|s.log|], c.blockBytes)
  {
    AllPushed(s);
    assert multiset(s.log) + multiset(Concat(Unclaimed(s))) == multiset(s.log);
    var hs := s.headers[..|s.log|];
    forall k | 0 <= k < |s.log| ensures Items(s.store, hs)[k] == s.log[k] {
      WrittenItem(c, s, k);
    }
    forall j, k | 0 <= j < k < |hs| ensures Apart(hs[j], hs[k], c.blockBytes) {
      assert j in s.placed && k in s.placed;
    }
    AllApartPairs(hs, c.blockBytes);
  }

  lemma WrittenItem<T(!new)>(c: Config, s: State<T>, k: nat)
    requires SlotsInv(c, s) && s.writes == map[] && k in s.pushed
    ensures k < |s.log| <= |s.headers| && Item(s.headers[k].index, Block(s.store, s.headers[k])) == s.log[k]
  {
    assert HeaderInv(c, s, k) && Stored(s, k);
  }

  // ---- the schedule ------------------------------------------------------------------------

  ghost function Weight<T>(todo: seq<Item<T>>, stage: Stage): nat
  {
    if todo == [] then 0 else 3 * |todo| - (match stage case Idle => 0 case Claimed(_) => 1 case Reserved(_) => 2)
  }

  // The atomic steps left in the current batch.
  ghost function Work<T>(s: State<T>): nat
    requires |s.todo| == |s.stage|
  {
    Total(Weights(s))
  }

  ghost function Weights<T>(s: State<T>): (r: seq<nat>)
    requires |s.todo| == |s.stage|
    ensures |r| == |s.todo| && forall i :: 0 <= i < |r| ==> r[i] == Weight(s.todo[i], s.stage[i])
  {
    seq(|s.todo|, i requires 0 <= i < |s.todo| => Weight(s.todo[i], s.stage[i]))
  }

  lemma WorkShrinks<T>(s: State<T>, t: State<T>, i: nat)
    requires |s.todo| == |s.stage| == |t.todo| == |t.stage| && i < |s.todo|
    requires t.todo == s.todo[i := t.todo[i]] && t.stage == s.stage[i := t.stage[i]]
    requires Weight(t.todo[i], t.stage[i]) < Weight(s.todo[i], s.stage[i])
    ensures Work(t) < Work(s)
  {
    assert Weights(t) == Weights(s)[i := Weight(t.todo[i], t.stage[i])];
    TotalUpdate(Weights(s), i, Weight(t.todo[i], t.stage[i]));
  }

  // The next atomic operation of task i.
  function TaskStep<T>(c: Config, s: State<T>, i: nat): State<T>
    requires i < |s.todo| == |s.stage| && s.todo[i] != [] && |s.log| <= |s.headers|
    requires |s.offsets| == c.numSsds > 0 && (s.stage[i] != Idle ==> s.stage[i].slot < |s.log|)
  {
    match s.stage[i]
    case Idle => Claim(s, i)
    case Claimed(k) => Reserve(c, s, i, c.hash(k) % c.numSsds)
    case Reserved(_) => Push(s, i)
  }

  lemma TaskStepWorks<T>(c: Config, s: State<T>, i: nat)
    requires TasksInv(s) && i < |s.todo| && s.todo[i] != [] && |s.log| <= |s.headers| && |s.offsets| == c.numSsds > 0
    ensures s.stage[i] != Idle ==> s.stage[i].slot < |s.log|
    ensures TasksInv(TaskStep(c, s, i)) ==> Work(TaskStep(c, s, i)) < Work(s)
  {
    assert TaskInv(s, i);
    var t := TaskStep(c, s, i);
    assert |t.todo| == |s.todo| && |t.stage| == |s.stage|;
    WorkShrinks(s, t, i);
  }

  lemma TaskStepKeepsInv<T(!new)>(c: Config, s: State<T>, i: nat, total: multiset<Item<T>>)
    requires Inv(c, s, total) && i < |s.todo| && s.todo[i] != []
    ensures s.stage[i] != Idle ==> s.stage[i].slot < |s.log|
    ensures Inv(c, TaskStep(c, s, i), total) && Work(TaskStep(c, s, i)) < Work(s)
  {
    TaskStepWorks(c, s, i);
    match s.stage[i] {
      case Idle => ClaimKeepsInv(c, s, i, total);
      case Claimed(k) => ReserveKeepsInv(c, s, i, c.hash(k) % c.numSsds, total);
      case Reserved(_) => PushKeepsInv(c, s, i, total);
    }
  }

  // One parallel_for: the tasks take their steps in any order, and before, between and after
  // them the writer completes some of the queued writes, in any order. The others stay queued
  // when the batch ends.
  method RunBatch<T(!new)>(c: Config, start: State<T>, ghost total: multiset<Item<T>>) returns (s: State<T>)
    requires Inv(c, start, total)
    ensures Inv(c, s, total) && BatchDone(s) && s.waiting == start.waiting
  {
    s := CompleteSome(c, start, total);
    while exists i :: 0 <= i < |s.todo| && s.todo[i] != []
      invariant Inv(c, s, total) && s.waiting == start.waiting
      decreases Work(s)
    {
      var i :| 0 <= i < |s.todo| && s.todo[i] != [];
      s := StepAndComplete(c, s, i, total);
    }
    IdleWhenEmpty(s);
  }

  method StepAndComplete<T(!new)>(c: Config, start: State<T>, i: nat, ghost total: multiset<Item<T>>)
    returns (s: State<T>)
    requires Inv(c, start, total) && i < |start.todo| && start.todo[i] != []
    ensures Inv(c, s, total) && s.waiting == start.waiting && Work(s) < Work(start)
  {
    TaskStepKeepsInv(c, start, i, total);
    var t := TaskStep(c, start, i);
    s := CompleteSome(c, t, total);
    SameWork(s, t);
  }

  lemma SameWork<T>(s: State<T>, t: State<T>)
    requires |s.todo| == |s.stage| && s.todo == t.todo && s.stage == t.stage
    ensures Work(s) == Work(t)
  {
    assert Weights(s) == Weights(t);
  }

  // Any number of the queued writes complete.
  method CompleteSome<T(!new)>(c: Config, start: State<T>, ghost total: multiset<Item<T>>) returns (s: State<T>)
    requires Inv(c, start, total)
    ensures Inv(c, s, total) && SameButWrites(s, start)
  {
    s := start;
    var more: bool := *;
    while more && s.writes != map[]
      invariant Inv(c, s, total) && SameButWrites(s, start)
      decreases |s.writes|
    {
      s := CompleteAny(c, s, total);
      more := *;
    }
  }

  ghost predicate SameButWrites<T>(s: State<T>, t: State<T>)
  {
    s.waiting == t.waiting && s.todo == t.todo && s.stage == t.stage && s.headers == t.headers
  }

  lemma IdleWhenEmpty<T(!new)>(s: State<T>)
    requires TasksInv(s) && forall i :: 0 <= i < |s.todo| ==> s.todo[i] == []
    ensures BatchDone(s)
  {
    forall i | 0 <= i < |s.todo| ensures s.stage[i] == Idle {
      assert TaskInv(s, i);
    }
  }

  method CompleteAny<T(!new)>(c: Config, s: State<T>, ghost total: multiset<Item<T>>) returns (t: State<T>)
    requires Inv(c, s, total) && s.writes != map[]
    ensures Inv(c, t, total) && |t.writes| < |s.writes| && SameButWrites(t, s)
  {
    var a :| a in s.writes;
    CompleteKeepsInv(c, s, a, total);
    t := Complete(s, a);
    assert t.writes.Keys == s.writes.Keys - {a};
    assert |t.writes.Keys| < |s.writes.Keys|;
  }

  // Wait: the writer finishes what is queued.
  method Wait<T(!new)>(c: Config, start: State<T>, ghost total: multiset<Item<T>>) returns (s: State<T>)
    requires Ready(c, start, total)
    ensures Inv(c, s, total) && BatchDone(s) && s.waiting == start.waiting && s.writes == map[]
  {
    s := start;
    while s.writes != map[]
      invariant Inv(c, s, total) && BatchDone(s) && s.waiting == start.waiting
      decreases |s.writes|
    {
      s := CompleteAny(c, s, total);
    }
  }

  function AfterRound(waiting: nat, n: nat): nat
  {
    if waiting < n then 0 else waiting - n
  }

  // Rounds of n polls empty the queue of waiting chunks.
  ghost predicate Covers(rounds: nat, n: nat, waiting: nat)
  {
    waiting == 0 || (rounds > 0 && Covers(rounds - 1, n, AfterRound(waiting, n)))
  }

  lemma CoversNext(rounds: nat, n: nat, waiting: nat, left: nat)
    requires Covers(rounds, n, waiting) && rounds > 0 && left == AfterRound(waiting, n)
    ensures Covers(rounds - 1, n, left)
  {
  }

  lemma {:induction false} ProductCovers(rounds: nat, n: nat, waiting: nat)
    requires n > 0
    ensures Covers(rounds, n, waiting) <==> waiting <= rounds * n
  {
    if rounds > 0 && waiting > 0 {
      ProductCovers(rounds - 1, n, AfterRound(waiting, n));
      assert (rounds - 1) * n == rounds * n - n && (rounds - 1) * n >= 0;
    }
  }

  // Just enough rounds.
  method ExpectedReads(chunks: nat, n: nat) returns (rounds: nat)
    requires n > 0
    ensures Covers(rounds, n, chunks) && (rounds > 0 ==> !Covers(rounds - 1, n, chunks))
  {
    rounds := (chunks + n - 1) / n;
    ProductCovers(rounds, n, chunks);
    if rounds > 0 {
      ProductCovers(rounds - 1, n, chunks);
    }
  }

  // One round of polls, one per drive while there are chunks left.
  method NextRound<T(!new)>(c: Config, start: State<T>, ghost total: multiset<Item<T>>) returns (s: State<T>)
    requires Ready(c, start, total)
    ensures Ready(c, s, total)
    ensures |s.waiting| == AfterRound(|start.waiting|, c.numSsds)
  {
    var polled := if |start.waiting| < c.numSsds then |start.waiting| else c.numSsds;
    NextBatchKeepsInv(c, start, polled, total);
    s := RunBatch(c, NextBatch(start, polled), total);
  }

  method RunBatches<T(!new)>(c: Config, start: State<T>, ghost total: multiset<Item<T>>) returns (s: State<T>)
    requires Ready(c, start, total)
    ensures Ready(c, s, total) && s.waiting == []
  {
    s := start;
    var expectedReads := ExpectedReads(|s.waiting|, c.numSsds);
    var readCount := 0;
    while readCount < expectedReads
      invariant 0 <= readCount <= expectedReads
      invariant Ready(c, s, total)
      invariant Covers(expectedReads - readCount, c.numSsds, |s.waiting|)
    {
      ghost var before := |s.waiting|;
      s := NextRound(c, s, total);
      CoversNext(expectedReads - readCount, c.numSsds, before, |s.waiting|);
      readCount := readCount + 1;
    }
  }

  // Between two batches.
  ghost predicate Ready<T(!new)>(c: Config, s: State<T>, total: multiset<Item<T>>)
  {
    Inv(c, s, total) && BatchDone(s)
  }

  // What an output sequence stored in st must satisfy to stand for the items e.
  ghost predicate Represents<R>(c: Config, st: Store<R>, out: seq<Header>, e: seq<Item<R>>)
  {
    && |out| == |e| && Data(Items(st, out)) == Data(e) && Denote(st, out) == Elements(e)
    && AllApart(out, c.blockBytes)
  }

  // Trimming the headers to the claimed slots, sorting them and rewriting their indices.
  method SortResult<R(!new)>(c: Config, s: State<R>, ghost e: seq<Item<R>>, compact: bool) returns (out: seq<Header>)
    requires Inv(c, s, multiset(e)) && Finished(s) && Increasing(e)
    ensures Represents(c, s.store, out, e)
    ensures if compact then Dense(out) else Items(s.store, out) == e
  {
    FinishedHeaders(c, s, multiset(e));
    ghost var st := s.store;
    var claimed := s.headers[..|s.log|];
    out := SortHeaders(claimed);
    SortedRepresents(c, st, claimed, e);
    if compact {
      DensifyRepresents(c, st, out, e);
      out := Densify(out);
    }
  }

  lemma SortedRepresents<R>(c: Config, st: Store<R>, claimed: seq<Header>, e: seq<Item<R>>)
    requires multiset(Items(st, claimed)) == multiset(e) && Increasing(e) && AllApart(claimed, c.blockBytes)
    ensures Items(st, SortHeaders(claimed)) == e && Represents(c, st, SortHeaders(claimed), e)
  {
    SortedHeadersDenote(st, claimed, e);
    SortedApart(claimed, c.blockBytes);
    assert |Items(st, SortHeaders(claimed))| == |e|;
  }

  lemma DensifyRepresents<R>(c: Config, st: Store<R>, out: seq<Header>, e: seq<Item<R>>)
    requires Represents(c, st, out, e)
    ensures Represents(c, st, Densify(out), e)
  {
    DensifyDenotes(st, out);
    DensifiedApart(out, c.blockBytes);
    assert Data(Items(st, Densify(out))) == Data(Items(st, out));
  }

  // Whatever order the readers deliver the chunks in, and however the tasks and the writer are
  // interleaved, the result stands for the blocks of a sequential run.
  method ExternalTransform<T(!new), R(!new)>(c: Config, reader: ChunkReader.Setup, input: Store<T>,
                                             headers: seq<Header>,
                                             body: Item<T> -> seq<Item<R>>, maxOut: nat, compact: bool)
    returns (st: Store<R>, out: seq<Header>)
    requires c.numSsds > 0 && c.blockBytes > 0 && ChunkReader.CanRead(reader)
    requires forall x :: x in Items(input, headers) ==> |body(x)| <= maxOut
    requires Increasing(FlatMap(body, Items(input, headers)))
    ensures Represents(c, st, out, FlatMap(body, Items(input, headers)))
    ensures |out| <= |headers| * maxOut
    ensures if compact then Dense(out) else Items(st, out) == FlatMap(body, Items(input, headers))
  {
    ghost var e := FlatMap(body, Items(input, headers));
    var arrivals := ChunkReader.ReadChunks(reader, input, headers);
    FlatMapAnyOrder(body, arrivals, Items(input, headers));
    FlatMapBound(body, Items(input, headers), maxOut);
    assert |multiset(e)| <= |headers| * maxOut;
    var waiting := seq(|arrivals|, i requires 0 <= i < |arrivals| => body(arrivals[i]));
    assert waiting == MapParts(body, arrivals);
    var s := Start(c, waiting, |headers| * maxOut, multiset(e));
    s := RunBatches(c, s, multiset(e));
    s := Wait(c, s, multiset(e));
    st := s.store;
    out := SortResult(c, s, e, compact);
  }

  // The result sequence has room for maxOut headers for each chunk.
  method Start<T(!new)>(c: Config, waiting: seq<seq<Item<T>>>, capacity: nat, ghost total: multiset<Item<T>>)
    returns (s: State<T>)
    requires c.numSsds > 0 && c.blockBytes > 0
    requires multiset(Concat(waiting)) == total && |total| <= capacity
    ensures Ready(c, s, total) && s.waiting == waiting && |s.headers| == capacity
  {
    s := State(waiting, [], [], seq(capacity, _ => Header(0, 0, 0, 0)), seq(c.numSsds, _ => 0), map[], map[], [], {},
               {});
    assert Unclaimed(s) == [];
    assert (multiset(s.log) + multiset(Concat(Unclaimed(s)))) + multiset(Concat(waiting)) == multiset(Concat(waiting));
  }
}
