// Batches that emit one block per drive: slots are claimed in parallel, disk regions are then
// given out in a loop over the drives (Plaidlay/ExternalBoolean.h and
// Plaidlay/examples/external/primes.h).
module BatchRounds {
  import opened Sequences
  import opened ExternalSequence
  import opened EngineState
  import opened ChunkEngine

  // Every task has one block to emit and has not begun.
  ghost predicate OneBlockEach<T>(s: State<T>)
  {
    |s.todo| == |s.stage| && forall i {:trigger s.todo[i]} :: 0 <= i < |s.todo| ==>
        |s.todo[i]| == 1 && s.stage[i] == Idle
  }

  ghost predicate SameInput<T>(s: State<T>, t: State<T>)
  {
    s.waiting == t.waiting && |s.headers| == |t.headers|
  }

  // In the parallel loop: every task has claimed its slot or has not begun.
  ghost predicate Claiming<T>(s: State<T>)
  {
    |s.todo| == |s.stage| && forall i {:trigger s.todo[i]} :: 0 <= i < |s.todo| ==>
        |s.todo[i]| == 1 && !s.stage[i].Reserved?
  }

  // In the loop over the drives: those before r are done, the others still hold their slots.
  ghost predicate Placing<T>(s: State<T>, r: nat)
  {
    && |s.todo| == |s.stage|
    && (forall i {:trigger s.todo[i]} :: 0 <= i < r && i < |s.todo| ==> s.todo[i] == [] && s.stage[i] == Idle)
    && (forall i {:trigger s.todo[i]} :: r <= i < |s.todo| ==> |s.todo[i]| == 1 && s.stage[i].Claimed?)
  }

  function CountIdle(stage: seq<Stage>): (r: nat)
    ensures r > 0 <==> exists i :: 0 <= i < |stage| && stage[i] == Idle
  {
    if stage == [] then 0
    else
      var n := |stage| - 1;
      assert stage == stage[..n] + [stage[n]];
      CountIdle(stage[..n]) + if stage[n] == Idle then 1 else 0
  }

  lemma {:induction false} CountIdleUpdate(stage: seq<Stage>, i: nat, to: Stage)
    requires i < |stage| && stage[i] == Idle && to != Idle
    ensures CountIdle(stage[i := to]) < CountIdle(stage)
  {
    var n := |stage| - 1;
    if i == n {
      assert stage[i := to][..n] == stage[..n];
    } else {
      assert stage[i := to][..n] == stage[..n][i := to];
      CountIdleUpdate(stage[..n], i, to);
    }
  }

  // counter.fetch_add(1), by the tasks in any order.
  method ClaimSlots<T(!new)>(c: Config, start: State<T>, ghost total: multiset<Item<T>>) returns (s: State<T>)
    requires Inv(c, start, total) && OneBlockEach(start)
    ensures Inv(c, s, total) && SameInput(s, start) && Placing(s, 0)
  {
    s := start;
    while CountIdle(s.stage) > 0
      invariant Inv(c, s, total) && SameInput(s, start) && Claiming(s)
      decreases CountIdle(s.stage)
    {
      s := CompleteSome(c, s, total);
      s := ClaimAny(c, s, total);
    }
    AllClaimed(s);
  }

  lemma AllClaimed<T>(s: State<T>)
    requires Claiming(s) && CountIdle(s.stage) == 0
    ensures Placing(s, 0)
  {
    forall i | 0 <= i < |s.todo| ensures |s.todo[i]| == 1 && s.stage[i].Claimed? {
      assert |s.todo[i]| == 1 && !s.stage[i].Reserved?;
    }
  }

  method ClaimAny<T(!new)>(c: Config, start: State<T>, ghost total: multiset<Item<T>>) returns (s: State<T>)
    requires Inv(c, start, total) && Claiming(start) && CountIdle(start.stage) > 0
    ensures Inv(c, s, total) && SameInput(s, start) && Claiming(s)
    ensures CountIdle(s.stage) < CountIdle(start.stage)
  {
    var i :| 0 <= i < |start.stage| && start.stage[i] == Idle;
    OneTodo(start, i);
    ClaimKeepsInv(c, start, i, total);
    CountIdleUpdate(start.stage, i, Claimed(|start.log|));
    s := Claim(start, i);
    ClaimKeepsClaiming(start, i);
  }

  lemma OneTodo<T>(s: State<T>, i: nat)
    requires Claiming(s) && i < |s.todo|
    ensures |s.todo[i]| == 1
  {
    assert |s.todo[i]| == 1 && !s.stage[i].Reserved?;
  }

  lemma ClaimKeepsClaiming<T>(s: State<T>, i: nat)
    requires Claiming(s) && i < |s.todo| && |s.todo[i]| == 1
    ensures Claiming(Claim(s, i))
  {
    var t := Claim(s, i);
    forall k | 0 <= k < |t.todo| ensures |t.todo[k]| == 1 && !t.stage[k].Reserved? {
      assert |s.todo[k]| == 1 && !s.stage[k].Reserved?;
    }
  }

  // The loop over the drives: each block goes to a file drawn at random, for this batch alone.
  method PlaceBlocks<T(!new)>(c: Config, start: State<T>, ghost total: multiset<Item<T>>)
    returns (s: State<T>)
    requires Inv(c, start, total) && Placing(start, 0)
    ensures Ready(c, s, total) && SameInput(s, start)
  {
    s := start;
    var r := 0;
    while r < |s.todo|
      invariant 0 <= r <= |s.todo| == |start.todo|
      invariant Inv(c, s, total) && SameInput(s, start) && Placing(s, r)
    {
      s := CompleteSome(c, s, total);
      var f: nat :| f < c.numSsds;
      s := PlaceBlock(c, s, r, f, total);
      r := r + 1;
    }
    AllPlaced(s);
  }

  lemma AllPlaced<T>(s: State<T>)
    requires Placing(s, |s.todo|)
    ensures BatchDone(s)
  {
    forall i | 0 <= i < |s.todo| ensures s.todo[i] == [] && s.stage[i] == Idle {
    }
  }

  method PlaceBlock<T(!new)>(c: Config, start: State<T>, r: nat, f: nat, ghost total: multiset<Item<T>>)
    returns (s: State<T>)
    requires Inv(c, start, total) && r < |start.todo| && f < c.numSsds && Placing(start, r)
    ensures Inv(c, s, total) && SameInput(s, start) && |s.todo| == |start.todo|
    ensures Placing(s, r + 1)
  {
    assert |start.todo[r]| == 1 && start.stage[r].Claimed?;
    ReserveKeepsInv(c, start, r, f, total);
    var m := Reserve(c, start, r, f);
    PushKeepsInv(c, m, r, total);
    s := Push(m, r);
    PlacedOne(start, s, r);
  }

  lemma PlacedOne<T>(s: State<T>, t: State<T>, r: nat)
    requires Placing(s, r) && r < |s.todo| && |t.todo| == |t.stage|
    requires |s.todo[r]| == 1 && t.todo == s.todo[r := s.todo[r][1..]] && t.stage == s.stage[r := Idle]
    ensures Placing(t, r + 1)
  {
    forall i | 0 <= i <= r ensures t.todo[i] == [] && t.stage[i] == Idle {
      assert i < r ==> s.todo[i] == [] && s.stage[i] == Idle;
    }
    forall i | r + 1 <= i < |t.todo| ensures |t.todo[i]| == 1 && t.stage[i].Claimed? {
      assert t.todo[i] == s.todo[i];
    }
  }

  // Between two rounds: the blocks in done are laid out, in some order of slots, in a result
  // with room for capacity headers.
  ghost predicate Laid<T(!new)>(c: Config, s: State<T>, done: seq<Item<T>>, capacity: nat)
  {
    Ready(c, s, multiset(done)) && s.waiting == [] && |s.headers| == capacity
  }

  method NoneLaid<T(!new)>(c: Config, capacity: nat) returns (s: State<T>)
    requires c.numSsds > 0 && c.blockBytes > 0
    ensures Laid(c, s, [], capacity)
  {
    s := Start(c, [], capacity, multiset([]));
  }

  function Singles<X>(s: seq<X>): (r: seq<seq<X>>)
    ensures |r| == |s| && forall i :: 0 <= i < |s| ==> r[i] == [s[i]]
  {
    seq(|s|, i requires 0 <= i < |s| => [s[i]])
  }

  // A whole batch over the given blocks.
  method RunRound<T(!new)>(c: Config, start: State<T>, blocks: seq<Item<T>>, ghost done: seq<Item<T>>,
                           ghost capacity: nat)
    returns (s: State<T>)
    requires Laid(c, start, done, capacity) && |done| + |blocks| <= capacity
    ensures Laid(c, s, done + blocks, capacity)
  {
    var emissions := Singles(blocks);
    ArriveLaid(c, start, emissions, blocks, done, capacity);
    s := Arrive(start, emissions);
    s := RunArrived(c, s, multiset(done + blocks));
  }

  lemma ArriveLaid<T(!new)>(c: Config, s: State<T>, emissions: seq<seq<Item<T>>>, blocks: seq<Item<T>>,
                            done: seq<Item<T>>, capacity: nat)
    requires Laid(c, s, done, capacity) && |done| + |blocks| <= capacity
    requires emissions == Singles(blocks)
    ensures AllSingle(emissions)
    ensures Ready(c, Arrive(s, emissions), multiset(done + blocks))
    ensures Arrive(s, emissions).waiting == emissions
  {
    ConcatSingles(emissions, blocks);
    assert |multiset(done)| == |done|;
    ArriveKeepsInv(c, s, emissions, multiset(done));
    assert multiset(done + blocks) == multiset(done) + multiset(blocks);
  }

  ghost predicate AllSingle<X>(ss: seq<seq<X>>)
  {
    forall i {:trigger ss[i]} :: 0 <= i < |ss| ==> |ss[i]| == 1
  }

  // A batch over all the chunks that have arrived.
  method RunArrived<T(!new)>(c: Config, start: State<T>, ghost total: multiset<Item<T>>) returns (s: State<T>)
    requires Ready(c, start, total) && AllSingle(start.waiting)
    ensures Ready(c, s, total) && s.waiting == [] && |s.headers| == |start.headers|
  {
    NextBatchKeepsInv(c, start, |start.waiting|, total);
    s := NextBatch(start, |start.waiting|);
    s := ClaimSlots(c, s, total);
    s := PlaceBlocks(c, s, total);
  }

  // Once everything is written the headers are sorted by index.
  method FinishRounds<T(!new)>(c: Config, start: State<T>, ghost done: seq<Item<T>>, ghost e: seq<Item<T>>,
                               ghost capacity: nat)
    returns (st: Store<T>, out: seq<Header>)
    requires Laid(c, start, done, capacity) && multiset(done) == multiset(e) && Increasing(e)
    ensures Items(st, out) == e && AllApart(out, c.blockBytes)
  {
    var s := Wait(c, start, multiset(done));
    st := s.store;
    out := SortResult(c, s, e, false);
  }

  lemma {:induction false} ConcatSingles<X>(ss: seq<seq<X>>, s: seq<X>)
    requires |ss| == |s| && forall i :: 0 <= i < |s| ==> ss[i] == [s[i]]
    ensures Concat(ss) == s
  {
    if s != [] {
      var n := |s| - 1;
      ConcatSingles(ss[..n], s[..n]);
      assert s == s[..n] + [s[n]];
    }
  }
}
