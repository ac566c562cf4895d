// The first pass of the external shuffle: workers route elements to buckets at random and
// flush full buffers as blocks tagged with their bucket (Plaidlay/examples/Extern_random_shuffle.h).
module ShuffleScatter {
  import opened Sequences
  import opened Shares
  import opened ExternalSequence
  import opened BlockDisk

  // A block of blockBytes bytes holds blockElems elements of elemBytes bytes. draw gives the
  // random number of an element's label.
  datatype Config = Config(numBuckets: nat, blockElems: nat, elemBytes: nat, blockBytes: nat, numSsds: nat,
                           hash: (nat, nat) -> nat, draw: nat -> nat)

  ghost predicate IsConfig(c: Config)
  {
    c.numBuckets > 0 && c.blockElems > 0 && c.elemBytes > 0 && c.blockBytes == c.blockElems * c.elemBytes > 0
        && c.numSsds > 0
  }

  // rest, index: what is left of the chunk in hand, and the label of its first element; cleaned
  // counts the buffers flushed at the end.
  datatype Worker<T> = Worker(rest: seq<T>, index: nat, bufs: seq<seq<T>>, produced: seq<Header>, exhausted: bool,
                              cleaned: nat)

  datatype State<T> = State(arrivals: seq<Chunk<T>>, workers: seq<Worker<T>>, disk: Disk<T>)

  // The bucket of the element with label k.
  function Bucket(c: Config, k: nat): nat
  {
    if c.numBuckets == 0 then 0 else c.draw(k) % c.numBuckets
  }

  // The same as an assigner.
  ghost function ToBucket<T>(c: Config): (T, nat) -> nat
  {
    (x: T, k: nat) => Bucket(c, k)
  }

  // ---- invariant ---------------------------------------------------------------------------

  ghost predicate WorkerInv<T>(c: Config, st: Store<T>, w: Worker<T>)
  {
    && |w.bufs| == c.numBuckets && w.cleaned <= c.numBuckets
    && (forall b {:trigger w.bufs[b]} :: 0 <= b < c.numBuckets ==> |w.bufs[b]| < c.blockElems)
    && (w.exhausted ==> w.rest == [])
    && (forall b {:trigger w.bufs[b]} :: 0 <= b < w.cleaned ==> w.bufs[b] == [])
    && (w.cleaned > 0 ==> w.exhausted)
    && AllLocated(st, w.produced)
    && (forall k {:trigger w.produced[k]} :: 0 <= k < |w.produced| ==>
          w.produced[k].index < c.numBuckets && 0 < w.produced[k].used <= c.blockElems)
  }

  // The elements a worker has taken in for bucket b: not yet routed, buffered, or in its blocks.
  ghost function Holds<T>(c: Config, st: Store<T>, w: Worker<T>, b: nat): multiset<T>
  {
    (Portion(w.rest, w.index, ToBucket(c), b) + Buffered(w, b)) + InBlocks(st, w.produced, b)
  }

  ghost function Buffered<T>(w: Worker<T>, b: nat): multiset<T>
  {
    if b < |w.bufs| then multiset(w.bufs[b]) else multiset{}
  }

  ghost function InBlocks<T>(st: Store<T>, hs: seq<Header>, b: nat): multiset<T>
  {
    multiset(Elements(Items(st, Tagged(hs, b))))
  }

  // Worker w with store st holds what w' does with st'.
  ghost predicate HoldsSame<T>(c: Config, st: Store<T>, w: Worker<T>, st': Store<T>, w': Worker<T>)
  {
    forall b: nat {:trigger Holds(c, st, w, b)} :: b < c.numBuckets ==> Holds(c, st, w, b) == Holds(c, st', w', b)
  }

  ghost function Holdings<T>(c: Config, st: Store<T>, ws: seq<Worker<T>>, b: nat): (r: seq<multiset<T>>)
    ensures |r| == |ws| && forall i :: 0 <= i < |ws| ==> r[i] == Holds(c, st, ws[i], b)
  {
    seq(|ws|, i requires 0 <= i < |ws| => Holds(c, st, ws[i], b))
  }

  ghost predicate WorkersInv<T>(c: Config, st: Store<T>, ws: seq<Worker<T>>)
  {
    forall i {:trigger WorkerInv(c, st, ws[i])} :: 0 <= i < |ws| ==> WorkerInv(c, st, ws[i])
  }

  // A worker finds the input exhausted only once every chunk has been polled.
  ghost predicate ExhaustedAtEnd<T>(arrivals: seq<Chunk<T>>, ws: seq<Worker<T>>)
  {
    arrivals == [] || forall i {:trigger ws[i]} :: 0 <= i < |ws| ==> !ws[i].exhausted
  }

  // The workers hold what belongs in bucket b of the chunks that have been polled.
  ghost predicate ConservedFor<T>(c: Config, st: Store<T>, arrivals: seq<Chunk<T>>, ws: seq<Worker<T>>,
                                  input: seq<Chunk<T>>, b: nat)
  {
    Sum(Holdings(c, st, ws, b)) + Share(arrivals, ToBucket(c), b) == Share(input, ToBucket(c), b)
  }

  ghost predicate Conserved<T>(c: Config, st: Store<T>, arrivals: seq<Chunk<T>>, ws: seq<Worker<T>>,
                               input: seq<Chunk<T>>)
  {
    forall b: nat {:trigger ConservedFor(c, st, arrivals, ws, input, b)} :: b < c.numBuckets ==>
      ConservedFor(c, st, arrivals, ws, input, b)
  }

  ghost function RegionsOf<T>(ws: seq<Worker<T>>): (r: seq<multiset<(nat, nat)>>)
    ensures |r| == |ws| && forall i :: 0 <= i < |r| ==> r[i] == multiset(Regions(ws[i].produced))
  {
    seq(|ws|, i requires 0 <= i < |ws| => multiset(Regions(ws[i].produced)))
  }

  // The headers of all workers together use every region on disk exactly once.
  ghost predicate RegionsKept<T>(st: Store<T>, ws: seq<Worker<T>>)
  {
    Sum(RegionsOf(ws)) == multiset(st.Keys)
  }

  // What holds of the workers when the files hold st.
  ghost predicate FlowInv<T>(c: Config, st: Store<T>, arrivals: seq<Chunk<T>>, ws: seq<Worker<T>>, input: seq<Chunk<T>>)
  {
    && c.numBuckets > 0 && c.blockElems > 0
    && WorkersInv(c, st, ws) && ExhaustedAtEnd(arrivals, ws) && Conserved(c, st, arrivals, ws, input)
  }

  ghost predicate Inv<T>(c: Config, s: State<T>, input: seq<Chunk<T>>)
  {
    && c.numSsds == |s.disk.offsets| > 0 && Valid(s.disk, c.blockBytes)
    && FlowInv(c, Content(s.disk), s.arrivals, s.workers, input) && RegionsKept(Content(s.disk), s.workers)
  }

  // ---- steps of one worker -----------------------------------------------------------------

  // A step of worker i that neither polls nor writes, and keeps what the worker holds.
  lemma LocalStepKeepsInv<T(!new)>(c: Config, st: Store<T>, arrivals: seq<Chunk<T>>, ws: seq<Worker<T>>, i: nat,
                                   w: Worker<T>, input: seq<Chunk<T>>)
    requires FlowInv(c, st, arrivals, ws, input) && i < |ws|
    requires WorkerInv(c, st, w) && HoldsSame(c, st, w, st, ws[i])
    requires w.exhausted ==> arrivals == []
    ensures FlowInv(c, st, arrivals, ws[i := w], input)
  {
    var ws' := ws[i := w];
    forall b: nat | b < c.numBuckets ensures ConservedFor(c, st, arrivals, ws', input, b) {
      assert ConservedFor(c, st, arrivals, ws, input, b);
      SameHoldings(c, st, ws, i, w, b);
    }
    forall j | 0 <= j < |ws| ensures WorkerInv(c, st, ws'[j]) {
      assert j != i ==> WorkerInv(c, st, ws[j]);
    }
  }

  lemma SameHoldings<T>(c: Config, st: Store<T>, ws: seq<Worker<T>>, i: nat, w: Worker<T>, b: nat)
    requires i < |ws| && Holds(c, st, w, b) == Holds(c, st, ws[i], b)
    ensures Holdings(c, st, ws[i := w], b) == Holdings(c, st, ws, b)
  {
  }

  // Worker i takes the chunk at the head of the queue.
  function Poll<T>(s: State<T>, i: nat): State<T>
    requires i < |s.workers| && s.arrivals != []
  {
    s.(arrivals := s.arrivals[1..], workers := s.workers[i := Polled(s.workers[i], s.arrivals[0])])
  }

  function Polled<T>(w: Worker<T>, chunk: Chunk<T>): Worker<T>
  {
    w.(rest := chunk.data, index := chunk.indexStart)
  }

  lemma PollKeepsInv<T(!new)>(c: Config, st: Store<T>, arrivals: seq<Chunk<T>>, ws: seq<Worker<T>>, i: nat,
                              input: seq<Chunk<T>>)
    requires FlowInv(c, st, arrivals, ws, input)
    requires i < |ws| && arrivals != [] && ws[i].rest == [] && !ws[i].exhausted
    ensures FlowInv(c, st, arrivals[1..], ws[i := Polled(ws[i], arrivals[0])], input)
  {
    var ws' := ws[i := Polled(ws[i], arrivals[0])];
    forall b: nat | b < c.numBuckets ensures ConservedFor(c, st, arrivals[1..], ws', input, b) {
      assert ConservedFor(c, st, arrivals, ws, input, b);
      PollConserves(c, st, arrivals, ws, i, input, b);
    }
    assert WorkerInv(c, st, ws[i]);
    forall j | 0 <= j < |ws| ensures WorkerInv(c, st, ws'[j]) {
      assert j != i ==> WorkerInv(c, st, ws[j]);
    }
  }

  lemma PollConserves<T(!new)>(c: Config, st: Store<T>, arrivals: seq<Chunk<T>>, ws: seq<Worker<T>>, i: nat,
                               input: seq<Chunk<T>>, b: nat)
    requires ConservedFor(c, st, arrivals, ws, input, b) && i < |ws| && arrivals != [] && ws[i].rest == []
    ensures ConservedFor(c, st, arrivals[1..], ws[i := Polled(ws[i], arrivals[0])], input, b)
  {
    var x := Portion(arrivals[0].data, arrivals[0].indexStart, ToBucket(c), b);
    var w := Polled(ws[i], arrivals[0]);
    HoldingsUpdate(c, st, ws, i, w, b);
    PolledHolds(c, st, ws[i], arrivals[0], b);
    HandedOver(Sum(Holdings(c, st, ws[i := w], b)), Sum(Holdings(c, st, ws, b)), Holds(c, st, w, b),
               Holds(c, st, ws[i], b), x, Share(arrivals[1..], ToBucket(c), b));
  }

  lemma HandedOver<T(!new)>(sum': multiset<T>, sum: multiset<T>, h': multiset<T>, h: multiset<T>, x: multiset<T>,
                            rest: multiset<T>)
    requires sum' + h == sum + h' && h' == h + x
    ensures sum' + rest == sum + (x + rest)
  {
    TakeOne(sum', sum, h', h, x);
    assert (sum + x) + rest == sum + (x + rest);
  }

  lemma PolledHolds<T>(c: Config, st: Store<T>, w: Worker<T>, chunk: Chunk<T>, b: nat)
    requires w.rest == []
    ensures Holds(c, st, Polled(w, chunk), b)
         == Holds(c, st, w, b) + Portion(chunk.data, chunk.indexStart, ToBucket(c), b)
  {
  }

  lemma HoldingsUpdate<T(!new)>(c: Config, st: Store<T>, ws: seq<Worker<T>>, i: nat, w: Worker<T>, b: nat)
    requires i < |ws|
    ensures Sum(Holdings(c, st, ws[i := w], b)) + Holds(c, st, ws[i], b)
         == Sum(Holdings(c, st, ws, b)) + Holds(c, st, w, b)
  {
    assert Holdings(c, st, ws[i := w], b) == Holdings(c, st, ws, b)[i := Holds(c, st, w, b)];
    SumUpdate(Holdings(c, st, ws, b), i, Holds(c, st, w, b));
  }

  // The next element goes to the buffer of bucket b.
  function Route<T>(w: Worker<T>, b: nat): Worker<T>
    requires w.rest != [] && b < |w.bufs|
  {
    w.(rest := w.rest[1..], index := w.index + 1, bufs := w.bufs[b := w.bufs[b] + [w.rest[0]]])
  }

  lemma RouteHolds<T(!new)>(c: Config, st: Store<T>, w: Worker<T>, b: nat)
    requires w.rest != [] && b < |w.bufs| && b == Bucket(c, w.index)
    ensures HoldsSame(c, st, Route(w, b), st, w)
  {
    forall k: nat | k < c.numBuckets ensures Holds(c, st, Route(w, b), k) == Holds(c, st, w, k) {
      RouteHoldsFor(c, st, w, b, k);
    }
  }

  lemma RouteHoldsFor<T(!new)>(c: Config, st: Store<T>, w: Worker<T>, b: nat, k: nat)
    requires w.rest != [] && b < |w.bufs| && b == Bucket(c, w.index)
    ensures Holds(c, st, Route(w, b), k) == Holds(c, st, w, k)
  {
    var x, rest := Alone(w.rest[0], w.index, ToBucket(c), k), Portion(w.rest[1..], w.index + 1, ToBucket(c), k);
    RouteBuffered(c, w, b, k);
    Shifted(x, rest, Buffered(w, k), InBlocks(st, w.produced, k));
  }

  lemma RouteBuffered<T>(c: Config, w: Worker<T>, b: nat, k: nat)
    requires w.rest != [] && b < |w.bufs| && b == Bucket(c, w.index)
    ensures Buffered(Route(w, b), k) == Buffered(w, k) + Alone(w.rest[0], w.index, ToBucket(c), k)
  {
  }

  lemma Shifted<T>(x: multiset<T>, rest: multiset<T>, buf: multiset<T>, blocks: multiset<T>)
    ensures (rest + (buf + x)) + blocks == ((x + rest) + buf) + blocks
  {
  }

  // flush: the buffer of bucket b becomes a block of file f, with a header tagged b.
  function Flush<T>(w: Worker<T>, b: nat, f: nat, base: nat): Worker<T>
    requires b < |w.bufs|
  {
    w.(bufs := w.bufs[b := []], produced := w.produced + [Header(f, base, |w.bufs[b]|, b)])
  }

  lemma FlushHolds<T(!new)>(c: Config, st: Store<T>, w: Worker<T>, b: nat, f: nat, base: nat)
    requires b < |w.bufs| && AllLocated(st, w.produced) && (f, base) !in st
    ensures HoldsSame(c, st[(f, base) := w.bufs[b]], Flush(w, b, f, base), st, w)
    ensures AllLocated(st[(f, base) := w.bufs[b]], Flush(w, b, f, base).produced)
  {
    NewBlock(st, w.produced, b, f, base, w.bufs[b]);
    var st', t := st[(f, base) := w.bufs[b]], Flush(w, b, f, base);
    forall k: nat | k < c.numBuckets ensures Holds(c, st', t, k) == Holds(c, st, w, k) {
      FlushHoldsFor(c, st, w, b, f, base, k);
    }
  }

  lemma FlushHoldsFor<T(!new)>(c: Config, st: Store<T>, w: Worker<T>, b: nat, f: nat, base: nat, k: nat)
    requires b < |w.bufs| && AllLocated(st, w.produced) && (f, base) !in st
    ensures Holds(c, st[(f, base) := w.bufs[b]], Flush(w, b, f, base), k) == Holds(c, st, w, k)
  {
    BlockAdded(st, w.produced, b, f, base, w.bufs[b], k);
    if k == b {
      Settled(Portion(w.rest, w.index, ToBucket(c), b), multiset(w.bufs[b]), InBlocks(st, w.produced, b));
    }
  }

  lemma BlockAdded<T>(st: Store<T>, hs: seq<Header>, b: nat, f: nat, base: nat, data: seq<T>, k: nat)
    requires AllLocated(st, hs) && (f, base) !in st
    ensures InBlocks(st[(f, base) := data], hs + [Header(f, base, |data|, b)], k)
         == if k == b then InBlocks(st, hs, k) + multiset(data) else InBlocks(st, hs, k)
  {
    TaggedLocated(st, hs, k);
    TaggedSnoc(hs, Header(f, base, |data|, b), k);
    if k == b {
      NewBlock(st, Tagged(hs, k), b, f, base, data);
    } else {
      FrameItems(st, (f, base), data, Tagged(hs, k));
    }
  }

  lemma Settled<T>(rest: multiset<T>, buf: multiset<T>, blocks: multiset<T>)
    ensures (rest + multiset{}) + (blocks + buf) == (rest + buf) + blocks
  {
  }

  // A header for a block just written adds its elements.
  lemma NewBlock<T>(st: Store<T>, hs: seq<Header>, b: nat, f: nat, base: nat, data: seq<T>)
    requires AllLocated(st, hs) && (f, base) !in st
    ensures AllLocated(st[(f, base) := data], hs + [Header(f, base, |data|, b)])
    ensures Elements(Items(st[(f, base) := data], hs + [Header(f, base, |data|, b)])) == Elements(Items(st, hs)) + data
  {
    var st', h := st[(f, base) := data], Header(f, base, |data|, b);
    FrameItems(st, (f, base), data, hs);
    ElementsOfSnoc(st', hs, h);
    assert Block(st', h) == data[..|data|] == data;
  }

  // Worker i, now w, flushes bucket b to file f.
  function FlushStep<T>(c: Config, s: State<T>, i: nat, w: Worker<T>, b: nat, f: nat): State<T>
    requires i < |s.workers| && b < |w.bufs| && f < |s.disk.offsets|
  {
    s.(disk := Append(s.disk, f, w.bufs[b], c.blockBytes), workers := s.workers[i := Flush(w, b, f, s.disk.offsets[f])])
  }

  // What a worker satisfies when buffer b may be full.
  ghost predicate NearlyInv<T>(c: Config, st: Store<T>, w: Worker<T>, b: nat)
  {
    && |w.bufs| == c.numBuckets && w.cleaned <= b < c.numBuckets && (w.exhausted ==> w.rest == [])
    && (forall k {:trigger w.bufs[k]} :: 0 <= k < c.numBuckets && k != b ==> |w.bufs[k]| < c.blockElems)
    && 0 < |w.bufs[b]| <= c.blockElems
    && (forall k {:trigger w.bufs[k]} :: 0 <= k < w.cleaned ==> w.bufs[k] == [])
    && (w.cleaned > 0 ==> w.exhausted)
    && AllLocated(st, w.produced)
    && (forall k {:trigger w.produced[k]} :: 0 <= k < |w.produced| ==>
          w.produced[k].index < c.numBuckets && 0 < w.produced[k].used <= c.blockElems)
  }

  // A worker that does not write is not affected by the block another one writes.
  lemma FrameWorker<T(!new)>(c: Config, st: Store<T>, w: Worker<T>, a: (nat, nat), data: seq<T>)
    requires WorkerInv(c, st, w) && a !in st
    ensures WorkerInv(c, st[a := data], w) && HoldsSame(c, st[a := data], w, st, w)
  {
    FrameItems(st, a, data, w.produced);
    forall b: nat | b < c.numBuckets ensures Holds(c, st[a := data], w, b) == Holds(c, st, w, b) {
      TaggedLocated(st, w.produced, b);
      FrameItems(st, a, data, Tagged(w.produced, b));
    }
  }

  lemma FlushKeepsWorker<T(!new)>(c: Config, st: Store<T>, w: Worker<T>, b: nat, a: (nat, nat))
    requires NearlyInv(c, st, w, b) && a !in st && c.blockElems > 0
    ensures WorkerInv(c, st[a := w.bufs[b]], Flush(w, b, a.0, a.1))
    ensures HoldsSame(c, st[a := w.bufs[b]], Flush(w, b, a.0, a.1), st, w)
  {
    FlushHolds(c, st, w, b, a.0, a.1);
  }

  lemma SameRegions<T>(st: Store<T>, ws: seq<Worker<T>>, i: nat, w: Worker<T>)
    requires RegionsKept(st, ws) && i < |ws| && w.produced == ws[i].produced
    ensures RegionsKept(st, ws[i := w])
  {
    assert RegionsOf(ws[i := w]) == RegionsOf(ws);
  }

  lemma FlushKeepsRegions<T(!new)>(st: Store<T>, ws: seq<Worker<T>>, i: nat, w: Worker<T>, b: nat, a: (nat, nat))
    requires RegionsKept(st, ws) && i < |ws| && w.produced == ws[i].produced && b < |w.bufs| && a !in st
    ensures RegionsKept(st[a := w.bufs[b]], ws[i := Flush(w, b, a.0, a.1)])
  {
    var w' := Flush(w, b, a.0, a.1);
    var r, r' := RegionsOf(ws), RegionsOf(ws[i := w']);
    RegionsUpdate(ws, i, w');
    RegionsSnoc(w.produced, Header(a.0, a.1, |w.bufs[b]|, b));
    SumUpdate(r, i, r'[i]);
    TakeOne(Sum(r'), Sum(r), r'[i], r[i], multiset{a});
    KeysGrow(st, a, w.bufs[b]);
  }

  lemma RegionsUpdate<T>(ws: seq<Worker<T>>, i: nat, w: Worker<T>)
    requires i < |ws|
    ensures RegionsOf(ws[i := w]) == RegionsOf(ws)[i := multiset(Regions(w.produced))]
  {
  }

  lemma RegionsSnoc(hs: seq<Header>, h: Header)
    ensures multiset(Regions(hs + [h])) == multiset(Regions(hs)) + multiset{(h.file, h.base)}
  {
    assert Regions(hs + [h]) == Regions(hs) + [(h.file, h.base)];
  }

  lemma KeysGrow<T>(st: Store<T>, a: (nat, nat), data: seq<T>)
    requires a !in st
    ensures multiset(st[a := data].Keys) == multiset(st.Keys) + multiset{a}
  {
    assert st[a := data].Keys == st.Keys + {a};
  }

  // Worker i, now w, turns a buffer that is due into a block at an unused region.
  lemma FlushKeepsInv<T(!new)>(c: Config, st: Store<T>, arrivals: seq<Chunk<T>>, ws: seq<Worker<T>>, i: nat,
                               w: Worker<T>, b: nat, a: (nat, nat), input: seq<Chunk<T>>)
    requires FlowInv(c, st, arrivals, ws, input) && i < |ws| && a !in st
    requires w.exhausted ==> arrivals == []
    requires NearlyInv(c, st, w, b) && HoldsSame(c, st, w, st, ws[i])
    ensures FlowInv(c, st[a := w.bufs[b]], arrivals, ws[i := Flush(w, b, a.0, a.1)], input)
  {
    FlushKeepsWorker(c, st, w, b, a);
    var t, st' := Flush(w, b, a.0, a.1), st[a := w.bufs[b]];
    HoldsSameTwice(c, st', t, st, w, ws[i]);
    FlushKeepsWorkers(c, st, ws, i, t, a, w.bufs[b]);
    var ws' := ws[i := t];
    forall k: nat | k < c.numBuckets ensures ConservedFor(c, st', arrivals, ws', input, k) {
      assert ConservedFor(c, st, arrivals, ws, input, k);
    }
  }

  lemma HoldsSameTwice<T>(c: Config, st': Store<T>, t: Worker<T>, st: Store<T>, w: Worker<T>, v: Worker<T>)
    requires HoldsSame(c, st', t, st, w) && HoldsSame(c, st, w, st, v)
    ensures HoldsSame(c, st', t, st, v)
  {
  }

  lemma FlushKeepsWorkers<T(!new)>(c: Config, st: Store<T>, ws: seq<Worker<T>>, i: nat, w: Worker<T>, a: (nat, nat),
                                   data: seq<T>)
    requires WorkersInv(c, st, ws) && i < |ws| && a !in st
    requires WorkerInv(c, st[a := data], w) && HoldsSame(c, st[a := data], w, st, ws[i])
    ensures WorkersInv(c, st[a := data], ws[i := w])
    ensures forall b: nat :: b < c.numBuckets ==> Holdings(c, st[a := data], ws[i := w], b) == Holdings(c, st, ws, b)
  {
    var st', ws' := st[a := data], ws[i := w];
    forall j | 0 <= j < |ws| ensures WorkerInv(c, st', ws'[j]) && HoldsSame(c, st', ws'[j], st, ws[j]) {
      if j != i {
        assert WorkerInv(c, st, ws[j]);
        FrameWorker(c, st, ws[j], a, data);
      }
    }
  }

  // ---- methods -----------------------------------------------------------------------------

  predicate Done<T>(c: Config, w: Worker<T>)
  {
    w.exhausted && w.cleaned == c.numBuckets
  }

  ghost function WorkerWork<T>(c: Config, w: Worker<T>): nat
    requires w.cleaned <= c.numBuckets
  {
    |w.rest| + (c.numBuckets - w.cleaned) + if w.exhausted then 0 else 1
  }

  ghost function Works<T>(c: Config, ws: seq<Worker<T>>): (r: seq<nat>)
    requires forall i :: 0 <= i < |ws| ==> ws[i].cleaned <= c.numBuckets
    ensures |r| == |ws| && forall i :: 0 <= i < |ws| ==> r[i] == WorkerWork(c, ws[i])
  {
    seq(|ws|, i requires 0 <= i < |ws| => WorkerWork(c, ws[i]))
  }

  ghost predicate Counted<T>(c: Config, ws: seq<Worker<T>>)
  {
    forall i :: 0 <= i < |ws| ==> ws[i].cleaned <= c.numBuckets
  }

  ghost function Work<T>(c: Config, ws: seq<Worker<T>>): nat
  {
    if Counted(c, ws) then Total(Works(c, ws)) else 0
  }

  lemma WorkShrinks<T>(c: Config, ws: seq<Worker<T>>, i: nat, w: Worker<T>)
    requires Counted(c, ws) && i < |ws| && w.cleaned <= c.numBuckets && WorkerWork(c, w) < WorkerWork(c, ws[i])
    ensures Work(c, ws[i := w]) < Work(c, ws)
  {
    assert Works(c, ws[i := w]) == Works(c, ws)[i := WorkerWork(c, w)];
    TotalUpdate(Works(c, ws), i, WorkerWork(c, w));
  }

  lemma InvCounted<T>(c: Config, st: Store<T>, ws: seq<Worker<T>>)
    requires WorkersInv(c, st, ws)
    ensures Counted(c, ws)
  {
    forall i | 0 <= i < |ws| ensures ws[i].cleaned <= c.numBuckets {
      assert WorkerInv(c, st, ws[i]);
    }
  }

  // One step of worker i: a poll, the routing of one element, the
  // discovery that the input is exhausted, or the flush of one remaining buffer.
  method StepWorker<T(!new)>(c: Config, start: State<T>, i: nat, ghost input: seq<Chunk<T>>) returns (s: State<T>)
    requires Inv(c, start, input) && i < |start.workers| && !Done(c, start.workers[i])
    ensures Inv(c, s, input) && |s.workers| == |start.workers|
    ensures |s.arrivals| < |start.arrivals|
            || (s.arrivals == start.arrivals && Work(c, s.workers) < Work(c, start.workers))
  {
    ghost var st := Content(start.disk);
    var w := start.workers[i];
    assert WorkerInv(c, st, w);
    if w.rest != [] {
      s := RouteOne(c, start, i, input);
    } else if w.exhausted {
      s := CleanOne(c, start, i, input);
    } else if start.arrivals != [] {
      PollKeepsInv(c, st, start.arrivals, start.workers, i, input);
      SameRegions(st, start.workers, i, Polled(w, start.arrivals[0]));
      s := Poll(start, i);
    } else {
      s := NoteEnd(c, start, i, input);
    }
  }

  // The flush of bucket b of worker i, now w, to the file that the hash picks.
  method FlushOne<T(!new)>(c: Config, start: State<T>, i: nat, w: Worker<T>, b: nat, ghost input: seq<Chunk<T>>)
    returns (s: State<T>, ghost a: (nat, nat))
    requires Inv(c, start, input) && i < |start.workers| && NearlyInv(c, Content(start.disk), w, b)
    requires HoldsSame(c, Content(start.disk), w, Content(start.disk), start.workers[i])
    requires (w.exhausted ==> start.arrivals == []) && w.produced == start.workers[i].produced
    ensures Inv(c, s, input) && s.arrivals == start.arrivals
    ensures s.workers == start.workers[i := Flush(w, b, a.0, a.1)]
  {
    var f := c.hash(i, |w.produced|) % c.numSsds;
    a := (f, start.disk.offsets[f]);
    AppendKeepsValid(start.disk, f, w.bufs[b], c.blockBytes);
    FlushKeepsInv(c, Content(start.disk), start.arrivals, start.workers, i, w, b, a, input);
    FlushKeepsRegions(Content(start.disk), start.workers, i, w, b, a);
    s := FlushStep(c, start, i, w, b, f);
  }

  // A step of worker i that neither polls nor writes.
  lemma LocalKeepsInv<T(!new)>(c: Config, s: State<T>, i: nat, w: Worker<T>, input: seq<Chunk<T>>)
    requires Inv(c, s, input) && i < |s.workers| && WorkerInv(c, Content(s.disk), w)
    requires HoldsSame(c, Content(s.disk), w, Content(s.disk), s.workers[i])
    requires (w.exhausted ==> s.arrivals == []) && w.produced == s.workers[i].produced
    ensures Inv(c, s.(workers := s.workers[i := w]), input)
  {
    LocalStepKeepsInv(c, Content(s.disk), s.arrivals, s.workers, i, w, input);
    SameRegions(Content(s.disk), s.workers, i, w);
  }

  method NoteEnd<T(!new)>(c: Config, start: State<T>, i: nat, ghost input: seq<Chunk<T>>) returns (s: State<T>)
    requires Inv(c, start, input) && i < |start.workers| && start.workers[i].rest == [] && !start.workers[i].exhausted
    requires start.arrivals == []
    ensures Inv(c, s, input) && |s.workers| == |start.workers|
    ensures s.arrivals == start.arrivals && Work(c, s.workers) < Work(c, start.workers)
  {
    ghost var st := Content(start.disk);
    assert WorkerInv(c, st, start.workers[i]);
    var w := start.workers[i].(exhausted := true);
    LocalKeepsInv(c, start, i, w, input);
    InvCounted(c, st, start.workers);
    WorkShrinks(c, start.workers, i, w);
    s := start.(workers := start.workers[i := w]);
  }

  // The next element goes to the bucket drawn for its label.
  method RouteOne<T(!new)>(c: Config, start: State<T>, i: nat, ghost input: seq<Chunk<T>>) returns (s: State<T>)
    requires Inv(c, start, input) && i < |start.workers| && start.workers[i].rest != []
    requires WorkerInv(c, Content(start.disk), start.workers[i])
    ensures Inv(c, s, input) && |s.workers| == |start.workers|
    ensures s.arrivals == start.arrivals && Work(c, s.workers) < Work(c, start.workers)
  {
    ghost var st := Content(start.disk);
    var b := Bucket(c, start.workers[i].index);
    var w := Route(start.workers[i], b);
    RouteHolds(c, st, start.workers[i], b);
    InvCounted(c, st, start.workers);
    if |w.bufs[b]| == c.blockElems {
      ghost var a;
      s, a := FlushOne(c, start, i, w, b, input);
      WorkShrinks(c, start.workers, i, Flush(w, b, a.0, a.1));
    } else {
      LocalKeepsInv(c, start, i, w, input);
      s := start.(workers := start.workers[i := w]);
      WorkShrinks(c, start.workers, i, w);
    }
  }

  method CleanOne<T(!new)>(c: Config, start: State<T>, i: nat, ghost input: seq<Chunk<T>>) returns (s: State<T>)
    requires Inv(c, start, input) && i < |start.workers| && start.workers[i].exhausted
    requires start.workers[i].cleaned < c.numBuckets && WorkerInv(c, Content(start.disk), start.workers[i])
    ensures Inv(c, s, input) && |s.workers| == |start.workers|
    ensures s.arrivals == start.arrivals && Work(c, s.workers) < Work(c, start.workers)
  {
    InvCounted(c, Content(start.disk), start.workers);
    s := CleanSteps(c, start, i, input);
    WorkShrinks(c, start.workers, i, s.workers[i]);
  }

  method CleanSteps<T(!new)>(c: Config, start: State<T>, i: nat, ghost input: seq<Chunk<T>>) returns (s: State<T>)
    requires Inv(c, start, input) && i < |start.workers| && start.workers[i].exhausted
    requires start.workers[i].cleaned < c.numBuckets && WorkerInv(c, Content(start.disk), start.workers[i])
    ensures Inv(c, s, input) && |s.workers| == |start.workers| && s.arrivals == start.arrivals
    ensures s.workers == start.workers[i := s.workers[i]]
    ensures s.workers[i].exhausted && s.workers[i].rest == [] && s.workers[i].cleaned == start.workers[i].cleaned + 1
  {
    var flushed := FlushRemaining(c, start, i, input);
    s := Advance(c, flushed, i, input);
    TwoUpdates(start.workers, i, flushed.workers[i], s.workers[i]);
  }

  lemma TwoUpdates<X>(s: seq<X>, i: nat, x: X, y: X)
    requires i < |s|
    ensures s[i := x][i := y] == s[i := y]
  {
  }

  // The next buffer is flushed unless it is empty.
  method FlushRemaining<T(!new)>(c: Config, start: State<T>, i: nat, ghost input: seq<Chunk<T>>) returns (s: State<T>)
    requires Inv(c, start, input) && i < |start.workers| && start.workers[i].exhausted
    requires start.workers[i].cleaned < c.numBuckets && WorkerInv(c, Content(start.disk), start.workers[i])
    ensures Inv(c, s, input) && s.arrivals == start.arrivals
    ensures |s.workers| == |start.workers| && s.workers == start.workers[i := s.workers[i]]
    ensures s.workers[i].exhausted && s.workers[i].rest == [] && s.workers[i].cleaned == start.workers[i].cleaned
    ensures |s.workers[i].bufs| == c.numBuckets && s.workers[i].bufs[s.workers[i].cleaned] == []
  {
    var w := start.workers[i];
    if w.bufs[w.cleaned] == [] {
      assert start.workers[i := w] == start.workers;
      return start;
    }
    ghost var a;
    s, a := FlushOne(c, start, i, w, w.cleaned, input);
  }

  // The empty buffer that comes next is passed over.
  lemma AdvanceHolds<T>(c: Config, st: Store<T>, w: Worker<T>, t: Worker<T>)
    requires WorkerInv(c, st, w) && w.exhausted && w.cleaned < c.numBuckets == |w.bufs| && w.bufs[w.cleaned] == []
    requires t == w.(cleaned := w.cleaned + 1)
    ensures WorkerInv(c, st, t) && HoldsSame(c, st, t, st, w)
  {
  }

  method Advance<T(!new)>(c: Config, start: State<T>, i: nat, ghost input: seq<Chunk<T>>) returns (s: State<T>)
    requires Inv(c, start, input) && i < |start.workers| && start.workers[i].exhausted
    requires start.workers[i].cleaned < c.numBuckets == |start.workers[i].bufs|
    requires start.workers[i].bufs[start.workers[i].cleaned] == []
    ensures Inv(c, s, input) && |s.workers| == |start.workers|
    ensures s == start.(workers := start.workers[i := start.workers[i].(cleaned := start.workers[i].cleaned + 1)])
  {
    var w := start.workers[i].(cleaned := start.workers[i].cleaned + 1);
    assert WorkerInv(c, Content(start.disk), start.workers[i]);
    AdvanceHolds(c, Content(start.disk), start.workers[i], w);
    LocalKeepsInv(c, start, i, w, input);
    s := start.(workers := start.workers[i := w]);
  }

  // ---- the whole pass ----------------------------------------------------------------------

  method Start<T(!new)>(c: Config, arrivals: seq<Chunk<T>>, numWorkers: nat) returns (s: State<T>)
    requires IsConfig(c)
    ensures Inv(c, s, arrivals) && |s.workers| == numWorkers
  {
    var w: Worker<T> := Worker([], 0, seq(c.numBuckets, _ => []), [], false, 0);
    s := State(arrivals, seq(numWorkers, _ => w), Empty(c.numSsds));
    StartFlow(c, arrivals, s.workers, w);
    StartDisk(c, s.disk);
  }

  lemma StartDisk<T>(c: Config, d: Disk<T>)
    requires IsConfig(c) && d == Empty(c.numSsds)
    ensures Valid(d, c.blockBytes) && Content(d) == map[] && |d.offsets| == c.numSsds
  {
  }

  lemma StartFlow<T>(c: Config, arrivals: seq<Chunk<T>>, ws: seq<Worker<T>>, w: Worker<T>)
    requires IsConfig(c) && w == Worker([], 0, seq(c.numBuckets, _ => []), [], false, 0)
    requires forall i :: 0 <= i < |ws| ==> ws[i] == w
    ensures FlowInv(c, map[], arrivals, ws, arrivals) && RegionsKept<T>(map[], ws)
  {
    forall b: nat | b < c.numBuckets ensures ConservedFor(c, map[], arrivals, ws, arrivals, b) {
      NothingHeld(c, w, b);
      SumOfEmpty(Holdings(c, map[], ws, b));
    }
    assert Regions(w.produced) == [];
    SumOfEmpty(RegionsOf(ws));
    assert WorkerInv(c, map[], w);
  }

  lemma NothingHeld<T>(c: Config, w: Worker<T>, b: nat)
    requires w.rest == [] && w.produced == [] && forall k :: 0 <= k < |w.bufs| ==> w.bufs[k] == []
    ensures Holds(c, map[], w, b) == multiset{}
  {
    assert Data(Items<T>(map[], w.produced)) == [];
  }

  function Produced<T>(ws: seq<Worker<T>>): (r: seq<seq<Header>>)
    ensures |r| == |ws| && forall i :: 0 <= i < |ws| ==> r[i] == ws[i].produced
  {
    seq(|ws|, i requires 0 <= i < |ws| => ws[i].produced)
  }

  ghost function BlocksOf<T>(st: Store<T>, ps: seq<seq<Header>>): (r: seq<seq<T>>)
    ensures |r| == |ps| && forall i :: 0 <= i < |ps| ==> r[i] == Elements(Items(st, ps[i]))
  {
    seq(|ps|, i requires 0 <= i < |ps| => Elements(Items(st, ps[i])))
  }

  lemma {:induction false} MergedElements<T>(st: Store<T>, ps: seq<seq<Header>>)
    ensures Elements(Items(st, Concat(ps))) == Concat(BlocksOf(st, ps))
  {
    if ps == [] {
      assert Items(st, Concat(ps)) == [];
    } else {
      var n := |ps| - 1;
      MergedElements(st, ps[..n]);
      assert Items(st, Concat(ps[..n]) + ps[n]) == Items(st, Concat(ps[..n])) + Items(st, ps[n]);
      ElementsAppend(Items(st, Concat(ps[..n])), Items(st, ps[n]));
      assert BlocksOf(st, ps)[..n] == BlocksOf(st, ps[..n]);
    }
  }

  // A worker that is done holds nothing but its blocks.
  lemma DoneHolds<T>(c: Config, st: Store<T>, w: Worker<T>, b: nat)
    requires WorkerInv(c, st, w) && Done(c, w)
    ensures Holds(c, st, w, b) == InBlocks(st, w.produced, b)
  {
  }

  ghost predicate BucketBlock<T>(c: Config, st: Store<T>, h: Header)
  {
    Located(st, h) && h.index < c.numBuckets && 0 < h.used <= c.blockElems
  }

  lemma {:induction false} MergedBlocks<T>(c: Config, st: Store<T>, ps: seq<seq<Header>>)
    requires forall i, k :: 0 <= i < |ps| && 0 <= k < |ps[i]| ==> BucketBlock(c, st, ps[i][k])
    ensures forall k :: 0 <= k < |Concat(ps)| ==> BucketBlock(c, st, Concat(ps)[k])
  {
    if ps != [] {
      MergedBlocks(c, st, ps[..|ps| - 1]);
    }
  }

  ghost function TaggedLists(ps: seq<seq<Header>>, b: nat): (r: seq<seq<Header>>)
    ensures |r| == |ps| && forall i :: 0 <= i < |r| ==> r[i] == Tagged(ps[i], b)
  {
    seq(|ps|, i requires 0 <= i < |ps| => Tagged(ps[i], b))
  }

  lemma {:induction false} TaggedMerged(ps: seq<seq<Header>>, b: nat)
    ensures Tagged(Concat(ps), b) == Concat(TaggedLists(ps, b))
  {
    if ps != [] {
      var n := |ps| - 1;
      TaggedMerged(ps[..n], b);
      TaggedAppend(Concat(ps[..n]), ps[n], b);
      assert TaggedLists(ps, b)[..n] == TaggedLists(ps[..n], b);
    }
  }

  // When all workers are done, the blocks tagged with a bucket hold exactly the elements drawn
  // for it.
  lemma AllDone<T(!new)>(c: Config, st: Store<T>, ws: seq<Worker<T>>, input: seq<Chunk<T>>, b: nat)
    requires WorkersInv(c, st, ws) && ConservedFor(c, st, [], ws, input, b)
    requires forall i :: 0 <= i < |ws| ==> Done(c, ws[i])
    ensures HoldsShare(c, st, Concat(Produced(ws)), input, b)
  {
    var lists := TaggedLists(Produced(ws), b);
    forall i | 0 <= i < |ws| ensures Holds(c, st, ws[i], b) == multiset(Elements(Items(st, lists[i]))) {
      assert WorkerInv(c, st, ws[i]);
      DoneHolds(c, st, ws[i], b);
    }
    SumIsConcat(Holdings(c, st, ws, b), BlocksOf(st, lists));
    MergedElements(st, lists);
    TaggedMerged(Produced(ws), b);
  }

  ghost predicate HoldsShare<T>(c: Config, st: Store<T>, produced: seq<Header>, input: seq<Chunk<T>>, b: nat)
  {
    InBlocks(st, produced, b) == Share(input, ToBucket(c), b)
  }

  ghost function RegionLists(ps: seq<seq<Header>>): (r: seq<seq<(nat, nat)>>)
    ensures |r| == |ps| && forall i :: 0 <= i < |r| ==> r[i] == Regions(ps[i])
  {
    seq(|ps|, i requires 0 <= i < |ps| => Regions(ps[i]))
  }

  lemma {:induction false} MergedRegions(ps: seq<seq<Header>>)
    ensures Regions(Concat(ps)) == Concat(RegionLists(ps))
  {
    if ps != [] {
      var n := |ps| - 1;
      MergedRegions(ps[..n]);
      assert RegionLists(ps)[..n] == RegionLists(ps[..n]);
      assert Regions(Concat(ps[..n]) + ps[n]) == Regions(Concat(ps[..n])) + Regions(ps[n]);
    }
  }

  // The regions of the scatter pass do not overlap.
  lemma AllSeparate<T>(d: Disk<T>, blockBytes: nat, ws: seq<Worker<T>>)
    requires Valid(d, blockBytes) && RegionsKept(Content(d), ws)
    ensures AllApart(Concat(Produced(ws)), blockBytes)
  {
    var ps := Produced(ws);
    SumIsConcat(RegionsOf(ws), RegionLists(ps));
    MergedRegions(ps);
    RegionsOnce(Concat(ps), Content(d).Keys);
    DifferentRegionsApart(Concat(ps), Content(d).Keys, blockBytes);
  }

  lemma AllTagged<T>(c: Config, st: Store<T>, ws: seq<Worker<T>>)
    requires WorkersInv(c, st, ws)
    ensures forall k :: 0 <= k < |Concat(Produced(ws))| ==> BucketBlock(c, st, Concat(Produced(ws))[k])
  {
    var ps := Produced(ws);
    forall i, k | 0 <= i < |ps| && 0 <= k < |ps[i]| ensures BucketBlock(c, st, ps[i][k]) {
      assert WorkerInv(c, st, ws[i]);
      assert ps[i][k] == ws[i].produced[k];
    }
    MergedBlocks(c, st, ps);
  }

  // Completed writes do not change what the files will hold.
  lemma DiskKeepsInv<T>(c: Config, s: State<T>, d: Disk<T>, input: seq<Chunk<T>>)
    requires Inv(c, s, input) && Content(d) == Content(s.disk) && d.offsets == s.disk.offsets
    ensures Inv(c, s.(disk := d), input)
  {
  }

  // Every interleaving of the workers, and of the writer, ends with exactly the elements drawn
  // for a bucket in the blocks tagged with it, and every block in a region of its own.
  method RunScatter<T(==, !new)>(c: Config, arrivals: seq<Chunk<T>>, numWorkers: nat)
    returns (st: Store<T>, produced: seq<Header>)
    requires IsConfig(c) && numWorkers > 0
    ensures forall b: nat :: b < c.numBuckets ==> HoldsShare(c, st, produced, arrivals, b)
    ensures forall k :: 0 <= k < |produced| ==> BucketBlock(c, st, produced[k])
    ensures AllApart(produced, c.blockBytes)
  {
    ghost var input := arrivals;
    var s := Start(c, arrivals, numWorkers);
    while exists i :: 0 <= i < |s.workers| && !Done(c, s.workers[i])
      invariant Inv(c, s, input) && |s.workers| == numWorkers
      decreases |s.arrivals|, Work(c, s.workers)
    {
      var d := CompleteSome(s.disk);
      DiskKeepsInv(c, s, d, input);
      s := s.(disk := d);
      var i :| 0 <= i < |s.workers| && !Done(c, s.workers[i]);
      s := StepWorker(c, s, i, input);
    }
    assert Done(c, s.workers[0]);
    st, produced := Collect(c, s, input);
  }

  method Collect<T(==, !new)>(c: Config, s: State<T>, ghost input: seq<Chunk<T>>)
    returns (st: Store<T>, produced: seq<Header>)
    requires Inv(c, s, input) && s.arrivals == [] && forall i :: 0 <= i < |s.workers| ==> Done(c, s.workers[i])
    ensures forall b: nat :: b < c.numBuckets ==> HoldsShare(c, st, produced, input, b)
    ensures forall k :: 0 <= k < |produced| ==> BucketBlock(c, st, produced[k])
    ensures AllApart(produced, c.blockBytes)
  {
    CollectMeans(c, s, input);
    produced := Concat(Produced(s.workers));
    var d := Wait(s.disk);
    st := d.store;
  }

  lemma CollectMeans<T(!new)>(c: Config, s: State<T>, input: seq<Chunk<T>>)
    requires Inv(c, s, input) && s.arrivals == [] && forall i :: 0 <= i < |s.workers| ==> Done(c, s.workers[i])
    ensures forall b: nat :: b < c.numBuckets ==>
              HoldsShare(c, Content(s.disk), Concat(Produced(s.workers)), input, b)
    ensures forall k :: 0 <= k < |Concat(Produced(s.workers))| ==>
              BucketBlock(c, Content(s.disk), Concat(Produced(s.workers))[k])
    ensures AllApart(Concat(Produced(s.workers)), c.blockBytes)
  {
    AllSeparate(s.disk, c.blockBytes, s.workers);
    forall b: nat | b < c.numBuckets
      ensures HoldsShare(c, Content(s.disk), Concat(Produced(s.workers)), input, b)
    {
      assert ConservedFor(c, Content(s.disk), s.arrivals, s.workers, input, b);
      AllDone(c, Content(s.disk), s.workers, input, b);
    }
    AllTagged(c, Content(s.disk), s.workers);
  }
}
