// The reader of chunks by header: empty chunks are passed on without a read, and a read that
// finds the submission queue full is put back (utils/unordered_file_reader_modified.h).
module ChunkReader {
  import opened Sequences
  import opened ExternalSequence
  import RS = ReaderState

  // mine: the chunks dealt to the worker; next counts the ones issued or passed on, flight are
  // the outstanding reads, as positions in mine.
  datatype Worker = Worker(mine: seq<Header>, next: nat, completed: nat, flight: seq<nat>, free: nat, phase: RS.Phase)

  // refusals bounds how often a submission queue will still be found full.
  datatype State<T> = State(workers: seq<Worker>, queue: seq<Item<T>>, open: bool, activeThreads: nat,
                            delivered: seq<Item<T>>, refusals: nat)

  datatype Config = Config(maxRequests: nat, queueLimit: nat)

  // How a reader is set up; at least one request and one thread are needed.
  datatype Setup = Setup(config: Config, numThreads: nat, refusals: nat)

  predicate CanRead(r: Setup)
  {
    r.config.maxRequests > 0 && r.numThreads > 0
  }

  // ---- dealing the chunks ------------------------------------------------------------------

  function Strided<X>(s: seq<X>, from: nat, step: nat): seq<X>
    requires step > 0
    decreases |s| - from
  {
    if from >= |s| then [] else [s[from]] + Strided(s, from + step, step)
  }

  // The lists of all workers, from worker 0 on, when dealing begins at element k.
  ghost function Lists<X>(s: seq<X>, k: nat, n: nat): (r: seq<seq<X>>)
    requires n > 0
    ensures |r| == n && forall i :: 0 <= i < n ==> r[i] == Strided(s, k + i, n)
  {
    seq(n, i requires 0 <= i < n => Strided(s, k + i, n))
  }

  lemma {:induction false} NoneLeft<X>(s: seq<X>, k: nat, n: nat)
    requires n > 0 && k >= |s|
    ensures Concat(Lists(s, k, n)) == []
  {
    ConcatEmpty(Lists(s, k, n));
  }

  // Every chunk is dealt to exactly one worker.
  lemma {:induction false} AllDealt<X(!new)>(s: seq<X>, k: nat, n: nat)
    requires n > 0 && k <= |s|
    ensures multiset(Concat(Lists(s, k, n))) == multiset(s[k..])
    decreases |s| - k
  {
    if k == |s| {
      NoneLeft(s, k, n);
    } else {
      AllDealt(s, k + 1, n);
      OneDealt(s, k, n);
      FirstOfRest(s, k);
    }
  }

  lemma FirstOfRest<X>(s: seq<X>, k: nat)
    requires k < |s|
    ensures multiset(s[k..]) == multiset{s[k]} + multiset(s[k + 1..])
  {
    assert s[k..] == [s[k]] + s[k + 1..];
  }

  lemma OneDealt<X(!new)>(s: seq<X>, k: nat, n: nat)
    requires n > 0 && k < |s|
    ensures multiset(Concat(Lists(s, k, n))) == multiset{s[k]} + multiset(Concat(Lists(s, k + 1, n)))
  {
    var a, b := Lists(s, k, n), Lists(s, k + 1, n);
    ListsShift(s, k, n);
    ConcatFirst(a);
    assert Concat(b) == Concat(b[..n - 1]) + b[n - 1];
    Regrouped(multiset(Concat(b[..n - 1])), multiset(b[n - 1]), multiset{s[k]});
  }

  lemma ListsShift<X>(s: seq<X>, k: nat, n: nat)
    requires n > 0 && k < |s|
    ensures Lists(s, k, n)[1..] == Lists(s, k + 1, n)[..n - 1]
    ensures Lists(s, k, n)[0] == [s[k]] + Lists(s, k + 1, n)[n - 1]
  {
    assert k + n == k + 1 + (n - 1);
  }

  lemma Regrouped<X>(a: multiset<X>, b: multiset<X>, c: multiset<X>)
    ensures a + (c + b) == c + (a + b)
  {
  }

  method Deal<X>(s: seq<X>, i: nat, n: nat) returns (list: seq<X>)
    requires n > 0
    ensures list == Strided(s, i, n)
  {
    list := [];
    var j := i;
    while j < |s|
      invariant list + Strided(s, j, n) == Strided(s, i, n)
    {
      Unfold(s, j, n, list);
      list := list + [s[j]];
      j := j + n;
    }
  }

  lemma Unfold<X>(s: seq<X>, j: nat, n: nat, list: seq<X>)
    requires n > 0 && j < |s|
    ensures (list + [s[j]]) + Strided(s, j + n, n) == list + Strided(s, j, n)
  {
    assert Strided(s, j, n) == [s[j]] + Strided(s, j + n, n);
  }

  // ---- invariant ---------------------------------------------------------------------------

  function ItemOf<T>(st: Store<T>, h: Header): Item<T>
  {
    Item(h.index, Block(st, h))
  }

  ghost function InFlight<T>(st: Store<T>, w: Worker): (r: seq<Item<T>>)
    requires forall k :: 0 <= k < |w.flight| ==> w.flight[k] < |w.mine|
    ensures |r| == |w.flight| && forall k :: 0 <= k < |r| ==> r[k] == ItemOf(st, w.mine[w.flight[k]])
  {
    seq(|w.flight|, k requires 0 <= k < |w.flight| => ItemOf(st, w.mine[w.flight[k]]))
  }

  ghost predicate WorkerInv(c: Config, w: Worker)
  {
    && w.next <= |w.mine| && w.completed + |w.flight| == w.next && w.free + |w.flight| == c.maxRequests
    && (forall k :: 0 <= k < |w.flight| ==> w.flight[k] < |w.mine|)
    && (w.phase != RS.Running ==> w.completed == |w.mine|)
  }

  ghost function Held<T>(c: Config, st: Store<T>, w: Worker): multiset<Item<T>>
  {
    if WorkerInv(c, w) then multiset(InFlight(st, w)) + multiset(Items(st, w.mine[w.next..])) else multiset{}
  }

  ghost function Helds<T>(c: Config, st: Store<T>, ws: seq<Worker>): (r: seq<multiset<Item<T>>>)
    ensures |r| == |ws| && forall i :: 0 <= i < |r| ==> r[i] == Held(c, st, ws[i])
  {
    seq(|ws|, i requires 0 <= i < |ws| => Held(c, st, ws[i]))
  }

  // The workers as far as closing the queue is concerned.
  ghost function Phases(ws: seq<Worker>): (r: seq<RS.Worker>)
    ensures |r| == |ws| && forall i :: 0 <= i < |r| ==> r[i] == RS.Worker([], 0, 0, ws[i].phase)
  {
    seq(|ws|, i requires 0 <= i < |ws| => RS.Worker([], 0, 0, ws[i].phase))
  }

  ghost function Closing<T>(s: State<T>): RS.State
  {
    RS.State([], Phases(s.workers), [], s.open, s.activeThreads, [])
  }

  ghost predicate Conserved<T>(c: Config, st: Store<T>, s: State<T>, total: multiset<Item<T>>)
  {
    Sum(Helds(c, st, s.workers)) + (multiset(s.queue) + multiset(s.delivered)) == total
  }

  ghost predicate WorkersInv(c: Config, ws: seq<Worker>)
  {
    forall i {:trigger WorkerInv(c, ws[i])} :: 0 <= i < |ws| ==> WorkerInv(c, ws[i])
  }

  ghost predicate Inv<T>(c: Config, st: Store<T>, s: State<T>, total: multiset<Item<T>>)
  {
    && c.maxRequests > 0 && |s.workers| > 0 && (c.queueLimit > 0 ==> |s.queue| <= c.queueLimit)
    && WorkersInv(c, s.workers) && RS.CloseInv(Closing(s)) && Conserved(c, st, s, total)
  }

  predicate HasRoom<T>(c: Config, s: State<T>)
  {
    c.queueLimit == 0 || |s.queue| < c.queueLimit
  }

  // ---- steps of a worker -------------------------------------------------------------------

  // The read at position k of the ring completes.
  function ReapWorker(w: Worker, k: nat): Worker
    requires k < |w.flight|
  {
    w.(flight := w.flight[..k] + w.flight[k + 1..], completed := w.completed + 1, free := w.free + 1)
  }

  // The next chunk is empty: it is passed on without a read.
  function SkipWorker(w: Worker): Worker
  {
    w.(next := w.next + 1, completed := w.completed + 1)
  }

  // A read of the next chunk is submitted.
  function IssueWorker(w: Worker): Worker
    requires w.free > 0
  {
    w.(next := w.next + 1, flight := w.flight + [w.next], free := w.free - 1)
  }

  // The submission queue is full: buffer and request go back where they came from.
  function RefusedWorker(w: Worker): Worker
    requires w.free > 0
  {
    var taken := w.(free := w.free - 1);
    taken.(free := taken.free + 1)
  }

  // Worker i becomes w and pushes an item.
  function PushStep<T>(s: State<T>, i: nat, w: Worker, x: Item<T>): State<T>
    requires i < |s.workers|
  {
    s.(workers := s.workers[i := w], queue := s.queue + [x])
  }

  lemma ReapHolds<T(!new)>(c: Config, st: Store<T>, w: Worker, k: nat)
    requires WorkerInv(c, w) && k < |w.flight|
    ensures WorkerInv(c, ReapWorker(w, k)) && w.phase == RS.Running
    ensures Held(c, st, w) == Held(c, st, ReapWorker(w, k)) + multiset{ItemOf(st, w.mine[w.flight[k]])}
  {
    var t := ReapWorker(w, k);
    var a := InFlight(st, w);
    forall j | 0 <= j < |t.flight| ensures t.flight[j] == w.flight[if j < k then j else j + 1] {
    }
    assert InFlight(st, t) == a[..k] + a[k + 1..];
    RS.RemoveOne(a, k);
    var l := multiset(Items(st, w.mine[w.next..]));
    MoveAside(multiset(InFlight(st, t)), l, multiset{a[k]});
  }

  lemma MoveAside<X>(a: multiset<X>, b: multiset<X>, c: multiset<X>)
    ensures (a + c) + b == (a + b) + c
  {
  }

  lemma SkipHolds<T(!new)>(c: Config, st: Store<T>, w: Worker)
    requires WorkerInv(c, w) && w.next < |w.mine|
    ensures WorkerInv(c, SkipWorker(w)) && w.phase == RS.Running
    ensures Held(c, st, w) == Held(c, st, SkipWorker(w)) + multiset{ItemOf(st, w.mine[w.next])}
  {
    SkipKeepsWorker(c, w);
    HeldIs(c, st, w);
    HeldIs(c, st, SkipWorker(w));
    SkipParts(st, w);
  }

  lemma HeldIs<T>(c: Config, st: Store<T>, w: Worker)
    requires WorkerInv(c, w)
    ensures Held(c, st, w) == multiset(InFlight(st, w)) + multiset(Items(st, w.mine[w.next..]))
  {
  }

  lemma SkipParts<T>(st: Store<T>, w: Worker)
    requires w.next < |w.mine| && forall k :: 0 <= k < |w.flight| ==> w.flight[k] < |w.mine|
    ensures multiset(InFlight(st, w)) + multiset(Items(st, w.mine[w.next..]))
         == (multiset(InFlight(st, SkipWorker(w))) + multiset(Items(st, SkipWorker(w).mine[SkipWorker(w).next..])))
            + multiset{ItemOf(st, w.mine[w.next])}
  {
    var t := SkipWorker(w);
    ItemsTail(st, w.mine, w.next);
    SameFlight(st, w, t);
    Assembled(multiset(InFlight(st, w)), multiset(Items(st, t.mine[t.next..])), multiset{ItemOf(st, w.mine[w.next])});
  }

  lemma SkipKeepsWorker(c: Config, w: Worker)
    requires WorkerInv(c, w) && w.next < |w.mine|
    ensures WorkerInv(c, SkipWorker(w)) && w.phase == RS.Running
  {
  }

  lemma SameFlight<T>(st: Store<T>, w: Worker, t: Worker)
    requires t.mine == w.mine && t.flight == w.flight && forall k :: 0 <= k < |w.flight| ==> w.flight[k] < |w.mine|
    ensures InFlight(st, t) == InFlight(st, w)
  {
  }

  lemma OneMoreFlight<T>(st: Store<T>, w: Worker, t: Worker)
    requires t.mine == w.mine && w.next < |w.mine| && t.flight == w.flight + [w.next]
    requires forall k :: 0 <= k < |w.flight| ==> w.flight[k] < |w.mine|
    ensures (forall k :: 0 <= k < |t.flight| ==> t.flight[k] < |t.mine|)
    ensures multiset(InFlight(st, t)) == multiset(InFlight(st, w)) + multiset{ItemOf(st, w.mine[w.next])}
  {
    assert InFlight(st, t) == InFlight(st, w) + [ItemOf(st, w.mine[w.next])];
  }

  lemma ItemsTail<T>(st: Store<T>, hs: seq<Header>, k: nat)
    requires k < |hs|
    ensures multiset(Items(st, hs[k..])) == multiset(Items(st, hs[k + 1..])) + multiset{ItemOf(st, hs[k])}
  {
    assert hs[k..] == [hs[k]] + hs[k + 1..];
    assert Items(st, hs[k..]) == [ItemOf(st, hs[k])] + Items(st, hs[k + 1..]);
  }

  lemma IssueHolds<T(!new)>(c: Config, st: Store<T>, w: Worker)
    requires WorkerInv(c, w) && w.next < |w.mine| && w.free > 0
    ensures WorkerInv(c, IssueWorker(w)) && w.phase == RS.Running
    ensures Held(c, st, w) == Held(c, st, IssueWorker(w))
  {
    IssueParts(st, w);
    HeldIs(c, st, w);
    HeldIs(c, st, IssueWorker(w));
  }

  lemma IssueParts<T(!new)>(st: Store<T>, w: Worker)
    requires w.next < |w.mine| && w.free > 0 && forall k :: 0 <= k < |w.flight| ==> w.flight[k] < |w.mine|
    ensures var t := IssueWorker(w);
            && (forall k :: 0 <= k < |t.flight| ==> t.flight[k] < |t.mine|)
            && multiset(InFlight(st, w)) + multiset(Items(st, w.mine[w.next..]))
               == multiset(InFlight(st, t)) + multiset(Items(st, t.mine[t.next..]))
  {
    var t := IssueWorker(w);
    ItemsTail(st, w.mine, w.next);
    OneMoreFlight(st, w, t);
    Transfer(multiset(Items(st, w.mine[w.next..])), multiset(InFlight(st, w)), multiset(Items(st, t.mine[t.next..])),
             multiset(InFlight(st, t)), multiset{ItemOf(st, w.mine[w.next])});
  }

  lemma WorkersKept(c: Config, ws: seq<Worker>, i: nat, w: Worker)
    requires WorkersInv(c, ws) && i < |ws| && WorkerInv(c, w)
    ensures WorkersInv(c, ws[i := w])
  {
    var ws' := ws[i := w];
    forall j | 0 <= j < |ws'| ensures WorkerInv(c, ws'[j]) {
      assert j != i ==> WorkerInv(c, ws[j]);
    }
  }

  lemma SameClosing<T>(s: State<T>, t: State<T>, i: nat, w: Worker)
    requires RS.CloseInv(Closing(s)) && i < |s.workers| && w.phase == s.workers[i].phase
    requires t.workers == s.workers[i := w] && t.open == s.open && t.activeThreads == s.activeThreads
    ensures RS.CloseInv(Closing(t))
  {
    assert Phases(t.workers) == Phases(s.workers);
  }

  lemma PushKeepsInv<T(!new)>(c: Config, st: Store<T>, s: State<T>, i: nat, w: Worker, x: Item<T>,
                              total: multiset<Item<T>>)
    requires Inv(c, st, s, total) && HasRoom(c, s) && i < |s.workers| && WorkerInv(c, w)
    requires w.phase == s.workers[i].phase
    requires Held(c, st, s.workers[i]) == Held(c, st, w) + multiset{x}
    ensures Inv(c, st, PushStep(s, i, w, x), total)
  {
    var t := PushStep(s, i, w, x);
    WorkersKept(c, s.workers, i, w);
    SameClosing(s, t, i, w);
    PushConserves(c, st, s, i, w, x, total);
  }

  lemma PushConserves<T(!new)>(c: Config, st: Store<T>, s: State<T>, i: nat, w: Worker, x: Item<T>,
                               total: multiset<Item<T>>)
    requires Conserved(c, st, s, total) && i < |s.workers| && Held(c, st, s.workers[i]) == Held(c, st, w) + multiset{x}
    ensures Conserved(c, st, PushStep(s, i, w, x), total)
  {
    var t := PushStep(s, i, w, x);
    var h, h' := Helds(c, st, s.workers), Helds(c, st, t.workers);
    assert h' == h[i := Held(c, st, w)];
    SumUpdate(h, i, Held(c, st, w));
    TakeOne(Sum(h), Sum(h'), h[i], h'[i], multiset{x});
    Transfer(Sum(h), multiset(s.queue) + multiset(s.delivered), Sum(h'), multiset(t.queue) + multiset(t.delivered),
             multiset{x});
  }

  lemma LocalKeepsInv<T(!new)>(c: Config, st: Store<T>, s: State<T>, i: nat, w: Worker, total: multiset<Item<T>>)
    requires Inv(c, st, s, total) && i < |s.workers| && WorkerInv(c, w) && w.phase == s.workers[i].phase
    requires Held(c, st, s.workers[i]) == Held(c, st, w)
    ensures Inv(c, st, s.(workers := s.workers[i := w]), total)
  {
    WorkersKept(c, s.workers, i, w);
    SameClosing(s, s.(workers := s.workers[i := w]), i, w);
    assert Helds(c, st, s.workers[i := w]) == Helds(c, st, s.workers);
  }

  // ---- leaving and polling -----------------------------------------------------------------

  function LeaveOn<T>(s: State<T>, i: nat): State<T>
    requires i < |s.workers| && (s.workers[i].phase == RS.Leaving ==> s.activeThreads > 0)
  {
    match s.workers[i].phase
    case Running => s.(workers := s.workers[i := s.workers[i].(phase := RS.Leaving)])
    case Leaving => s.(workers := s.workers[i := s.workers[i].(phase := RS.Decremented)],
                       activeThreads := s.activeThreads - 1)
    case _ => s.(workers := s.workers[i := s.workers[i].(phase := RS.Exited)], open := s.open && s.activeThreads != 0)
  }

  lemma LeaveKeepsInv<T(!new)>(c: Config, st: Store<T>, s: State<T>, i: nat, total: multiset<Item<T>>)
    requires Inv(c, st, s, total) && i < |s.workers| && s.workers[i].phase != RS.Exited
    requires s.workers[i].completed == |s.workers[i].mine|
    ensures s.workers[i].phase == RS.Leaving ==> s.activeThreads > 0
    ensures Inv(c, st, LeaveOn(s, i), total)
  {
    assert WorkerInv(c, s.workers[i]);
    LeaveKeepsClosing(s, i);
    var t := LeaveOn(s, i);
    SamePhaseHolds(c, st, s.workers[i], t.workers[i]);
    WorkersKept(c, s.workers, i, t.workers[i]);
    SameHelds(c, st, s.workers, i, t.workers[i]);
  }

  lemma SamePhaseHolds<T>(c: Config, st: Store<T>, w: Worker, t: Worker)
    requires WorkerInv(c, w) && t == w.(phase := t.phase) && w.completed == |w.mine|
    ensures WorkerInv(c, t) && Held(c, st, t) == Held(c, st, w)
  {
    assert InFlight(st, t) == InFlight(st, w);
  }

  lemma SameHelds<T>(c: Config, st: Store<T>, ws: seq<Worker>, i: nat, w: Worker)
    requires i < |ws| && Held(c, st, w) == Held(c, st, ws[i])
    ensures Helds(c, st, ws[i := w]) == Helds(c, st, ws)
  {
  }

  lemma LeaveKeepsClosing<T>(s: State<T>, i: nat)
    requires RS.CloseInv(Closing(s)) && i < |s.workers| && s.workers[i].phase != RS.Exited
    ensures s.workers[i].phase == RS.Leaving ==> s.activeThreads > 0
    ensures RS.CloseInv(Closing(LeaveOn(s, i)))
  {
    var v := Closing(s);
    match s.workers[i].phase {
      case Running =>
        RS.LeaveKeepsClose(v, i);
        assert Closing(LeaveOn(s, i)).workers == RS.Leave(v, i).workers;
      case Leaving =>
        RS.DecrementKeepsClose(v, i);
        assert Closing(LeaveOn(s, i)).workers == RS.Decrement(v, i).workers;
      case Decremented =>
        RS.CheckKeepsClose(v, i);
        assert Closing(LeaveOn(s, i)).workers == RS.Check(v, i).workers;
    }
  }

  function Poll<T>(s: State<T>): State<T>
    requires s.queue != []
  {
    s.(queue := s.queue[1..], delivered := s.delivered + [s.queue[0]])
  }

  lemma PollKeepsInv<T(!new)>(c: Config, st: Store<T>, s: State<T>, total: multiset<Item<T>>)
    requires Inv(c, st, s, total) && s.queue != []
    ensures Inv(c, st, Poll(s), total)
  {
    var t := Poll(s);
    assert s.queue == [s.queue[0]] + t.queue;
    Transfer(multiset(s.queue), multiset(s.delivered), multiset(t.queue), multiset(t.delivered), multiset{s.queue[0]});
    assert Closing(t) == Closing(s);
  }

  // A consumer that finds the queue empty and closed has received every chunk exactly once,
  // with its own data and index.
  lemma ClosedMeansDelivered<T(!new)>(c: Config, st: Store<T>, s: State<T>, total: multiset<Item<T>>)
    requires Inv(c, st, s, total) && s.queue == [] && !s.open
    ensures multiset(s.delivered) == total
  {
    forall i | 0 <= i < |s.workers| ensures Helds(c, st, s.workers)[i] == multiset{} {
      assert WorkerInv(c, s.workers[i]);
      RS.TotalZero(RS.Busy(Phases(s.workers)));
      assert RS.Busy(Phases(s.workers))[i] == 0;
      assert InFlight(st, s.workers[i]) == [];
      assert s.workers[i].mine[s.workers[i].next..] == [];
      assert Items(st, s.workers[i].mine[s.workers[i].next..]) == [];
    }
    SumOfEmpty(Helds(c, st, s.workers));
  }

  // ---- progress ----------------------------------------------------------------------------

  function Weight(w: Worker): nat
    requires w.next <= |w.mine|
  {
    2 * (|w.mine| - w.next) + |w.flight|
  }

  ghost function Weights(ws: seq<Worker>): (r: seq<nat>)
    ensures |r| == |ws| && forall i :: 0 <= i < |r| ==> r[i] == if ws[i].next <= |ws[i].mine| then Weight(ws[i]) else 0
  {
    seq(|ws|, i requires 0 <= i < |ws| => if ws[i].next <= |ws[i].mine| then Weight(ws[i]) else 0)
  }

  ghost function Ranks(ws: seq<Worker>): (r: seq<nat>)
    ensures |r| == |ws| && forall i :: 0 <= i < |r| ==> r[i] == RS.Rank(ws[i].phase)
  {
    seq(|ws|, i requires 0 <= i < |ws| => RS.Rank(ws[i].phase))
  }

  ghost predicate Less<T>(t: State<T>, s: State<T>)
  {
    || Total(Weights(t.workers)) < Total(Weights(s.workers))
    || (Total(Weights(t.workers)) == Total(Weights(s.workers)) && Total(Ranks(t.workers)) < Total(Ranks(s.workers)))
    || (Total(Weights(t.workers)) == Total(Weights(s.workers)) && Total(Ranks(t.workers)) == Total(Ranks(s.workers))
        && (|t.queue| < |s.queue| || (|t.queue| == |s.queue| && t.refusals < s.refusals)))
  }

  lemma Lighter(ws: seq<Worker>, i: nat, w: Worker)
    requires i < |ws| && ws[i].next <= |ws[i].mine| && w.next <= |w.mine| && Weight(w) < Weight(ws[i])
    ensures Total(Weights(ws[i := w])) < Total(Weights(ws))
  {
    assert Weights(ws[i := w]) == Weights(ws)[i := Weight(w)];
    TotalUpdate(Weights(ws), i, Weight(w));
  }

  lemma LowerRank(ws: seq<Worker>, i: nat, w: Worker)
    requires i < |ws| && w == ws[i].(phase := w.phase) && RS.Rank(w.phase) < RS.Rank(ws[i].phase)
    ensures Total(Weights(ws[i := w])) == Total(Weights(ws)) && Total(Ranks(ws[i := w])) < Total(Ranks(ws))
  {
    assert Weights(ws[i := w]) == Weights(ws);
    assert Ranks(ws[i := w]) == Ranks(ws)[i := RS.Rank(w.phase)];
    TotalUpdate(Ranks(ws), i, RS.Rank(w.phase));
  }

  // ---- the run -----------------------------------------------------------------------------

  // A worker can go on leaving, or look at its next chunk; passing on an empty chunk needs room.
  predicate CanStep<T>(c: Config, s: State<T>, i: nat)
    requires i < |s.workers|
  {
    var w := s.workers[i];
    match w.phase
    case Running =>
      w.completed == |w.mine| || (w.free > 0 && w.next < |w.mine| && (w.mine[w.next].used > 0 || HasRoom(c, s)))
    case Exited => false
    case _ => true
  }

  method Step<T(!new)>(c: Config, st: Store<T>, start: State<T>, i: nat, ghost total: multiset<Item<T>>)
    returns (s: State<T>)
    requires Inv(c, st, start, total) && i < |start.workers| && CanStep(c, start, i)
    ensures Inv(c, st, s, total) && Less(s, start)
  {
    var w := start.workers[i];
    assert WorkerInv(c, w);
    if w.phase != RS.Running || w.completed == |w.mine| {
      s := Leave(c, st, start, i, total);
    } else if w.mine[w.next].used == 0 {
      s := PassOn(c, st, start, i, total);
    } else {
      s := Submit(c, st, start, i, total);
    }
  }

  method Leave<T(!new)>(c: Config, st: Store<T>, start: State<T>, i: nat, ghost total: multiset<Item<T>>)
    returns (s: State<T>)
    requires Inv(c, st, start, total) && i < |start.workers| && start.workers[i].phase != RS.Exited
    requires start.workers[i].completed == |start.workers[i].mine|
    ensures Inv(c, st, s, total) && Less(s, start)
  {
    LeaveKeepsInv(c, st, start, i, total);
    LeaveLess(start, i);
    s := LeaveOn(start, i);
  }

  lemma LeaveLess<T>(s: State<T>, i: nat)
    requires i < |s.workers| && s.workers[i].phase != RS.Exited
    requires s.workers[i].phase == RS.Leaving ==> s.activeThreads > 0
    ensures Less(LeaveOn(s, i), s)
  {
    LowerRank(s.workers, i, LeaveOn(s, i).workers[i]);
  }

  method PassOn<T(!new)>(c: Config, st: Store<T>, start: State<T>, i: nat, ghost total: multiset<Item<T>>)
    returns (s: State<T>)
    requires Inv(c, st, start, total) && HasRoom(c, start) && i < |start.workers| && WorkerInv(c, start.workers[i])
    requires start.workers[i].next < |start.workers[i].mine| && start.workers[i].mine[start.workers[i].next].used == 0
    ensures Inv(c, st, s, total) && Less(s, start)
  {
    var w := start.workers[i];
    SkipHolds(c, st, w);
    var h := w.mine[w.next];
    assert ItemOf(st, h) == Item(h.index, []);
    PushKeepsInv(c, st, start, i, SkipWorker(w), Item(h.index, []), total);
    s := PushStep(start, i, SkipWorker(w), Item(h.index, []));
    Lighter(start.workers, i, SkipWorker(w));
  }

  method Submit<T(!new)>(c: Config, st: Store<T>, start: State<T>, i: nat, ghost total: multiset<Item<T>>)
    returns (s: State<T>)
    requires Inv(c, st, start, total) && i < |start.workers| && WorkerInv(c, start.workers[i])
    requires start.workers[i].free > 0 && start.workers[i].next < |start.workers[i].mine|
    ensures Inv(c, st, s, total) && Less(s, start)
    ensures || s == start.(workers := start.workers[i := IssueWorker(start.workers[i])])
            || (start.refusals > 0 && s == start.(refusals := start.refusals - 1))
  {
    var w := start.workers[i];
    var full: bool := *;
    if full && start.refusals > 0 {
      assert RefusedWorker(w) == w && start.workers[i := w] == start.workers;
      assert Closing(start.(refusals := start.refusals - 1)) == Closing(start);
      s := start.(workers := start.workers[i := RefusedWorker(w)], refusals := start.refusals - 1);
    } else {
      IssueHolds(c, st, w);
      LocalKeepsInv(c, st, start, i, IssueWorker(w), total);
      s := start.(workers := start.workers[i := IssueWorker(w)]);
      Lighter(start.workers, i, IssueWorker(w));
    }
  }

  method Reap<T(!new)>(c: Config, st: Store<T>, start: State<T>, i: nat, k: nat, ghost total: multiset<Item<T>>)
    returns (s: State<T>)
    requires Inv(c, st, start, total) && HasRoom(c, start) && i < |start.workers| && k < |start.workers[i].flight|
    ensures Inv(c, st, s, total) && Less(s, start)
  {
    var w := start.workers[i];
    assert WorkerInv(c, w);
    ReapHolds(c, st, w, k);
    var x := ItemOf(st, w.mine[w.flight[k]]);
    PushKeepsInv(c, st, start, i, ReapWorker(w, k), x, total);
    s := PushStep(start, i, ReapWorker(w, k), x);
    Lighter(start.workers, i, ReapWorker(w, k));
  }

  // Every interleaving of workers, completions and consumers ends with the sentinel, and by
  // then every chunk has been delivered exactly once.
  method RunToCompletion<T(!new)>(c: Config, st: Store<T>, start: State<T>, ghost total: multiset<Item<T>>)
    returns (delivered: seq<Item<T>>)
    requires Inv(c, st, start, total)
    ensures multiset(delivered) == total
  {
    var s := start;
    while
      invariant Inv(c, st, s, total)
      decreases Total(Weights(s.workers)), Total(Ranks(s.workers)), |s.queue|, s.refusals
    {
      case exists i :: 0 <= i < |s.workers| && CanStep(c, s, i) =>
        var i :| 0 <= i < |s.workers| && CanStep(c, s, i);
        s := Step(c, st, s, i, total);
      case HasRoom(c, s) && exists i :: 0 <= i < |s.workers| && s.workers[i].flight != [] =>
        var i :| 0 <= i < |s.workers| && s.workers[i].flight != [];
        var k :| 0 <= k < |s.workers[i].flight|;
        s := Reap(c, st, s, i, k, total);
      case s.queue != [] =>
        PollKeepsInv(c, st, s, total);
        s := Poll(s);
    }
    NothingEnabled(c, st, s, total);
    ClosedMeansDelivered(c, st, s, total);
    delivered := s.delivered;
  }

  lemma NothingEnabled<T(!new)>(c: Config, st: Store<T>, s: State<T>, total: multiset<Item<T>>)
    requires Inv(c, st, s, total) && s.queue == []
    requires forall i {:trigger CanStep(c, s, i)} :: 0 <= i < |s.workers| ==> !CanStep(c, s, i)
    requires forall i :: 0 <= i < |s.workers| ==> s.workers[i].flight == []
    ensures !s.open
  {
    forall i | 0 <= i < |s.workers| ensures RS.Busy(Phases(s.workers))[i] == 0 && s.workers[i].phase == RS.Exited {
      assert WorkerInv(c, s.workers[i]) && !CanStep(c, s, i);
    }
    RS.TotalZero(RS.Busy(Phases(s.workers)));
  }

  // ---- starting ----------------------------------------------------------------------------

  method StartWorkers(c: Config, headers: seq<Header>, numThreads: nat) returns (workers: seq<Worker>)
    requires numThreads > 0
    ensures |workers| == numThreads
    ensures forall i :: 0 <= i < numThreads ==>
              workers[i] == Worker(Strided(headers, i, numThreads), 0, 0, [], c.maxRequests, RS.Running)
  {
    workers := [];
    for i := 0 to numThreads
      invariant |workers| == i
      invariant forall j :: 0 <= j < i ==>
                  workers[j] == Worker(Strided(headers, j, numThreads), 0, 0, [], c.maxRequests, RS.Running)
    {
      var mine := Deal(headers, i, numThreads);
      workers := workers + [Worker(mine, 0, 0, [], c.maxRequests, RS.Running)];
    }
  }

  ghost function ItemLists<T>(st: Store<T>, lists: seq<seq<Header>>): (r: seq<seq<Item<T>>>)
    ensures |r| == |lists| && forall i :: 0 <= i < |r| ==> r[i] == Items(st, lists[i])
  {
    seq(|lists|, i requires 0 <= i < |lists| => Items(st, lists[i]))
  }

  lemma {:induction false} ItemsOfConcat<T>(st: Store<T>, lists: seq<seq<Header>>)
    ensures Items(st, Concat(lists)) == Concat(ItemLists(st, lists))
  {
    if lists != [] {
      var n := |lists| - 1;
      ItemsOfConcat(st, lists[..n]);
      assert ItemLists(st, lists)[..n] == ItemLists(st, lists[..n]);
      assert Items(st, Concat(lists[..n]) + lists[n]) == Items(st, Concat(lists[..n])) + Items(st, lists[n]);
    }
  }

  // Headers in another order denote the same blocks in that order.
  lemma {:induction false} ItemsAnyOrder<T(!new)>(st: Store<T>, a: seq<Header>, b: seq<Header>)
    requires multiset(a) == multiset(b)
    ensures multiset(Items(st, a)) == multiset(Items(st, b))
  {
    if a == [] {
      assert |multiset(b)| == 0;
    } else {
      var n := |a| - 1;
      var j := Position(a, b);
      RestMatches(a, b, j);
      ItemsAnyOrder(st, a[..n], b[..j] + b[j + 1..]);
      ItemsWithout(st, b, j);
      assert Items(st, a) == Items(st, a[..n]) + [ItemOf(st, b[j])];
    }
  }

  lemma ItemsWithout<T(!new)>(st: Store<T>, b: seq<Header>, j: nat)
    requires j < |b|
    ensures multiset(Items(st, b)) == multiset(Items(st, b[..j] + b[j + 1..])) + multiset{ItemOf(st, b[j])}
  {
    var items := Items(st, b);
    RS.RemoveOne(items, j);
    assert Items(st, b[..j] + b[j + 1..]) == items[..j] + items[j + 1..];
  }

  lemma StartHolds<T(!new)>(c: Config, st: Store<T>, headers: seq<Header>, workers: seq<Worker>)
    requires |workers| > 0
    requires forall i :: 0 <= i < |workers| ==>
               workers[i] == Worker(Strided(headers, i, |workers|), 0, 0, [], c.maxRequests, RS.Running)
    ensures WorkersInv(c, workers) && Sum(Helds(c, st, workers)) == multiset(Items(st, headers))
  {
    var n := |workers|;
    var lists := Lists(headers, 0, n);
    forall i | 0 <= i < n ensures WorkerInv(c, workers[i]) && Held(c, st, workers[i]) == multiset(Items(st, lists[i])) {
      assert InFlight(st, workers[i]) == [];
      assert workers[i].mine[0..] == lists[i];
    }
    SumIsConcat(Helds(c, st, workers), ItemLists(st, lists));
    ItemsOfConcat(st, lists);
    AllDealt(headers, 0, n);
    assert headers[0..] == headers;
    ItemsAnyOrder(st, Concat(lists), headers);
  }

  // The chunks of a sequence, read by any number of threads: the consumers receive every block
  // exactly once, in some order.
  method ReadChunks<T(!new)>(r: Setup, st: Store<T>, headers: seq<Header>) returns (delivered: seq<Item<T>>)
    requires CanRead(r)
    ensures multiset(delivered) == multiset(Items(st, headers))
  {
    var workers := StartWorkers(r.config, headers, r.numThreads);
    StartHolds(r.config, st, headers, workers);
    var s: State<T> := State(workers, [], true, r.numThreads, [], r.refusals);
    forall i | 0 <= i < r.numThreads ensures RS.Busy(Phases(workers))[i] == 1 {
    }
    RS.TotalOnes(RS.Busy(Phases(workers)));
    delivered := RunToCompletion(r.config, st, s, multiset(Items(st, headers)));
  }
}
