// What the threads of the scatter phase hold, and where the elements of the input are
// (scatter_gather_algorithms/scatter_gather.h, AssignToBucket).
module ScatterState {
  import opened Sequences
  import opened Shares

  // bufs: the thread's buffer for each bucket. rest, index: what is left of the chunk being
  // processed, and the index of its first element. exhausted: the reader has returned the end
  // sentinel; cleaned buckets have been cleaned up since.
  datatype Thread<T> = Thread(bufs: seq<seq<T>>, rest: seq<T>, index: nat, exhausted: bool, cleaned: nat)

  // arrivals: the chunks not yet polled. For each bucket, inPlace and setAside are the elements
  // the writer has taken over.
  datatype State<T> = State(arrivals: seq<Chunk<T>>, threads: seq<Thread<T>>,
                            inPlace: seq<seq<T>>, setAside: seq<seq<T>>)

  // What a thread holds for bucket b: its buffer, and what is still to be routed there.
  ghost function Holds<T>(th: Thread<T>, assign: (T, nat) -> nat, b: nat): multiset<T>
  {
    (if b < |th.bufs| then multiset(th.bufs[b]) else multiset{}) + Portion(th.rest, th.index, assign, b)
  }

  ghost function Held<T>(threads: seq<Thread<T>>, assign: (T, nat) -> nat, b: nat): multiset<T>
  {
    if threads == [] then multiset{}
    else Held(threads[..|threads| - 1], assign, b) + Holds(threads[|threads| - 1], assign, b)
  }

  lemma {:induction false} HeldUpdate<T(!new)>(threads: seq<Thread<T>>, i: nat, th: Thread<T>,
                                               assign: (T, nat) -> nat, b: nat)
    requires i < |threads|
    ensures Held(threads[i := th], assign, b) + Holds(threads[i], assign, b) ==
            Held(threads, assign, b) + Holds(th, assign, b)
  {
    var n := |threads| - 1;
    UpdatedPrefix(threads, i, th);
    if i != n {
      HeldUpdate(threads[..n], i, th, assign, b);
      Balance(Held(threads[..n][i := th], assign, b), Holds(threads[i], assign, b), Held(threads[..n], assign, b),
              Holds(th, assign, b), Holds(threads[n], assign, b));
    }
  }

  lemma HeldSame<T(!new)>(threads: seq<Thread<T>>, i: nat, th: Thread<T>, assign: (T, nat) -> nat, b: nat)
    requires i < |threads| && Holds(threads[i], assign, b) == Holds(th, assign, b)
    ensures Held(threads[i := th], assign, b) == Held(threads, assign, b)
  {
    HeldUpdate(threads, i, th, assign, b);
    Cancel(Held(threads[i := th], assign, b), Held(threads, assign, b), Holds(th, assign, b));
  }

  predicate Done<T>(th: Thread<T>, n: nat)
  {
    th.exhausted && th.cleaned == n
  }

  predicate AllDone<T>(threads: seq<Thread<T>>, n: nat)
  {
    forall i :: 0 <= i < |threads| ==> Done(threads[i], n)
  }

  ghost predicate ThreadInv<T>(s: State<T>, th: Thread<T>, n: nat, capacity: nat)
  {
    && |th.bufs| == n && th.cleaned <= n
    && (forall b :: 0 <= b < n ==> |th.bufs[b]| < capacity)
    && (forall b :: 0 <= b < th.cleaned ==> th.bufs[b] == [])
    && (th.cleaned > 0 ==> th.exhausted)
    && (th.exhausted ==> th.rest == [] && s.arrivals == [])
  }

  // What belongs in bucket b is with the writer, in one thread's hands or still to be polled.
  ghost predicate BucketInv<T(!new)>(s: State<T>, b: nat, assign: (T, nat) -> nat, input: seq<Chunk<T>>)
    requires b < |s.inPlace| && b < |s.setAside|
  {
    multiset(s.inPlace[b]) + multiset(s.setAside[b]) + Held(s.threads, assign, b) + Share(s.arrivals, assign, b)
    == Share(input, assign, b)
  }

  ghost predicate Inv<T(!new)>(s: State<T>, assign: (T, nat) -> nat, n: nat, capacity: nat, input: seq<Chunk<T>>)
  {
    && |s.inPlace| == |s.setAside| == n
    && (forall i :: 0 <= i < |s.threads| ==> ThreadInv(s, s.threads[i], n, capacity))
    && (forall b :: 0 <= b < n ==> BucketInv(s, b, assign, input))
  }

  // Thread i polls the next chunk.
  function Poll<T>(s: State<T>, i: nat): State<T>
    requires i < |s.threads| && s.arrivals != []
  {
    s.(arrivals := s.arrivals[1..],
       threads := s.threads[i := s.threads[i].(rest := s.arrivals[0].data, index := s.arrivals[0].indexStart)])
  }

  lemma PollBucket<T(!new)>(s: State<T>, i: nat, assign: (T, nat) -> nat, b: nat, input: seq<Chunk<T>>)
    requires i < |s.threads| && s.arrivals != [] && s.threads[i].rest == []
    requires b < |s.inPlace| && b < |s.setAside| && BucketInv(s, b, assign, input)
    ensures BucketInv(Poll(s, i), b, assign, input)
  {
    var t := Poll(s, i);
    var x := Portion(s.arrivals[0].data, s.arrivals[0].indexStart, assign, b);
    assert Holds(t.threads[i], assign, b) == Holds(s.threads[i], assign, b) + x;
    HeldUpdate(s.threads, i, t.threads[i], assign, b);
    TakeOne(Held(t.threads, assign, b), Held(s.threads, assign, b), Holds(t.threads[i], assign, b),
            Holds(s.threads[i], assign, b), x);
    Moved(multiset(s.inPlace[b]) + multiset(s.setAside[b]), Held(s.threads, assign, b), x,
          Share(t.arrivals, assign, b));
  }

  lemma Moved<T>(a: multiset<T>, b: multiset<T>, x: multiset<T>, c: multiset<T>)
    ensures a + (b + x) + c == a + b + (x + c)
  {
  }

  lemma PollKeepsInv<T(!new)>(s: State<T>, i: nat, assign: (T, nat) -> nat, n: nat, capacity: nat,
                              input: seq<Chunk<T>>)
    requires Inv(s, assign, n, capacity, input) && i < |s.threads| && s.arrivals != [] && s.threads[i].rest == []
    ensures Inv(Poll(s, i), assign, n, capacity, input)
  {
    var t := Poll(s, i);
    forall j | 0 <= j < |t.threads| ensures ThreadInv(t, t.threads[j], n, capacity) {
      assert ThreadInv(s, s.threads[j], n, capacity);
    }
    forall b | 0 <= b < n ensures BucketInv(t, b, assign, input) {
      PollBucket(s, i, assign, b, input);
    }
  }

  // Thread i moves the next element of its chunk into its buffer for bucket b.
  function Route<T>(s: State<T>, i: nat, b: nat): State<T>
    requires i < |s.threads| && s.threads[i].rest != [] && b < |s.threads[i].bufs|
  {
    s.(threads := s.threads[i := Routed(s.threads[i], b)])
  }

  function Routed<T>(th: Thread<T>, b: nat): Thread<T>
    requires th.rest != [] && b < |th.bufs|
  {
    th.(bufs := th.bufs[b := th.bufs[b] + [th.rest[0]]], rest := th.rest[1..], index := th.index + 1)
  }

  // The thread's part of an iteration of the inner loop: a buffer that becomes full is handed
  // over, and only then.
  function Placed<T>(th: Thread<T>, b: nat, capacity: nat): Thread<T>
    requires th.rest != [] && b < |th.bufs|
  {
    var t := Routed(th, b);
    if |t.bufs[b]| == capacity then t.(bufs := t.bufs[b := []]) else t
  }

  // An element that goes to the bucket it is assigned to was held for that bucket before.
  lemma RoutedHolds<T(!new)>(th: Thread<T>, b: nat, assign: (T, nat) -> nat, c: nat)
    requires th.rest != [] && b < |th.bufs| && b == assign(th.rest[0], th.index)
    ensures Holds(Routed(th, b), assign, c) == Holds(th, assign, c)
  {
    var x, rest := th.rest[0], Portion(th.rest[1..], th.index + 1, assign, c);
    if c < |th.bufs| {
      assert multiset(Routed(th, b).bufs[c]) == multiset(th.bufs[c]) + Alone(x, th.index, assign, c);
      Assembled(multiset(th.bufs[c]), Alone(x, th.index, assign, c), rest);
    }
  }

  lemma RouteKeepsInv<T(!new)>(s: State<T>, i: nat, b: nat, assign: (T, nat) -> nat, n: nat, capacity: nat,
                               input: seq<Chunk<T>>)
    requires Inv(s, assign, n, capacity, input) && i < |s.threads| && s.threads[i].rest != [] && b < n
    requires |s.threads[i].bufs| == n && b == assign(s.threads[i].rest[0], s.threads[i].index)
    ensures Inv(Route(s, i, b), assign, n, capacity + 1, input)
    ensures |Route(s, i, b).threads[i].bufs[b]| < capacity ==> Inv(Route(s, i, b), assign, n, capacity, input)
  {
    var t := Route(s, i, b);
    forall j | 0 <= j < |t.threads| ensures
      && ThreadInv(t, t.threads[j], n, capacity + 1)
      && (j != i || |t.threads[i].bufs[b]| < capacity ==> ThreadInv(t, t.threads[j], n, capacity))
    {
      assert ThreadInv(s, s.threads[j], n, capacity);
    }
    forall c | 0 <= c < n ensures BucketInv(t, c, assign, input) {
      assert BucketInv(s, c, assign, input);
      RoutedHolds(s.threads[i], b, assign, c);
      HeldSame(s.threads, i, t.threads[i], assign, c);
    }
  }

  // The writer takes over thread i's buffer for bucket b, either in place or set aside.
  ghost function Flush<T>(s: State<T>, i: nat, b: nat, aligned: bool): State<T>
    requires i < |s.threads| && b < |s.threads[i].bufs| && b < |s.inPlace| == |s.setAside|
  {
    var th := s.threads[i];
    var t := s.(threads := s.threads[i := th.(bufs := th.bufs[b := []])]);
    if aligned then t.(inPlace := s.inPlace[b := s.inPlace[b] + th.bufs[b]])
    else t.(setAside := s.setAside[b := s.setAside[b] + th.bufs[b]])
  }

  lemma FlushBucket<T(!new)>(s: State<T>, i: nat, b: nat, aligned: bool, assign: (T, nat) -> nat, c: nat,
                             input: seq<Chunk<T>>)
    requires i < |s.threads| && b < |s.threads[i].bufs| && b < |s.inPlace| == |s.setAside|
    requires c < |s.inPlace| && BucketInv(s, c, assign, input)
    ensures BucketInv(Flush(s, i, b, aligned), c, assign, input)
  {
    var t := Flush(s, i, b, aligned);
    if c != b {
      HeldSame(s.threads, i, t.threads[i], assign, c);
    } else {
      var x := multiset(s.threads[i].bufs[b]);
      EmptiedHolds(s.threads[i], b, assign);
      HeldUpdate(s.threads, i, t.threads[i], assign, b);
      TakeOne(Held(s.threads, assign, b), Held(t.threads, assign, b), Holds(s.threads[i], assign, b),
              Holds(t.threads[i], assign, b), x);
      TakenOver(multiset(s.inPlace[b]), multiset(s.setAside[b]), x, Held(t.threads, assign, b));
    }
  }

  lemma EmptiedHolds<T>(th: Thread<T>, b: nat, assign: (T, nat) -> nat)
    requires b < |th.bufs|
    ensures Holds(th, assign, b) == Holds(th.(bufs := th.bufs[b := []]), assign, b) + multiset(th.bufs[b])
  {
  }

  lemma TakenOver<T>(inPlace: multiset<T>, setAside: multiset<T>, x: multiset<T>, held: multiset<T>)
    ensures (inPlace + x) + setAside + held == inPlace + setAside + (held + x)
    ensures inPlace + (setAside + x) + held == inPlace + setAside + (held + x)
  {
  }

  lemma FlushKeepsThreads<T(!new)>(s: State<T>, i: nat, b: nat, aligned: bool, n: nat, capacity: nat, larger: nat)
    requires i < |s.threads| && b < n && |s.threads[i].bufs| == n && 0 < capacity
    requires b < |s.inPlace| == |s.setAside|
    requires forall j :: 0 <= j < |s.threads| ==> ThreadInv(s, s.threads[j], n, larger)
    requires forall j, c :: 0 <= j < |s.threads| && 0 <= c < |s.threads[j].bufs| && (j != i || c != b) ==>
               |s.threads[j].bufs[c]| < capacity
    ensures var t := Flush(s, i, b, aligned);
            forall j :: 0 <= j < |t.threads| ==> ThreadInv(t, t.threads[j], n, capacity)
  {
    var t := Flush(s, i, b, aligned);
    forall j | 0 <= j < |t.threads| ensures ThreadInv(t, t.threads[j], n, capacity) {
      assert ThreadInv(s, s.threads[j], n, larger);
    }
  }

  lemma FlushKeepsInv<T(!new)>(s: State<T>, i: nat, b: nat, aligned: bool,
                               assign: (T, nat) -> nat, n: nat, capacity: nat, larger: nat, input: seq<Chunk<T>>)
    requires Inv(s, assign, n, larger, input) && i < |s.threads| && b < n && |s.threads[i].bufs| == n && 0 < capacity
    requires forall j, c :: 0 <= j < |s.threads| && 0 <= c < |s.threads[j].bufs| && (j != i || c != b) ==>
               |s.threads[j].bufs[c]| < capacity
    ensures Inv(Flush(s, i, b, aligned), assign, n, capacity, input)
  {
    var t := Flush(s, i, b, aligned);
    FlushKeepsThreads(s, i, b, aligned, n, capacity, larger);
    forall c | 0 <= c < n ensures BucketInv(t, c, assign, input) {
      FlushBucket(s, i, b, aligned, assign, c, input);
    }
  }

  // One element routed, and the buffer flushed if that filled it.
  lemma RouteAndFlush<T(!new)>(s: State<T>, i: nat, b: nat, aligned: bool,
                               assign: (T, nat) -> nat, n: nat, capacity: nat, input: seq<Chunk<T>>)
    requires Inv(s, assign, n, capacity, input) && i < |s.threads| && s.threads[i].rest != [] && b < n && 0 < capacity
    requires |s.threads[i].bufs| == n && b == assign(s.threads[i].rest[0], s.threads[i].index)
    ensures Inv(Flush(Route(s, i, b), i, b, aligned), assign, n, capacity, input)
  {
    RouteKeepsInv(s, i, b, assign, n, capacity, input);
    var t := Route(s, i, b);
    forall j, c | 0 <= j < |t.threads| && 0 <= c < |t.threads[j].bufs| && (j != i || c != b)
      ensures |t.threads[j].bufs[c]| < capacity
    {
      assert ThreadInv(s, s.threads[j], n, capacity);
    }
    FlushKeepsInv(t, i, b, aligned, assign, n, capacity, capacity + 1, input);
  }

  // What the threads still have to do: elements to route, and then buckets to clean up.
  ghost function ToRoute<T>(threads: seq<Thread<T>>): nat
  {
    if threads == [] then 0 else ToRoute(threads[..|threads| - 1]) + |threads[|threads| - 1].rest|
  }

  ghost function ToClean<T>(threads: seq<Thread<T>>, n: nat): nat
  {
    if threads == [] then 0 else ToClean(threads[..|threads| - 1], n) + CleanSteps(threads[|threads| - 1], n)
  }

  ghost function CleanSteps<T>(th: Thread<T>, n: nat): nat
  {
    if !th.exhausted then n + 1 else if th.cleaned < n then n - th.cleaned else 0
  }

  lemma {:induction false} WorkUpdate<T>(threads: seq<Thread<T>>, i: nat, th: Thread<T>, n: nat)
    requires i < |threads|
    ensures ToRoute(threads[i := th]) + |threads[i].rest| == ToRoute(threads) + |th.rest|
    ensures ToClean(threads[i := th], n) + CleanSteps(threads[i], n) == ToClean(threads, n) + CleanSteps(th, n)
  {
    var m := |threads| - 1;
    if i == m {
      assert threads[i := th][..m] == threads[..m];
    } else {
      assert threads[i := th][..m] == threads[..m][i := th];
      WorkUpdate(threads[..m], i, th, n);
    }
  }

  // Thread i has seen the end sentinel, and may have cleaned up its first buckets since.
  function Advance<T>(s: State<T>, i: nat, cleaned: nat): State<T>
    requires i < |s.threads|
  {
    s.(threads := s.threads[i := s.threads[i].(exhausted := true, cleaned := cleaned)])
  }

  lemma AdvanceKeepsInv<T(!new)>(s: State<T>, i: nat, cleaned: nat,
                                 assign: (T, nat) -> nat, n: nat, capacity: nat, input: seq<Chunk<T>>)
    requires Inv(s, assign, n, capacity, input) && i < |s.threads| && |s.threads[i].bufs| == n
    requires s.arrivals == [] && s.threads[i].rest == [] && cleaned <= n
    requires forall b :: 0 <= b < cleaned ==> s.threads[i].bufs[b] == []
    ensures Inv(Advance(s, i, cleaned), assign, n, capacity, input)
  {
    var t := Advance(s, i, cleaned);
    forall j | 0 <= j < |t.threads| ensures ThreadInv(t, t.threads[j], n, capacity) {
      assert ThreadInv(s, s.threads[j], n, capacity);
    }
    forall b | 0 <= b < n ensures BucketInv(t, b, assign, input) {
      AdvanceBucket(s, i, cleaned, assign, b, input);
    }
  }

  lemma AdvanceBucket<T(!new)>(s: State<T>, i: nat, cleaned: nat, assign: (T, nat) -> nat, b: nat,
                               input: seq<Chunk<T>>)
    requires i < |s.threads| && b < |s.inPlace| == |s.setAside| && BucketInv(s, b, assign, input)
    ensures BucketInv(Advance(s, i, cleaned), b, assign, input)
  {
    HeldSame(s.threads, i, Advance(s, i, cleaned).threads[i], assign, b);
  }

  // An empty buffer is passed over.
  lemma FreeAndAdvance<T(!new)>(s: State<T>, i: nat, assign: (T, nat) -> nat, n: nat, capacity: nat,
                                 input: seq<Chunk<T>>)
    requires Inv(s, assign, n, capacity, input) && i < |s.threads| && s.threads[i].exhausted && s.threads[i].cleaned < n
    requires |s.threads[i].bufs| == n && s.threads[i].bufs[s.threads[i].cleaned] == []
    ensures Inv(Advance(s, i, s.threads[i].cleaned + 1), assign, n, capacity, input)
  {
    assert ThreadInv(s, s.threads[i], n, capacity);
    AdvanceKeepsInv(s, i, s.threads[i].cleaned + 1, assign, n, capacity, input);
  }

  // The two together change thread i and what the writer holds.
  lemma FlushAdvanceThreads<T(!new)>(s: State<T>, i: nat, b: nat, aligned: bool)
    requires i < |s.threads| && b < |s.threads[i].bufs| && b < |s.inPlace| == |s.setAside|
    ensures var t := Advance(Flush(s, i, b, aligned), i, b + 1);
            && |t.threads| == |s.threads| && t.threads == s.threads[i := t.threads[i]]
            && t.threads[i].exhausted && t.threads[i].cleaned == b + 1 && t.threads[i].rest == s.threads[i].rest
  {
  }

  // No element has been taken yet.
  lemma StartInv<T(!new)>(s: State<T>, assign: (T, nat) -> nat, n: nat, capacity: nat)
    requires capacity > 0 && s.inPlace == seq(n, _ => []) && s.setAside == seq(n, _ => [])
    requires forall i :: 0 <= i < |s.threads| ==> s.threads[i] == Thread(seq(n, _ => []), [], 0, false, 0)
    ensures Inv(s, assign, n, capacity, s.arrivals)
  {
    forall i | 0 <= i < |s.threads| ensures ThreadInv(s, s.threads[i], n, capacity) {
    }
    forall b: nat | b < n ensures BucketInv(s, b, assign, s.arrivals) {
      StartBucket(s, assign, n, b);
    }
  }

  lemma StartBucket<T(!new)>(s: State<T>, assign: (T, nat) -> nat, n: nat, b: nat)
    requires b < n && s.inPlace == seq(n, _ => []) && s.setAside == seq(n, _ => [])
    requires forall i :: 0 <= i < |s.threads| ==> s.threads[i] == Thread(seq(n, _ => []), [], 0, false, 0)
    ensures BucketInv(s, b, assign, s.arrivals)
  {
    NothingHeld(s.threads, assign, b);
  }

  lemma FlushAndAdvance<T(!new)>(s: State<T>, i: nat, aligned: bool,
                                 assign: (T, nat) -> nat, n: nat, capacity: nat, input: seq<Chunk<T>>)
    requires Inv(s, assign, n, capacity, input) && i < |s.threads| && s.threads[i].exhausted && s.threads[i].cleaned < n
    requires |s.threads[i].bufs| == n && 0 < capacity
    ensures Inv(Advance(Flush(s, i, s.threads[i].cleaned, aligned), i, s.threads[i].cleaned + 1), assign, n, capacity,
                input)
  {
    var b := s.threads[i].cleaned;
    FlushPartial(s, i, b, aligned, assign, n, capacity, input);
    assert ThreadInv(s, s.threads[i], n, capacity);
    EmptiedUpTo(s, i, aligned, n, capacity);
    AdvanceKeepsInv(Flush(s, i, b, aligned), i, b + 1, assign, n, capacity, input);
  }

  // A buffer may be handed over before it is full.
  lemma FlushPartial<T(!new)>(s: State<T>, i: nat, b: nat, aligned: bool,
                              assign: (T, nat) -> nat, n: nat, capacity: nat, input: seq<Chunk<T>>)
    requires Inv(s, assign, n, capacity, input) && i < |s.threads| && b < n
    requires |s.threads[i].bufs| == n && 0 < capacity
    ensures Inv(Flush(s, i, b, aligned), assign, n, capacity, input)
  {
    BuffersBelow(s, n, capacity);
    FlushKeepsInv(s, i, b, aligned, assign, n, capacity, capacity, input);
  }

  lemma BuffersBelow<T>(s: State<T>, n: nat, capacity: nat)
    requires forall j :: 0 <= j < |s.threads| ==> ThreadInv(s, s.threads[j], n, capacity)
    ensures forall j, c :: 0 <= j < |s.threads| && 0 <= c < |s.threads[j].bufs| ==> |s.threads[j].bufs[c]| < capacity
  {
    forall j, c | 0 <= j < |s.threads| && 0 <= c < |s.threads[j].bufs| ensures |s.threads[j].bufs[c]| < capacity {
      assert ThreadInv(s, s.threads[j], n, capacity);
    }
  }

  lemma EmptiedUpTo<T>(s: State<T>, i: nat, aligned: bool, n: nat, capacity: nat)
    requires i < |s.threads| && ThreadInv(s, s.threads[i], n, capacity) && s.threads[i].exhausted
    requires s.threads[i].cleaned < n == |s.inPlace| == |s.setAside|
    ensures var b := s.threads[i].cleaned;
            var t := Flush(s, i, b, aligned);
            && t.arrivals == [] && t.threads[i].rest == [] && |t.threads[i].bufs| == n
            && forall c :: 0 <= c < b + 1 ==> t.threads[i].bufs[c] == []
  {
  }

  // When all threads have cleaned up, the writer has for every bucket exactly its share of the
  // input.
  lemma AllWithWriter<T(!new)>(s: State<T>, assign: (T, nat) -> nat, n: nat, capacity: nat, input: seq<Chunk<T>>)
    requires Inv(s, assign, n, capacity, input) && s.arrivals == []
    requires AllDone(s.threads, n)
    ensures forall b :: 0 <= b < n ==> multiset(s.inPlace[b] + s.setAside[b]) == Share(input, assign, b)
  {
    forall b | 0 <= b < n ensures multiset(s.inPlace[b] + s.setAside[b]) == Share(input, assign, b) {
      forall i | 0 <= i < |s.threads| ensures Holds(s.threads[i], assign, b) == multiset{} {
        assert ThreadInv(s, s.threads[i], n, capacity);
      }
      NothingHeld(s.threads, assign, b);
      assert BucketInv(s, b, assign, input);
    }
  }

  lemma {:induction false} NothingHeld<T>(threads: seq<Thread<T>>, assign: (T, nat) -> nat, b: nat)
    requires forall i :: 0 <= i < |threads| ==> Holds(threads[i], assign, b) == multiset{}
    ensures Held(threads, assign, b) == multiset{}
  {
    if threads != [] {
      NothingHeld(threads[..|threads| - 1], assign, b);
    }
  }
}
