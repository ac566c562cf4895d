// The reader: files are dealt to worker threads, which read their active chunks and push them
// to a closable queue (utils/unordered_file_reader.h, utils/simple_queue.h).
module UnorderedFileReader {
  import opened Sequences
  import opened Arithmetic
  import opened ReaderFiles
  import R = ReaderState

  // What a poll returns: a chunk, or the sentinel of a closed and empty queue.
  datatype Polled<T> = Success(value: T) | Finish

  // A closable FIFO with an optional size limit; a push waits for room, a poll for an element
  // or for the closing.
  class SimpleQueue<T> {
    var queue: seq<T>
    var open: bool
    const sizeLimit: nat

    constructor (sizeLimit: nat)
      ensures queue == [] && open && this.sizeLimit == sizeLimit
    {
      queue, open, this.sizeLimit := [], true, sizeLimit;
    }

    predicate CanPush()
      reads this
    {
      sizeLimit == 0 || |queue| < sizeLimit
    }

    method Push(x: T)
      requires CanPush()
      modifies this
      ensures queue == old(queue) + [x] && open == old(open)
      ensures sizeLimit > 0 ==> |queue| <= sizeLimit
    {
      queue := queue + [x];
    }

    predicate CanPoll()
      reads this
    {
      queue != [] || !open
    }

    method Poll() returns (r: Polled<T>)
      requires CanPoll()
      modifies this
      ensures open == old(open)
      ensures r == Finish ==> old(queue) == [] && !open && queue == []
      ensures r.Success? ==> old(queue) == [r.value] + queue
    {
      if queue == [] {
        return Finish;
      }
      r := Success(queue[0]);
      queue := queue[1..];
    }

    method Close()
      modifies this
      ensures !open && queue == old(queue)
    {
      open := false;
    }

    // Reopening is only allowed once the queue is drained.
    method Reopen() returns (ok: bool)
      modifies this
      ensures ok <==> old(queue) == []
      ensures queue == old(queue) && open == (ok || old(open))
    {
      ok := queue == [];
      if ok {
        open := true;
      }
    }
  }

  // The worker that file j is dealt to when files are dealt round robin.
  function OwnerOf(j: nat, numThreads: nat): (w: nat)
    requires numThreads > 0
    ensures w < numThreads
  {
    if j < numThreads then j else OwnerOf(j - numThreads, numThreads)
  }

  lemma {:induction false} OwnerIsRemainder(j: nat, numThreads: nat)
    requires numThreads > 0
    ensures OwnerOf(j, numThreads) == j % numThreads
    decreases j
  {
    if j < numThreads {
      SmallRemainder(j, numThreads);
    } else {
      OwnerIsRemainder(j - numThreads, numThreads);
      var i := j - numThreads;
      DivMod(i, numThreads);
      ProductStep(i / numThreads, numThreads);
      Remainder(i / numThreads + 1, i % numThreads, numThreads);
    }
  }

  lemma {:induction false} OwnerPeriod(j: nat, a: nat, numThreads: nat)
    requires numThreads > 0 && j < a < j + numThreads
    ensures OwnerOf(a, numThreads) != OwnerOf(j, numThreads)
    decreases j
  {
    if j >= numThreads {
      OwnerPeriod(j - numThreads, a - numThreads, numThreads);
    }
  }

  lemma OwnerPeriods(j: nat, numThreads: nat)
    requires numThreads > 0
    ensures OwnerOf(j + numThreads, numThreads) == OwnerOf(j, numThreads)
    ensures forall a: nat :: j < a < j + numThreads ==> OwnerOf(a, numThreads) != OwnerOf(j, numThreads)
  {
    forall a: nat | j < a < j + numThreads ensures OwnerOf(a, numThreads) != OwnerOf(j, numThreads) {
      OwnerPeriod(j, a, numThreads);
    }
  }

  // The list that the loop of Start makes for worker w: every file goes to exactly one worker.
  method Deal(numFiles: nat, numThreads: nat, w: nat) returns (list: seq<nat>)
    requires w < numThreads
    ensures forall a: nat :: a in list <==> a < numFiles && OwnerOf(a, numThreads) == w
    ensures forall i, k :: 0 <= i < k < |list| ==> list[i] < list[k]
  {
    list := [];
    var j := w;
    while j < numFiles
      invariant OwnerOf(j, numThreads) == w
      invariant forall a: nat :: a in list <==> a < j && a < numFiles && OwnerOf(a, numThreads) == w
      invariant forall i, k :: 0 <= i < k < |list| ==> list[i] < list[k]
      invariant forall i :: 0 <= i < |list| ==> list[i] < j
    {
      list := list + [j];
      OwnerPeriods(j, numThreads);
      j := j + numThreads;
    }
  }

  // ---- starting ----------------------------------------------------------------------------

  method OpenFiles(cfg: R.Config, infos: seq<FileInfo>, numThreads: nat) returns (files: seq<R.OpenedFile>)
    requires cfg.readSize > 0 && numThreads > 0
    ensures R.AllFresh(cfg, files, infos, numThreads)
    ensures forall j :: 0 <= j < |files| ==> files[j].completed == 0 && files[j].owner == OwnerOf(j, numThreads)
  {
    files := [];
    for j := 0 to |infos|
      invariant |files| == j
      invariant forall i :: 0 <= i < j ==>
                  R.Fresh(cfg, files[i]) && files[i].info == infos[i] && files[i].owner == OwnerOf(i, numThreads)
    {
      var active := CountActive(infos[j], cfg.readSize);
      files := files + [R.OpenedFile(infos[j], OwnerOf(j, numThreads), 0, 0, active, 0, [])];
    }
  }

  lemma {:induction false} TotalSkip(s: seq<nat>, a: nat, b: nat)
    requires a <= b <= |s| && forall k :: a <= k < b ==> s[k] == 0
    ensures Total(s[..a]) == Total(s[..b])
    decreases b - a
  {
    if a < b {
      TotalSkip(s, a, b - 1);
      assert s[..b][..b - 1] == s[..b - 1];
    }
  }

  lemma TotalNext(s: seq<nat>, a: nat, b: nat)
    requires a <= b < |s| && forall k :: a <= k < b ==> s[k] == 0
    ensures Total(s[..b + 1]) == Total(s[..a]) + s[b]
  {
    TotalSkip(s, a, b);
    assert s[..b + 1][..b] == s[..b];
  }

  // A worker's set-up: files without active chunks are complete from the start.
  method StartWorker(cfg: R.Config, files: seq<R.OpenedFile>, list: seq<nat>, w: nat) returns (k: R.Worker)
    requires forall j :: 0 <= j < |files| ==> files[j].completed == 0
    requires forall a: nat :: a in list <==> a < |files| && files[a].owner == w
    requires forall p, q :: 0 <= p < q < |list| ==> list[p] < list[q]
    ensures R.Started(cfg, files, w, k)
  {
    var available: seq<nat>, finished := [], 0;
    ghost var done, seen: nat := R.DoneOf(files, w), 0;
    for i := 0 to |list|
      invariant seen == if i == 0 then 0 else list[i - 1] + 1
      invariant seen <= |files| && finished == Total(done[..seen])
      invariant forall a: nat :: a in available <==> a in list[..i] && a < |files| && files[a].active != 0
    {
      assert list[i] in list;
      UpToListed(done, list, i, seen);
      if files[list[i]].active == 0 {
        finished := finished + 1;
      } else {
        available := available + [list[i]];
      }
      assert list[..i + 1] == list[..i] + [list[i]];
      seen := list[i] + 1;
    }
    assert list[..|list|] == list;
    AfterListed(done, list, seen);
    k := R.Worker(available, cfg.maxRequests, finished, R.Running);
  }

  // The files between two listed ones are not the worker's.
  lemma UpToListed(done: seq<nat>, list: seq<nat>, i: nat, seen: nat)
    requires i < |list| && list[i] < |done| && forall p, q :: 0 <= p < q < |list| ==> list[p] < list[q]
    requires seen == if i == 0 then 0 else list[i - 1] + 1
    requires forall a: nat :: a < |done| && a !in list ==> done[a] == 0
    ensures seen <= list[i] && Total(done[..list[i] + 1]) == Total(done[..seen]) + done[list[i]]
  {
    forall a: nat | seen <= a < list[i] ensures done[a] == 0 {
      NotListed(list, i, a);
    }
    TotalNext(done, seen, list[i]);
  }

  lemma AfterListed(done: seq<nat>, list: seq<nat>, seen: nat)
    requires seen == (if list == [] then 0 else list[|list| - 1] + 1) && seen <= |done|
    requires forall p, q :: 0 <= p < q < |list| ==> list[p] < list[q]
    requires forall a: nat :: a < |done| && a !in list ==> done[a] == 0
    ensures Total(done[..seen]) == Total(done)
  {
    forall a: nat | seen <= a < |done| ensures done[a] == 0 {
      NotListed(list, |list|, a);
    }
    TotalSkip(done, seen, |done|);
    assert done[..|done|] == done;
  }

  lemma NotListed(list: seq<nat>, i: nat, a: nat)
    requires i <= |list| && forall p, q :: 0 <= p < q < |list| ==> list[p] < list[q]
    requires i > 0 ==> list[i - 1] < a
    requires i < |list| ==> a < list[i]
    ensures a !in list
  {
    forall k | 0 <= k < |list| ensures list[k] != a {
      if k < i - 1 {
        assert list[k] < list[i - 1];
      } else if k > i {
        assert list[i] < list[k];
      }
    }
  }

  method StartWorkers(cfg: R.Config, files: seq<R.OpenedFile>, numThreads: nat) returns (workers: seq<R.Worker>)
    requires numThreads > 0
    requires forall j :: 0 <= j < |files| ==> files[j].completed == 0 && files[j].owner == OwnerOf(j, numThreads)
    ensures |workers| == numThreads
    ensures forall w :: 0 <= w < numThreads ==> R.Started(cfg, files, w, workers[w])
  {
    workers := [];
    for w := 0 to numThreads
      invariant |workers| == w && forall i :: 0 <= i < w ==> R.Started(cfg, files, i, workers[i])
    {
      var list := Deal(|files|, numThreads, w);
      var k := StartWorker(cfg, files, list, w);
      workers := workers + [k];
    }
  }

  // What is the next chunk of a file to issue, if any.
  method NextActive(cfg: R.Config, f: R.OpenedFile, ghost numWorkers: nat) returns (found: bool, at: nat, ghost k: nat)
    requires R.FileInv(cfg, f, numWorkers)
    ensures if found then R.Found(cfg, f, at, k) && k == at / cfg.readSize else R.Left(cfg, f) == []
  {
    found, at, k := AdvanceToActive(f.info, cfg.readSize, f.issued, f.idx);
    if found {
      ChunkStarts(f.info.size, cfg.readSize, k);
    }
  }

  // ---- the reader --------------------------------------------------------------------------

  class FileReader {
    const cfg: R.Config
    const infos: seq<FileInfo>
    var files: seq<R.OpenedFile>
    var workers: seq<R.Worker>
    var activeThreads: nat
    const bufferQueue: SimpleQueue<Chunk>
    // What polls have returned so far, and whether one has returned the sentinel.
    var delivered: seq<Chunk>
    var finished: bool

    // The active chunks of all files.
    ghost function Wanted(): multiset<Chunk>
      requires cfg.readSize > 0
    {
      R.AllActive(cfg.readSize, infos)
    }

    ghost function View(): R.State
      reads this, bufferQueue
    {
      R.State(files, workers, bufferQueue.queue, bufferQueue.open, activeThreads, delivered)
    }

    ghost predicate Valid()
      reads this, bufferQueue
    {
      && cfg.readSize > 0 && bufferQueue.sizeLimit == cfg.queueLimit && R.Inv(cfg, View(), Wanted())
      && (finished ==> bufferQueue.queue == [] && !bufferQueue.open)
    }

    // Start: opens the files, counts their active chunks and deals them to the workers.
    constructor (cfg: R.Config, infos: seq<FileInfo>, numThreads: nat)
      requires cfg.readSize > 0 && cfg.maxRequests > 0 && numThreads > 0
      ensures Valid() && this.cfg == cfg && this.infos == infos && |workers| == numThreads
      ensures bufferQueue.open && !finished && fresh(bufferQueue)
    {
      this.cfg, this.infos := cfg, infos;
      var prepared := OpenFiles(cfg, infos, numThreads);
      var started := StartWorkers(cfg, prepared, numThreads);
      files, workers, activeThreads := prepared, started, numThreads;
      bufferQueue := new SimpleQueue(cfg.queueLimit);
      delivered, finished := [], false;
      new;
      forall w | 0 <= w < |workers| ensures R.Started(cfg, files, w, workers[w]) {
        assert R.Started(cfg, prepared, w, started[w]);
      }
      R.StartInv(cfg, View(), infos);
    }

    // A read of file j completes; its chunk is pushed once the queue has room.
    method Reap(j: nat, k: nat)
      requires Valid() && bufferQueue.CanPush() && j < |files| && k < |files[j].flight|
      modifies this`files, this`workers, bufferQueue
      ensures Valid() && bufferQueue.queue == old(bufferQueue.queue) + [old(files)[j].flight[k]]
      ensures R.Less(R.Work(cfg, View()), old(R.Work(cfg, View()))) && finished == old(finished)
    {
      ReapHolds(j, k);
      SettleAndPush(j, k);
    }

    lemma ReapHolds(j: nat, k: nat)
      requires Valid() && bufferQueue.CanPush() && j < |files| && k < |files[j].flight|
      ensures files[j].owner < |workers| && !finished && R.Inv(cfg, R.Reap(View(), j, k), Wanted())
      ensures R.Less(R.Work(cfg, R.Reap(View(), j, k)), R.Work(cfg, View()))
    {
      R.ReapStep(cfg, View(), j, k, Wanted());
    }

    method SettleAndPush(j: nat, k: nat)
      requires bufferQueue.CanPush() && j < |files| && k < |files[j].flight| && files[j].owner < |workers|
      modifies this`files, this`workers, bufferQueue
      ensures View() == R.Reap(old(View()), j, k) && finished == old(finished)
      ensures bufferQueue.queue == old(bufferQueue.queue) + [old(files)[j].flight[k]]
    {
      var chunk := files[j].flight[k];
      Settle(j, k);
      bufferQueue.Push(chunk);
    }

    // The bookkeeping of a completed read.
    method Settle(j: nat, k: nat)
      requires j < |files| && k < |files[j].flight| && files[j].owner < |workers|
      modifies this`files, this`workers
      ensures R.State(files, workers, old(bufferQueue.queue) + [old(files)[j].flight[k]], old(bufferQueue.open),
                      activeThreads, delivered)
           == R.Reap(old(View()), j, k)
    {
      var f, g := files[j], R.ReapFile(files[j], k);
      var w := workers[f.owner];
      files := files[j := g];
      workers := workers[f.owner := w.(free := w.free + 1,
                                       finished := w.finished + if g.completed == g.active then 1 else 0)];
    }

    // Worker w takes its first available file and issues its next active chunk, if it has one.
    method Submit(w: nat)
      requires Valid() && w < |workers| && workers[w].free > 0 && workers[w].available != []
      modifies this`files, this`workers
      ensures Valid() && R.Submits(cfg, old(View()), View(), w)
      ensures R.Less(R.Work(cfg, View()), old(R.Work(cfg, View())))
    {
      R.FirstAvailable(cfg, View(), w, Wanted());
      var found, at, k := NextActive(cfg, files[workers[w].available[0]], |workers|);
      if found {
        IssueFound(w, at, k);
      } else {
        DropFirst(w);
      }
    }

    method IssueFound(w: nat, at: nat, ghost k: nat)
      requires Valid() && w < |workers| && workers[w].free > 0 && workers[w].available != []
      requires workers[w].available[0] < |files| && files[workers[w].available[0]].owner == w
      requires R.Found(cfg, files[workers[w].available[0]], at, k) && k == at / cfg.readSize
      modifies this`files, this`workers
      ensures Valid() && R.Submits(cfg, old(View()), View(), w)
      ensures R.Less(R.Work(cfg, View()), old(R.Work(cfg, View())))
    {
      R.IssueStep(cfg, View(), w, at, k, Wanted());
      Issue(w, at);
    }

    method DropFirst(w: nat)
      requires Valid() && w < |workers| && workers[w].free > 0 && workers[w].available != []
      requires workers[w].available[0] < |files| && R.Left(cfg, files[workers[w].available[0]]) == []
      modifies this`workers
      ensures Valid() && R.Submits(cfg, old(View()), View(), w)
      ensures R.Less(R.Work(cfg, View()), old(R.Work(cfg, View())))
    {
      R.DropStep(cfg, View(), w, Wanted());
      Drop(w);
    }

    method Drop(w: nat)
      requires w < |workers| && workers[w].available != []
      modifies this`workers
      ensures View() == R.Drop(old(View()), w)
    {
      workers := workers[w := workers[w].(available := workers[w].available[1..])];
    }

    method Issue(w: nat, at: nat)
      requires w < |workers| && workers[w].free > 0 && workers[w].available != [] && cfg.readSize > 0
      requires workers[w].available[0] < |files| && at < files[workers[w].available[0]].info.size
      modifies this`files, this`workers
      ensures View() == R.Issue(cfg, old(View()), w, at, at / cfg.readSize)
    {
      var m := workers[w];
      var j := m.available[0];
      var g := R.IssueFile(cfg, files[j], at, at / cfg.readSize);
      files := files[j := g];
      workers := workers[w := m.(available := m.available[1..] + (if g.issued < g.info.size then [j] else []),
                                 free := m.free - 1)];
    }

    // Worker w has completed all its files and leaves its loop; then it decrements the thread
    // counter, and then, in a separate step, it reads the counter and closes the queue if it
    // is zero.
    method Leave(w: nat)
      requires Valid() && w < |workers| && workers[w].phase != R.Exited
      requires (workers[w].phase == R.Running ==> R.Completed(files, workers, w))
      modifies this`workers, this`activeThreads, bufferQueue
      ensures old(workers)[w].phase == R.Leaving ==> old(activeThreads) > 0
      ensures Valid() && View() == R.LeaveOn(old(View()), w)
      ensures R.Less(R.Work(cfg, View()), old(R.Work(cfg, View())))
    {
      R.LeaveStep(cfg, View(), w, Wanted());
      LeaveNext(w);
    }

    method LeaveNext(w: nat)
      requires w < |workers| && workers[w].phase != R.Exited
      requires workers[w].phase == R.Leaving ==> activeThreads > 0
      modifies this`workers, this`activeThreads, bufferQueue
      ensures View() == R.LeaveOn(old(View()), w)
    {
      match workers[w].phase {
        case Running =>
          workers := workers[w := workers[w].(phase := R.Leaving)];
        case Leaving =>
          activeThreads := activeThreads - 1;
          workers := workers[w := workers[w].(phase := R.Decremented)];
        case Decremented =>
          if activeThreads == 0 {
            bufferQueue.Close();
          }
          workers := workers[w := workers[w].(phase := R.Exited)];
      }
    }

    // A consumer polls. The sentinel comes only after every chunk has been returned.
    method Poll() returns (r: Polled<Chunk>)
      requires Valid() && bufferQueue.CanPoll()
      modifies this`delivered, this`finished, bufferQueue
      ensures Valid()
      ensures r.Success? ==> delivered == old(delivered) + [r.value] && finished == old(finished)
      ensures r.Success? ==> R.Less(R.Work(cfg, View()), old(R.Work(cfg, View())))
      ensures r.Finish? ==> finished && delivered == old(delivered) && multiset(delivered) == Wanted()
      ensures r.Finish? ==> View() == old(View())
    {
      if bufferQueue.queue == [] {
        AllDelivered();
      } else {
        R.PollStep(cfg, View(), Wanted());
      }
      r := PollNext();
    }

    lemma AllDelivered()
      requires Valid() && bufferQueue.queue == [] && !bufferQueue.open
      ensures multiset(delivered) == Wanted()
    {
      R.ClosedMeansDelivered(cfg, View(), Wanted());
    }

    method PollNext() returns (r: Polled<Chunk>)
      requires bufferQueue.CanPoll()
      modifies this`delivered, this`finished, bufferQueue
      ensures r.Success? <==> old(bufferQueue.queue) != []
      ensures r.Success? ==> View() == R.Poll(old(View())) && delivered == old(delivered) + [r.value]
      ensures r.Success? ==> finished == old(finished)
      ensures r.Finish? ==> View() == old(View()) && finished
    {
      r := bufferQueue.Poll();
      if r.Finish? {
        finished := true;
      } else {
        delivered := delivered + [r.value];
      }
    }

    method Step(w: nat)
      requires Valid() && w < |workers| && R.CanStep(files, workers, w)
      modifies this`files, this`workers, this`activeThreads, bufferQueue
      ensures Valid() && R.Less(R.Work(cfg, View()), old(R.Work(cfg, View())))
    {
      if workers[w].phase == R.Running && !R.Completed(files, workers, w) {
        Submit(w);
      } else {
        Leave(w);
      }
    }

    // Every interleaving of workers, completions and consumers ends with the sentinel, after
    // every active chunk has been delivered exactly once.
    method RunToCompletion()
      requires Valid()
      modifies this, bufferQueue
      ensures Valid() && finished && multiset(delivered) == Wanted()
      ensures forall c :: multiset(delivered)[c] == R.TimesFlagged(cfg.readSize, infos, c)
    {
      while
        invariant Valid()
        decreases R.Work(cfg, View()).left, R.Work(cfg, View()).available, R.Work(cfg, View()).flight,
                  R.Work(cfg, View()).ranks, R.Work(cfg, View()).queued, if finished then 0 else 1
      {
        case exists w :: 0 <= w < |workers| && R.CanStep(files, workers, w) =>
          var w :| 0 <= w < |workers| && R.CanStep(files, workers, w);
          Step(w);
        case bufferQueue.CanPush() && exists j :: 0 <= j < |files| && files[j].flight != [] =>
          var j :| 0 <= j < |files| && files[j].flight != [];
          var k :| 0 <= k < |files[j].flight|;
          Reap(j, k);
        case bufferQueue.CanPoll() && !finished =>
          var r := Poll();
      }
      NothingEnabled();
      R.ClosedMeansDelivered(cfg, View(), Wanted());
      AllByFlag();
    }

    // What the consumers have received: every chunk as often as it is one of a file whose flag
    // is set.
    lemma AllByFlag()
      requires cfg.readSize > 0 && multiset(delivered) == R.AllActive(cfg.readSize, infos)
      ensures forall c :: multiset(delivered)[c] == R.TimesFlagged(cfg.readSize, infos, c)
    {
      forall c ensures multiset(delivered)[c] == R.TimesFlagged(cfg.readSize, infos, c) {
        R.ActiveIffFlagged(cfg.readSize, infos, c);
      }
    }

    lemma NothingEnabled()
      requires Valid() && forall w {:trigger R.CanStep(files, workers, w)} :: 0 <= w < |workers| ==>
                 !R.CanStep(files, workers, w)
      requires !bufferQueue.CanPush() || forall j :: 0 <= j < |files| ==> files[j].flight == []
      requires !bufferQueue.CanPoll() || finished
      ensures finished
    {
      if bufferQueue.queue == [] {
        R.StuckMeansClosed(cfg, View(), Wanted());
      }
    }
  }
}
