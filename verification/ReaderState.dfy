// The protocol of the reader's worker threads: outstanding reads, the buffer queue and its
// closing (utils/unordered_file_reader.h).
module ReaderState {
  import opened Sequences
  import opened ReaderFiles
  import opened Arithmetic

  datatype Config = Config(readSize: nat, maxRequests: nat, queueLimit: nat)

  // A worker runs its loop, has left it, has decremented the thread counter, or has checked the
  // counter and exited.
  datatype Phase = Running | Leaving | Decremented | Exited

  // issued and idx say how far the file has been issued, in bytes and in chunks; flight are the
  // outstanding reads.
  datatype OpenedFile = OpenedFile(info: FileInfo, owner: nat, issued: nat, idx: nat, active: nat, completed: nat,
                                   flight: seq<Chunk>)

  // available: the files that may have more chunks to issue; finished counts completed files.
  datatype Worker = Worker(available: seq<nat>, free: nat, finished: nat, phase: Phase)

  datatype State = State(files: seq<OpenedFile>, workers: seq<Worker>, queue: seq<Chunk>, open: bool,
                         activeThreads: nat, delivered: seq<Chunk>)

  // ---- totals over files and workers -------------------------------------------------------

  ghost function Left(c: Config, f: OpenedFile): seq<Chunk>
    requires c.readSize > 0
  {
    ActiveFrom(f.info, c.readSize, f.idx)
  }

  ghost function Held(c: Config, f: OpenedFile): multiset<Chunk>
    requires c.readSize > 0
  {
    multiset(f.flight) + multiset(Left(c, f))
  }

  ghost function Helds(c: Config, files: seq<OpenedFile>): (r: seq<multiset<Chunk>>)
    requires c.readSize > 0
    ensures |r| == |files| && forall j :: 0 <= j < |r| ==> r[j] == Held(c, files[j])
  {
    seq(|files|, j requires 0 <= j < |files| => Held(c, files[j]))
  }

  ghost function FlightOf(files: seq<OpenedFile>, w: nat): (r: seq<nat>)
    ensures |r| == |files| && forall j :: 0 <= j < |r| ==> r[j] == if files[j].owner == w then |files[j].flight| else 0
  {
    seq(|files|, j requires 0 <= j < |files| => if files[j].owner == w then |files[j].flight| else 0)
  }

  ghost function DoneOf(files: seq<OpenedFile>, w: nat): (r: seq<nat>)
    ensures |r| == |files|
    ensures forall j :: 0 <= j < |r| ==>
              r[j] == if files[j].owner == w && files[j].completed == files[j].active then 1 else 0
  {
    seq(|files|, j requires 0 <= j < |files| =>
      if files[j].owner == w && files[j].completed == files[j].active then 1 else 0)
  }

  // Only the owners matter.
  function OwnedBy(owners: seq<nat>, w: nat): (r: seq<nat>)
    ensures |r| == |owners| && forall j :: 0 <= j < |r| ==> r[j] == if owners[j] == w then 1 else 0
  {
    seq(|owners|, j requires 0 <= j < |owners| => if owners[j] == w then 1 else 0)
  }

  function Owners(files: seq<OpenedFile>): (r: seq<nat>)
    ensures |r| == |files| && forall j :: 0 <= j < |r| ==> r[j] == files[j].owner
  {
    seq(|files|, j requires 0 <= j < |files| => files[j].owner)
  }

  ghost function Busy(workers: seq<Worker>): (r: seq<nat>)
    ensures |r| == |workers|
    ensures forall w :: 0 <= w < |r| ==> r[w] == if workers[w].phase.Running? || workers[w].phase.Leaving? then 1 else 0
  {
    seq(|workers|, w requires 0 <= w < |workers| =>
      if workers[w].phase.Running? || workers[w].phase.Leaving? then 1 else 0)
  }

  lemma {:induction false} TotalsEqual(a: seq<nat>, b: seq<nat>)
    requires |a| == |b| && forall j :: 0 <= j < |a| ==> a[j] <= b[j]
    ensures Total(a) <= Total(b)
    ensures Total(a) == Total(b) ==> a == b
  {
    if a != [] {
      var n := |a| - 1;
      TotalsEqual(a[..n], b[..n]);
      assert a == a[..n] + [a[n]] && b == b[..n] + [b[n]];
    }
  }

  lemma {:induction false} TotalZero(a: seq<nat>)
    ensures Total(a) == 0 <==> forall j :: 0 <= j < |a| ==> a[j] == 0
  {
    if a != [] {
      var n := |a| - 1;
      TotalZero(a[..n]);
      assert a == a[..n] + [a[n]];
    }
  }

  // ---- invariant ---------------------------------------------------------------------------

  // Every active chunk of the file is completed, outstanding or still to be issued.
  ghost predicate FileInv(c: Config, f: OpenedFile, numWorkers: nat)
  {
    && c.readSize > 0 && f.owner < numWorkers
    && f.idx <= NumChunks(f.info.size, c.readSize) && AtChunk(f.info, c.readSize, f.issued, f.idx)
    && f.completed + |f.flight| + |Left(c, f)| == f.active
  }

  // A file with chunks to issue is available to its owner.
  ghost predicate Listed(c: Config, s: State, j: nat)
    requires c.readSize > 0 && j < |s.files|
  {
    var f := s.files[j];
    Left(c, f) != [] ==> f.owner < |s.workers| && j in s.workers[f.owner].available
  }

  ghost predicate WorkerInv(c: Config, files: seq<OpenedFile>, w: nat, k: Worker)
  {
    && (forall a :: a in k.available ==> a < |files| && files[a].owner == w)
    && k.free + Total(FlightOf(files, w)) == c.maxRequests
    && k.finished == Total(DoneOf(files, w))
    && (k.phase != Running ==> k.finished == Total(OwnedBy(Owners(files), w)))
  }

  // The counter counts the workers that have not decremented it, and the queue is closed only
  // by a worker that finds it zero.
  ghost predicate CloseInv(s: State)
  {
    && s.activeThreads == Total(Busy(s.workers))
    && (!s.open ==> s.activeThreads == 0)
    && (s.activeThreads == 0 && s.open ==> exists w :: 0 <= w < |s.workers| && s.workers[w].phase == Decremented)
  }

  ghost predicate Conserved(c: Config, s: State, total: multiset<Chunk>)
    requires c.readSize > 0
  {
    Sum(Helds(c, s.files)) + (multiset(s.queue) + multiset(s.delivered)) == total
  }

  ghost predicate FilesInv(c: Config, s: State)
  {
    && c.readSize > 0
    && (forall j {:trigger FileInv(c, s.files[j], |s.workers|)} :: 0 <= j < |s.files| ==>
        FileInv(c, s.files[j], |s.workers|))
    && (forall j {:trigger Listed(c, s, j)} :: 0 <= j < |s.files| ==> Listed(c, s, j))
  }

  ghost predicate WorkersInv(c: Config, s: State)
  {
    forall w {:trigger WorkerInv(c, s.files, w, s.workers[w])} :: 0 <= w < |s.workers| ==>
        WorkerInv(c, s.files, w, s.workers[w])
  }

  ghost predicate Inv(c: Config, s: State, total: multiset<Chunk>)
  {
    && c.readSize > 0 && c.maxRequests > 0 && |s.workers| > 0
    && (c.queueLimit > 0 ==> |s.queue| <= c.queueLimit)
    && FilesInv(c, s) && WorkersInv(c, s) && CloseInv(s) && Conserved(c, s, total)
  }

  // ---- reaping a completion ----------------------------------------------------------------

  predicate HasRoom(c: Config, s: State)
  {
    c.queueLimit == 0 || |s.queue| < c.queueLimit
  }

  // The read k of file j completes, and its chunk is pushed.
  function ReapFile(f: OpenedFile, k: nat): OpenedFile
    requires k < |f.flight|
  {
    f.(flight := f.flight[..k] + f.flight[k + 1..], completed := f.completed + 1)
  }

  function Reap(s: State, j: nat, k: nat): State
    requires j < |s.files| && k < |s.files[j].flight| && s.files[j].owner < |s.workers|
  {
    var f, g := s.files[j], ReapFile(s.files[j], k);
    var w := s.workers[f.owner];
    s.(files := s.files[j := g], queue := s.queue + [f.flight[k]],
       workers := s.workers[f.owner := w.(free := w.free + 1,
                                          finished := w.finished + if g.completed == g.active then 1 else 0)])
  }

  lemma RemoveOne<T>(s: seq<T>, k: nat)
    requires k < |s|
    ensures multiset(s) == multiset(s[..k] + s[k + 1..]) + multiset{s[k]}
  {
    assert s == s[..k] + [s[k]] + s[k + 1..];
  }

  lemma ReapConserves(c: Config, s: State, j: nat, k: nat, total: multiset<Chunk>)
    requires c.readSize > 0 && Conserved(c, s, total)
    requires j < |s.files| && k < |s.files[j].flight| && s.files[j].owner < |s.workers|
    ensures Conserved(c, Reap(s, j, k), total)
  {
    var t := Reap(s, j, k);
    var x := s.files[j].flight[k];
    RemoveOne(s.files[j].flight, k);
    assert Helds(c, t.files) == Helds(c, s.files)[j := Held(c, t.files[j])];
    assert Held(c, s.files[j]) == Held(c, t.files[j]) + multiset{x};
    SumUpdate(Helds(c, s.files), j, Held(c, t.files[j]));
    TakeOne(Sum(Helds(c, s.files)), Sum(Helds(c, t.files)), Held(c, s.files[j]), Held(c, t.files[j]), multiset{x});
    Transfer(Sum(Helds(c, s.files)), multiset(s.queue) + multiset(s.delivered), Sum(Helds(c, t.files)),
             multiset(t.queue) + multiset(t.delivered), multiset{x});
  }

  // The counters of a worker whose file j has changed.
  lemma OwnerCounts(files: seq<OpenedFile>, j: nat, g: OpenedFile, w: nat)
    requires j < |files| && g.owner == files[j].owner
    ensures w != g.owner ==> Total(FlightOf(files[j := g], w)) == Total(FlightOf(files, w))
    ensures w != g.owner ==> Total(DoneOf(files[j := g], w)) == Total(DoneOf(files, w))
    ensures w == g.owner ==>
              Total(FlightOf(files[j := g], w)) + |files[j].flight| == Total(FlightOf(files, w)) + |g.flight|
    ensures w == g.owner ==>
              Total(DoneOf(files[j := g], w)) + DoneOf(files, w)[j]
              == Total(DoneOf(files, w)) + DoneOf(files[j := g], w)[j]
    ensures Owners(files[j := g]) == Owners(files)
  {
    var files' := files[j := g];
    assert FlightOf(files', w) == FlightOf(files, w)[j := FlightOf(files', w)[j]];
    TotalUpdate(FlightOf(files, w), j, FlightOf(files', w)[j]);
    assert DoneOf(files', w) == DoneOf(files, w)[j := DoneOf(files', w)[j]];
    TotalUpdate(DoneOf(files, w), j, DoneOf(files', w)[j]);
  }

  // Workers other than the owner of a changed file are not affected.
  lemma OtherWorker(c: Config, files: seq<OpenedFile>, j: nat, g: OpenedFile, w: nat, k: Worker)
    requires WorkerInv(c, files, w, k) && j < |files| && g.owner == files[j].owner != w
    ensures WorkerInv(c, files[j := g], w, k)
  {
    OwnerCounts(files, j, g, w);
  }

  lemma ReapKeepsFiles(c: Config, s: State, j: nat, k: nat)
    requires FilesInv(c, s) && j < |s.files| && k < |s.files[j].flight| && s.files[j].owner < |s.workers|
    ensures FilesInv(c, Reap(s, j, k))
  {
    var t := Reap(s, j, k);
    forall i | 0 <= i < |t.files| ensures FileInv(c, t.files[i], |t.workers|) && Listed(c, t, i) {
      assert FileInv(c, s.files[i], |s.workers|) && Listed(c, s, i);
    }
  }

  lemma ReapKeepsWorkers(c: Config, s: State, j: nat, k: nat)
    requires WorkersInv(c, s) && j < |s.files| && k < |s.files[j].flight| && s.files[j].owner < |s.workers|
    requires FileInv(c, s.files[j], |s.workers|)
    ensures WorkersInv(c, Reap(s, j, k)) && s.workers[s.files[j].owner].phase == Running
  {
    var t := Reap(s, j, k);
    var o := s.files[j].owner;
    assert WorkerInv(c, s.files, o, s.workers[o]);
    OwnerCounts(s.files, j, t.files[j], o);
    if s.workers[o].phase != Running {
      AllDone(c, s.files, o, s.workers[o]);
      assert false;
    }
    forall w | 0 <= w < |t.workers| ensures WorkerInv(c, t.files, w, t.workers[w]) {
      assert WorkerInv(c, s.files, w, s.workers[w]);
      if w != o {
        OtherWorker(c, s.files, j, t.files[j], w, s.workers[w]);
      }
    }
  }

  // A worker that has left its loop has completed all its files.
  lemma AllDone(c: Config, files: seq<OpenedFile>, w: nat, k: Worker)
    requires WorkerInv(c, files, w, k) && k.finished == Total(OwnedBy(Owners(files), w))
    ensures forall j :: 0 <= j < |files| && files[j].owner == w ==> files[j].completed == files[j].active
  {
    TotalsEqual(DoneOf(files, w), OwnedBy(Owners(files), w));
    forall j | 0 <= j < |files| && files[j].owner == w ensures files[j].completed == files[j].active {
      assert DoneOf(files, w)[j] == 1;
    }
  }

  lemma ReapKeepsInv(c: Config, s: State, j: nat, k: nat, total: multiset<Chunk>)
    requires Inv(c, s, total) && HasRoom(c, s) && j < |s.files| && k < |s.files[j].flight|
    ensures s.files[j].owner < |s.workers| && Inv(c, Reap(s, j, k), total)
  {
    assert FileInv(c, s.files[j], |s.workers|);
    ReapConserves(c, s, j, k, total);
    ReapKeepsFiles(c, s, j, k);
    ReapKeepsWorkers(c, s, j, k);
    ReapKeepsClose(s, j, k);
  }

  lemma ReapKeepsClose(s: State, j: nat, k: nat)
    requires CloseInv(s) && j < |s.files| && k < |s.files[j].flight| && s.files[j].owner < |s.workers|
    ensures CloseInv(Reap(s, j, k))
  {
    SamePhases(s, Reap(s, j, k));
  }

  ghost predicate PhasesAgree(s: State, t: State)
  {
    |s.workers| == |t.workers| && forall w :: 0 <= w < |s.workers| ==> s.workers[w].phase == t.workers[w].phase
  }

  lemma SamePhases(s: State, t: State)
    requires CloseInv(s) && PhasesAgree(s, t) && s.open == t.open && s.activeThreads == t.activeThreads
    ensures CloseInv(t)
  {
    assert Busy(t.workers) == Busy(s.workers);
    if s.activeThreads == 0 && s.open {
      var w :| 0 <= w < |s.workers| && s.workers[w].phase == Decremented;
      assert t.workers[w].phase == Decremented;
    }
  }

  // ---- issuing a read ----------------------------------------------------------------------

  // The first available file has no active chunk left: it is dropped.
  function Drop(s: State, w: nat): State
    requires w < |s.workers| && s.workers[w].available != []
  {
    s.(workers := s.workers[w := s.workers[w].(available := s.workers[w].available[1..])])
  }

  // The first available file has an active chunk k at byte at: a read is issued, and the file
  // stays available unless it ends here.
  function IssueFile(c: Config, f: OpenedFile, at: nat, k: nat): OpenedFile
    requires at < f.info.size
  {
    var size := Min(c.readSize, f.info.size - at);
    f.(issued := at + size, idx := k + 1, flight := f.flight + [Chunk(f.info.index, at, size)])
  }

  function Issue(c: Config, s: State, w: nat, at: nat, k: nat): State
    requires w < |s.workers| && s.workers[w].available != [] && s.workers[w].free > 0
    requires s.workers[w].available[0] < |s.files| && at < s.files[s.workers[w].available[0]].info.size
  {
    var m := s.workers[w];
    var j := m.available[0];
    var g := IssueFile(c, s.files[j], at, k);
    s.(files := s.files[j := g],
       workers := s.workers[w := m.(available := m.available[1..] + (if g.issued < g.info.size then [j] else []),
                                    free := m.free - 1)])
  }

  lemma DropKeepsInv(c: Config, s: State, w: nat, total: multiset<Chunk>)
    requires Inv(c, s, total) && w < |s.workers| && s.workers[w].available != []
    requires s.workers[w].available[0] < |s.files| && Left(c, s.files[s.workers[w].available[0]]) == []
    ensures Inv(c, Drop(s, w), total)
  {
    var t := Drop(s, w);
    DropKeepsFiles(c, s, w);
    DropKeepsWorkers(c, s, w);
    DropKeepsClose(s, w);
    assert Helds(c, t.files) == Helds(c, s.files);
  }

  lemma DropKeepsFiles(c: Config, s: State, w: nat)
    requires FilesInv(c, s) && w < |s.workers| && s.workers[w].available != []
    requires s.workers[w].available[0] < |s.files| && Left(c, s.files[s.workers[w].available[0]]) == []
    ensures FilesInv(c, Drop(s, w))
  {
    var t := Drop(s, w);
    forall i | 0 <= i < |t.files| ensures FileInv(c, t.files[i], |t.workers|) && Listed(c, t, i) {
      assert FileInv(c, s.files[i], |s.workers|) && Listed(c, s, i);
      if Left(c, s.files[i]) != [] && s.files[i].owner == w {
        StaysAfterFirst(s.workers[w].available, i);
      }
    }
  }

  lemma DropKeepsWorkers(c: Config, s: State, w: nat)
    requires WorkersInv(c, s) && w < |s.workers| && s.workers[w].available != []
    ensures WorkersInv(c, Drop(s, w))
  {
    var t := Drop(s, w);
    forall v | 0 <= v < |t.workers| ensures WorkerInv(c, t.files, v, t.workers[v]) {
      assert WorkerInv(c, s.files, v, s.workers[v]);
    }
  }

  lemma DropKeepsClose(s: State, w: nat)
    requires CloseInv(s) && w < |s.workers| && s.workers[w].available != []
    ensures CloseInv(Drop(s, w))
  {
    SamePhases(s, Drop(s, w));
  }

  lemma StaysAfterFirst(available: seq<nat>, i: nat)
    requires i in available && available[0] != i
    ensures i in available[1..]
  {
    var k :| 0 <= k < |available| && available[k] == i;
    assert available[1..][k - 1] == i;
  }

  // What AdvanceToActive found out about the first available file.
  ghost predicate Found(c: Config, f: OpenedFile, at: nat, k: nat)
  {
    && c.readSize > 0 && at < f.info.size && k < NumChunks(f.info.size, c.readSize)
    && AtChunk(f.info, c.readSize, at, k)
    && Left(c, f)
        == [Chunk(f.info.index, at, Min(c.readSize, f.info.size - at))] + ActiveFrom(f.info, c.readSize, k + 1)
  }

  lemma IssueKeepsFile(c: Config, f: OpenedFile, at: nat, k: nat, numWorkers: nat)
    requires FileInv(c, f, numWorkers) && Found(c, f, at, k)
    ensures FileInv(c, IssueFile(c, f, at, k), numWorkers)
    ensures Held(c, IssueFile(c, f, at, k)) == Held(c, f)
    ensures Left(c, IssueFile(c, f, at, k)) != [] ==> IssueFile(c, f, at, k).issued < f.info.size
  {
    var g := IssueFile(c, f, at, k);
    var x := g.flight[|f.flight|];
    NextChunk(f.info, c.readSize, at, k);
    assert Left(c, f) == [x] + Left(c, g);
    Transfer(multiset(Left(c, f)), multiset(f.flight), multiset(Left(c, g)), multiset(g.flight), multiset{x});
    if k + 1 < NumChunks(f.info.size, c.readSize) {
      ChunkStarts(f.info.size, c.readSize, k + 1);
    }
  }

  lemma IssueKeepsFiles(c: Config, s: State, w: nat, at: nat, k: nat)
    requires FilesInv(c, s) && w < |s.workers| && s.workers[w].available != [] && s.workers[w].free > 0
    requires s.workers[w].available[0] < |s.files| && s.files[s.workers[w].available[0]].owner == w
    requires Found(c, s.files[s.workers[w].available[0]], at, k)
    ensures FilesInv(c, Issue(c, s, w, at, k))
  {
    var t, j := Issue(c, s, w, at, k), s.workers[w].available[0];
    assert FileInv(c, s.files[j], |s.workers|);
    IssueKeepsFile(c, s.files[j], at, k, |s.workers|);
    forall i | 0 <= i < |t.files| ensures FileInv(c, t.files[i], |t.workers|) && Listed(c, t, i) {
      assert FileInv(c, s.files[i], |s.workers|) && Listed(c, s, i);
      if i != j && Left(c, s.files[i]) != [] && s.files[i].owner == w {
        StaysAfterFirst(s.workers[w].available, i);
      }
    }
  }

  lemma IssueKeepsOwner(c: Config, files: seq<OpenedFile>, w: nat, m: Worker, j: nat, g: OpenedFile, m': Worker)
    requires WorkerInv(c, files, w, m) && j < |files| && files[j].owner == w && m.free > 0
    requires g == files[j].(issued := g.issued, idx := g.idx, flight := g.flight) && |g.flight| == |files[j].flight| + 1
    requires m' == m.(available := m'.available, free := m.free - 1)
    requires forall a :: a in m'.available ==> a in m.available || a == j
    ensures WorkerInv(c, files[j := g], w, m')
  {
    OwnerCounts(files, j, g, w);
  }

  lemma IssueKeepsWorkers(c: Config, s: State, w: nat, at: nat, k: nat)
    requires WorkersInv(c, s) && w < |s.workers| && s.workers[w].available != [] && s.workers[w].free > 0
    requires s.workers[w].available[0] < |s.files| && s.files[s.workers[w].available[0]].owner == w
    requires at < s.files[s.workers[w].available[0]].info.size
    ensures WorkersInv(c, Issue(c, s, w, at, k))
  {
    var t, j := Issue(c, s, w, at, k), s.workers[w].available[0];
    forall v | 0 <= v < |t.workers| ensures WorkerInv(c, t.files, v, t.workers[v]) {
      assert WorkerInv(c, s.files, v, s.workers[v]);
      if v == w {
        IssueKeepsOwner(c, s.files, w, s.workers[w], j, t.files[j], t.workers[w]);
      } else {
        OtherWorker(c, s.files, j, t.files[j], v, s.workers[v]);
      }
    }
  }

  lemma IssueKeepsInv(c: Config, s: State, w: nat, at: nat, k: nat, total: multiset<Chunk>)
    requires Inv(c, s, total) && w < |s.workers| && s.workers[w].available != [] && s.workers[w].free > 0
    requires s.workers[w].available[0] < |s.files| && s.files[s.workers[w].available[0]].owner == w
    requires Found(c, s.files[s.workers[w].available[0]], at, k)
    ensures Inv(c, Issue(c, s, w, at, k), total)
  {
    var t, j := Issue(c, s, w, at, k), s.workers[w].available[0];
    IssueKeepsFiles(c, s, w, at, k);
    IssueKeepsWorkers(c, s, w, at, k);
    assert FileInv(c, s.files[j], |s.workers|);
    IssueKeepsFile(c, s.files[j], at, k, |s.workers|);
    assert Helds(c, t.files) == Helds(c, s.files);
    IssueKeepsClose(c, s, w, at, k);
  }

  lemma IssueKeepsClose(c: Config, s: State, w: nat, at: nat, k: nat)
    requires CloseInv(s) && w < |s.workers| && s.workers[w].available != [] && s.workers[w].free > 0
    requires s.workers[w].available[0] < |s.files| && at < s.files[s.workers[w].available[0]].info.size
    ensures CloseInv(Issue(c, s, w, at, k))
  {
    SamePhases(s, Issue(c, s, w, at, k));
  }

  // ---- leaving, and the queue's consumer ---------------------------------------------------

  function Leave(s: State, w: nat): State
    requires w < |s.workers|
  {
    s.(workers := s.workers[w := s.workers[w].(phase := Leaving)])
  }

  // active_threads--
  function Decrement(s: State, w: nat): State
    requires w < |s.workers| && s.activeThreads > 0
  {
    s.(workers := s.workers[w := s.workers[w].(phase := Decremented)], activeThreads := s.activeThreads - 1)
  }

  // The worker that reads zero afterwards closes the queue.
  function Check(s: State, w: nat): State
    requires w < |s.workers|
  {
    s.(workers := s.workers[w := s.workers[w].(phase := Exited)], open := s.open && s.activeThreads != 0)
  }

  // A change of one worker's phase, once its files are completed, affects only the closing.
  lemma PhaseKeepsInv(c: Config, s: State, w: nat, t: State, total: multiset<Chunk>)
    requires Inv(c, s, total) && w < |s.workers|
    requires |t.workers| == |s.workers|
    requires t == s.(workers := s.workers[w := s.workers[w].(phase := t.workers[w].phase)], open := t.open,
                     activeThreads := t.activeThreads)
    requires s.workers[w].finished == Total(OwnedBy(Owners(s.files), w)) && CloseInv(t)
    ensures Inv(c, t, total)
  {
    forall i | 0 <= i < |t.files| ensures FileInv(c, t.files[i], |t.workers|) && Listed(c, t, i) {
      assert FileInv(c, s.files[i], |s.workers|) && Listed(c, s, i);
    }
    forall v | 0 <= v < |t.workers| ensures WorkerInv(c, t.files, v, t.workers[v]) {
      assert WorkerInv(c, s.files, v, s.workers[v]);
    }
  }

  lemma LeaveKeepsClose(s: State, w: nat)
    requires CloseInv(s) && w < |s.workers| && s.workers[w].phase == Running
    ensures CloseInv(Leave(s, w))
  {
    var t := Leave(s, w);
    assert Busy(t.workers) == Busy(s.workers);
    if s.activeThreads == 0 && s.open {
      var v :| 0 <= v < |s.workers| && s.workers[v].phase == Decremented;
      assert t.workers[v].phase == Decremented;
    }
  }

  lemma DecrementKeepsClose(s: State, w: nat)
    requires CloseInv(s) && w < |s.workers| && s.workers[w].phase == Leaving
    ensures s.activeThreads > 0 && CloseInv(Decrement(s, w))
  {
    TotalZero(Busy(s.workers));
    assert Busy(s.workers)[w] == 1;
    var t := Decrement(s, w);
    assert Busy(t.workers) == Busy(s.workers)[w := 0];
    TotalUpdate(Busy(s.workers), w, 0);
    assert t.workers[w].phase == Decremented;
  }

  lemma CheckKeepsClose(s: State, w: nat)
    requires CloseInv(s) && w < |s.workers| && s.workers[w].phase == Decremented
    ensures CloseInv(Check(s, w))
  {
    var t := Check(s, w);
    assert Busy(t.workers) == Busy(s.workers);
  }

  // A consumer takes the head of the queue.
  function Poll(s: State): State
    requires s.queue != []
  {
    s.(queue := s.queue[1..], delivered := s.delivered + [s.queue[0]])
  }

  lemma PollKeepsInv(c: Config, s: State, total: multiset<Chunk>)
    requires Inv(c, s, total) && s.queue != []
    ensures Inv(c, Poll(s), total)
  {
    var t := Poll(s);
    assert s.queue == [s.queue[0]] + t.queue;
    Transfer(multiset(s.queue), multiset(s.delivered), multiset(t.queue), multiset(t.delivered), multiset{s.queue[0]});
    SamePhases(s, t);
    forall i | 0 <= i < |t.files| ensures FileInv(c, t.files[i], |t.workers|) && Listed(c, t, i) {
      assert FileInv(c, s.files[i], |s.workers|) && Listed(c, s, i);
    }
    forall v | 0 <= v < |t.workers| ensures WorkerInv(c, t.files, v, t.workers[v]) {
      assert WorkerInv(c, s.files, v, s.workers[v]);
    }
  }

  // ---- safe closing ------------------------------------------------------------------------

  // A consumer that finds the queue empty and closed has missed nothing: every active chunk of
  // every file has been delivered exactly once.
  lemma ClosedMeansDelivered(c: Config, s: State, total: multiset<Chunk>)
    requires Inv(c, s, total) && s.queue == [] && !s.open
    ensures multiset(s.delivered) == total
  {
    forall j | 0 <= j < |s.files| ensures Helds(c, s.files)[j] == multiset{} {
      NothingHeld(c, s, j, total);
    }
    SumOfEmpty(Helds(c, s.files));
  }

  lemma NothingHeld(c: Config, s: State, j: nat, total: multiset<Chunk>)
    requires Inv(c, s, total) && !s.open && j < |s.files|
    ensures Held(c, s.files[j]) == multiset{}
  {
    var o := s.files[j].owner;
    assert FileInv(c, s.files[j], |s.workers|);
    assert WorkerInv(c, s.files, o, s.workers[o]);
    TotalZero(Busy(s.workers));
    assert Busy(s.workers)[o] == 0;
    AllDone(c, s.files, o, s.workers[o]);
    assert s.files[j].flight == [] && Left(c, s.files[j]) == [];
  }

  // A worker without a free request waits for a read.
  lemma SomeInFlight(c: Config, files: seq<OpenedFile>, w: nat, k: Worker) returns (j: nat)
    requires WorkerInv(c, files, w, k) && k.free == 0 && c.maxRequests > 0
    ensures j < |files| && files[j].owner == w && files[j].flight != []
  {
    TotalZero(FlightOf(files, w));
    j :| 0 <= j < |files| && FlightOf(files, w)[j] != 0;
  }

  // A worker with files left to complete, but none to issue, waits for a read.
  lemma SomeIncomplete(c: Config, s: State, w: nat) returns (j: nat)
    requires FilesInv(c, s) && w < |s.workers| && WorkerInv(c, s.files, w, s.workers[w]) && s.workers[w].available == []
    requires s.workers[w].finished != Total(OwnedBy(Owners(s.files), w))
    ensures j < |s.files| && s.files[j].owner == w && s.files[j].flight != []
  {
    var done, owned := DoneOf(s.files, w), OwnedBy(Owners(s.files), w);
    assert done != owned;
    assert exists i :: 0 <= i < |s.files| && done[i] != owned[i];
    j :| 0 <= j < |s.files| && done[j] != owned[j];
    assert FileInv(c, s.files[j], |s.workers|) && Listed(c, s, j);
  }

  // A running worker is never stuck: it can leave, issue a read, or wait for one.
  lemma NotStuck(c: Config, s: State, w: nat, total: multiset<Chunk>)
    requires Inv(c, s, total) && w < |s.workers|
    requires s.workers[w].finished != Total(OwnedBy(Owners(s.files), w))
    ensures (s.workers[w].free > 0 && s.workers[w].available != [])
         || exists j :: 0 <= j < |s.files| && s.files[j].owner == w && s.files[j].flight != []
  {
    assert WorkerInv(c, s.files, w, s.workers[w]);
    if s.workers[w].free == 0 {
      var j := SomeInFlight(c, s.files, w, s.workers[w]);
    } else if s.workers[w].available == [] {
      var j := SomeIncomplete(c, s, w);
    }
  }

  // ---- progress ----------------------------------------------------------------------------

  ghost function LeftLens(c: Config, files: seq<OpenedFile>): (r: seq<nat>)
    requires c.readSize > 0
    ensures |r| == |files| && forall j :: 0 <= j < |r| ==> r[j] == |Left(c, files[j])|
  {
    seq(|files|, j requires 0 <= j < |files| => |Left(c, files[j])|)
  }

  ghost function FlightLens(files: seq<OpenedFile>): (r: seq<nat>)
    ensures |r| == |files| && forall j :: 0 <= j < |r| ==> r[j] == |files[j].flight|
  {
    seq(|files|, j requires 0 <= j < |files| => |files[j].flight|)
  }

  ghost function AvailableLens(workers: seq<Worker>): (r: seq<nat>)
    ensures |r| == |workers| && forall w :: 0 <= w < |r| ==> r[w] == |workers[w].available|
  {
    seq(|workers|, w requires 0 <= w < |workers| => |workers[w].available|)
  }

  function Rank(p: Phase): nat
  {
    match p case Running => 3 case Leaving => 2 case Decremented => 1 case Exited => 0
  }

  ghost function Ranks(workers: seq<Worker>): (r: seq<nat>)
    ensures |r| == |workers| && forall w :: 0 <= w < |r| ==> r[w] == Rank(workers[w].phase)
  {
    seq(|workers|, w requires 0 <= w < |workers| => Rank(workers[w].phase))
  }

  // What remains to be done, in decreasing order of weight.
  datatype Remaining = Remaining(left: nat, available: nat, flight: nat, ranks: nat, queued: nat)

  ghost function Work(c: Config, s: State): Remaining
    requires c.readSize > 0
  {
    Remaining(Total(LeftLens(c, s.files)), Total(AvailableLens(s.workers)), Total(FlightLens(s.files)),
              Total(Ranks(s.workers)), |s.queue|)
  }

  ghost predicate Less(a: Remaining, b: Remaining)
  {
    || a.left < b.left
    || (a.left == b.left && a.available < b.available)
    || (a.left == b.left && a.available == b.available && a.flight < b.flight)
    || (a.left == b.left && a.available == b.available && a.flight == b.flight && a.ranks < b.ranks)
    || (a.left == b.left && a.available == b.available && a.flight == b.flight && a.ranks == b.ranks
        && a.queued < b.queued)
  }

  lemma ReapProgress(c: Config, s: State, j: nat, k: nat)
    requires c.readSize > 0 && j < |s.files| && k < |s.files[j].flight| && s.files[j].owner < |s.workers|
    ensures Less(Work(c, Reap(s, j, k)), Work(c, s))
  {
    var t := Reap(s, j, k);
    assert LeftLens(c, t.files) == LeftLens(c, s.files);
    assert AvailableLens(t.workers) == AvailableLens(s.workers);
    assert FlightLens(t.files) == FlightLens(s.files)[j := |t.files[j].flight|];
    TotalUpdate(FlightLens(s.files), j, |t.files[j].flight|);
  }

  lemma DropProgress(c: Config, s: State, w: nat)
    requires c.readSize > 0 && w < |s.workers| && s.workers[w].available != []
    ensures Less(Work(c, Drop(s, w)), Work(c, s))
  {
    var t := Drop(s, w);
    assert AvailableLens(t.workers) == AvailableLens(s.workers)[w := |t.workers[w].available|];
    TotalUpdate(AvailableLens(s.workers), w, |t.workers[w].available|);
  }

  lemma IssueProgress(c: Config, s: State, w: nat, at: nat, k: nat)
    requires w < |s.workers| && s.workers[w].available != [] && s.workers[w].free > 0
    requires s.workers[w].available[0] < |s.files| && Found(c, s.files[s.workers[w].available[0]], at, k)
    ensures Less(Work(c, Issue(c, s, w, at, k)), Work(c, s))
  {
    var t, j := Issue(c, s, w, at, k), s.workers[w].available[0];
    assert LeftLens(c, t.files) == LeftLens(c, s.files)[j := |Left(c, t.files[j])|];
    TotalUpdate(LeftLens(c, s.files), j, |Left(c, t.files[j])|);
  }

  lemma PhaseProgress(c: Config, s: State, w: nat, t: State)
    requires c.readSize > 0 && w < |s.workers| == |t.workers|
    requires t == s.(workers := s.workers[w := s.workers[w].(phase := t.workers[w].phase)], open := t.open,
                     activeThreads := t.activeThreads)
    requires Rank(t.workers[w].phase) < Rank(s.workers[w].phase)
    ensures Less(Work(c, t), Work(c, s))
  {
    assert AvailableLens(t.workers) == AvailableLens(s.workers);
    assert Ranks(t.workers) == Ranks(s.workers)[w := Rank(t.workers[w].phase)];
    TotalUpdate(Ranks(s.workers), w, Rank(t.workers[w].phase));
  }

  // ---- whole steps -------------------------------------------------------------------------

  lemma BusyMeansOpen(s: State, w: nat)
    requires CloseInv(s) && w < |s.workers| && (s.workers[w].phase == Running || s.workers[w].phase == Leaving)
    ensures s.open && s.activeThreads > 0
  {
    TotalZero(Busy(s.workers));
    assert Busy(s.workers)[w] == 1;
  }

  lemma ReapStep(c: Config, s: State, j: nat, k: nat, total: multiset<Chunk>)
    requires Inv(c, s, total) && HasRoom(c, s) && j < |s.files| && k < |s.files[j].flight|
    ensures s.files[j].owner < |s.workers| && s.open
    ensures Inv(c, Reap(s, j, k), total) && Less(Work(c, Reap(s, j, k)), Work(c, s))
  {
    ReapKeepsInv(c, s, j, k, total);
    assert FileInv(c, s.files[j], |s.workers|);
    ReapKeepsWorkers(c, s, j, k);
    BusyMeansOpen(s, s.files[j].owner);
    ReapProgress(c, s, j, k);
  }

  // The first available file of a worker is one of its own.
  lemma FirstAvailable(c: Config, s: State, w: nat, total: multiset<Chunk>)
    requires Inv(c, s, total) && w < |s.workers| && s.workers[w].available != []
    ensures s.workers[w].available[0] < |s.files| && s.files[s.workers[w].available[0]].owner == w
    ensures FileInv(c, s.files[s.workers[w].available[0]], |s.workers|)
  {
    assert WorkerInv(c, s.files, w, s.workers[w]);
    var j := s.workers[w].available[0];
    assert j in s.workers[w].available;
    assert FileInv(c, s.files[j], |s.workers|);
  }

  // Worker w takes its first available file: it drops the file if no active chunk is left, and
  // otherwise issues the first of them.
  ghost predicate Submits(c: Config, s: State, t: State, w: nat)
    requires w < |s.workers| && s.workers[w].available != [] && s.workers[w].free > 0
  {
    && c.readSize > 0 && s.workers[w].available[0] < |s.files|
    && var f := s.files[s.workers[w].available[0]];
       if Left(c, f) == [] then t == Drop(s, w)
       else var at := Left(c, f)[0].offset; at < f.info.size && t == Issue(c, s, w, at, at / c.readSize)
  }

  lemma DropStep(c: Config, s: State, w: nat, total: multiset<Chunk>)
    requires Inv(c, s, total) && w < |s.workers| && s.workers[w].available != [] && s.workers[w].free > 0
    requires s.workers[w].available[0] < |s.files| && Left(c, s.files[s.workers[w].available[0]]) == []
    ensures Inv(c, Drop(s, w), total) && Less(Work(c, Drop(s, w)), Work(c, s)) && Submits(c, s, Drop(s, w), w)
  {
    DropKeepsInv(c, s, w, total);
    DropProgress(c, s, w);
  }

  lemma IssueStep(c: Config, s: State, w: nat, at: nat, k: nat, total: multiset<Chunk>)
    requires Inv(c, s, total) && w < |s.workers| && s.workers[w].available != [] && s.workers[w].free > 0
    requires s.workers[w].available[0] < |s.files| && s.files[s.workers[w].available[0]].owner == w
    requires Found(c, s.files[s.workers[w].available[0]], at, k) && k == at / c.readSize
    ensures var t := Issue(c, s, w, at, k); Inv(c, t, total) && Less(Work(c, t), Work(c, s)) && Submits(c, s, t, w)
  {
    IssueKeepsInv(c, s, w, at, k, total);
    IssueProgress(c, s, w, at, k);
  }

  // The next of the steps by which a worker leaves.
  function LeaveOn(s: State, w: nat): State
    requires w < |s.workers| && (s.workers[w].phase == Leaving ==> s.activeThreads > 0)
  {
    match s.workers[w].phase
    case Running => Leave(s, w)
    case Leaving => Decrement(s, w)
    case _ => Check(s, w)
  }

  lemma LeaveStep(c: Config, s: State, w: nat, total: multiset<Chunk>)
    requires Inv(c, s, total) && w < |s.workers| && s.workers[w].phase != Exited
    requires s.workers[w].phase == Running ==> s.workers[w].finished == Total(OwnedBy(Owners(s.files), w))
    ensures s.workers[w].phase == Leaving ==> s.activeThreads > 0
    ensures Inv(c, LeaveOn(s, w), total) && Less(Work(c, LeaveOn(s, w)), Work(c, s))
  {
    assert WorkerInv(c, s.files, w, s.workers[w]);
    match s.workers[w].phase {
      case Running => LeaveKeepsClose(s, w);
      case Leaving => DecrementKeepsClose(s, w);
      case Decremented => CheckKeepsClose(s, w);
    }
    var t := LeaveOn(s, w);
    PhaseKeepsInv(c, s, w, t, total);
    PhaseProgress(c, s, w, t);
  }

  lemma PollStep(c: Config, s: State, total: multiset<Chunk>)
    requires Inv(c, s, total) && s.queue != []
    ensures Inv(c, Poll(s), total) && Less(Work(c, Poll(s)), Work(c, s))
  {
    PollKeepsInv(c, s, total);
  }

  // When no worker can step, no read can complete into an empty queue and the queue is not
  // closed, nothing is left to run: so the queue is closed after all.
  lemma StuckMeansClosed(c: Config, s: State, total: multiset<Chunk>)
    requires Inv(c, s, total) && forall j :: 0 <= j < |s.files| ==> s.files[j].flight == []
    requires forall w {:trigger CanStep(s.files, s.workers, w)} :: 0 <= w < |s.workers| ==>
               !CanStep(s.files, s.workers, w)
    ensures !s.open
  {
    forall w | 0 <= w < |s.workers| ensures Busy(s.workers)[w] == 0 && s.workers[w].phase == Exited {
      WorkerExited(c, s, w, total);
    }
    TotalZero(Busy(s.workers));
  }

  lemma WorkerExited(c: Config, s: State, w: nat, total: multiset<Chunk>)
    requires Inv(c, s, total) && forall j :: 0 <= j < |s.files| ==> s.files[j].flight == []
    requires w < |s.workers| && !CanStep(s.files, s.workers, w)
    ensures s.workers[w].phase == Exited
  {
    if s.workers[w].phase == Running {
      NotStuck(c, s, w, total);
    }
  }

  // A worker can leave, go on leaving, or look at its first available file.
  predicate CanStep(files: seq<OpenedFile>, workers: seq<Worker>, w: nat)
    requires w < |workers|
  {
    match workers[w].phase
    case Running => Completed(files, workers, w) || (workers[w].free > 0 && workers[w].available != [])
    case Exited => false
    case _ => true
  }

  // The count of completed files has reached the number of files dealt to the worker.
  predicate Completed(files: seq<OpenedFile>, workers: seq<Worker>, w: nat)
    requires w < |workers|
  {
    workers[w].finished == Total(OwnedBy(Owners(files), w))
  }

  // ---- the beginning -----------------------------------------------------------------------

  ghost predicate Fresh(c: Config, f: OpenedFile)
  {
    c.readSize > 0 && f.issued == 0 && f.idx == 0 && f.completed == 0 && f.flight == [] && f.active == |Left(c, f)|
  }

  // The active chunks of all files.
  ghost function AllActive(readSize: nat, infos: seq<FileInfo>): multiset<Chunk>
    requires readSize > 0
  {
    if infos == [] then multiset{}
    else AllActive(readSize, infos[..|infos| - 1]) + multiset(ActiveFrom(infos[|infos| - 1], readSize, 0))
  }

  // In how many of the files chunk c is one whose flag is set.
  ghost function TimesFlagged(readSize: nat, infos: seq<FileInfo>, c: Chunk): nat
  {
    if infos == [] then 0
    else TimesFlagged(readSize, infos[..|infos| - 1], c) + if IsFlagged(infos[|infos| - 1], readSize, c) then 1 else 0
  }

  lemma {:induction false} ActiveIffFlagged(readSize: nat, infos: seq<FileInfo>, c: Chunk)
    requires readSize > 0
    ensures AllActive(readSize, infos)[c] == TimesFlagged(readSize, infos, c)
  {
    if infos != [] {
      ActiveIffFlagged(readSize, infos[..|infos| - 1], c);
      ListedIffFlagged(infos[|infos| - 1], readSize, c);
    }
  }

  // If no two files have the same index, a chunk of one of them is read once if its flag is set,
  // and otherwise not at all.
  lemma {:induction false} FlaggedOnce(readSize: nat, infos: seq<FileInfo>, j: nat, idx: nat)
    requires readSize > 0 && j < |infos| && idx * readSize < infos[j].size
    requires forall a, b :: 0 <= a < b < |infos| ==> infos[a].index != infos[b].index
    ensures TimesFlagged(readSize, infos, ChunkAt(infos[j], readSize, idx)) == if Flagged(infos[j], idx) then 1 else 0
  {
    var n := |infos| - 1;
    var c := ChunkAt(infos[j], readSize, idx);
    if j == n {
      NoneFlagged(readSize, infos[..n], c);
      ListedIffFlagged(infos[n], readSize, c);
      ActiveChunks(infos[n], readSize, 0, idx);
    } else {
      FlaggedOnce(readSize, infos[..n], j, idx);
    }
  }

  lemma {:induction false} NoneFlagged(readSize: nat, infos: seq<FileInfo>, c: Chunk)
    requires forall a :: 0 <= a < |infos| ==> infos[a].index != c.fileIndex
    ensures TimesFlagged(readSize, infos, c) == 0
  {
    if infos != [] {
      NoneFlagged(readSize, infos[..|infos| - 1], c);
    }
  }

  lemma {:induction false} FreshHolds(c: Config, files: seq<OpenedFile>, infos: seq<FileInfo>)
    requires c.readSize > 0 && |files| == |infos|
    requires forall j :: 0 <= j < |files| ==> Fresh(c, files[j]) && files[j].info == infos[j]
    ensures Sum(Helds(c, files)) == AllActive(c.readSize, infos)
  {
    if files != [] {
      var n := |files| - 1;
      FreshHolds(c, files[..n], infos[..n]);
      assert Helds(c, files)[..n] == Helds(c, files[..n]);
      assert Fresh(c, files[n]);
    }
  }

  lemma {:induction false} TotalOnes(a: seq<nat>)
    requires forall j :: 0 <= j < |a| ==> a[j] == 1
    ensures Total(a) == |a|
  {
    if a != [] {
      TotalOnes(a[..|a| - 1]);
    }
  }

  ghost predicate Started(c: Config, files: seq<OpenedFile>, w: nat, k: Worker)
  {
    && k.phase == Running && k.free == c.maxRequests && k.finished == Total(DoneOf(files, w))
    && (forall a :: a in k.available ==> a < |files| && files[a].owner == w)
    && (forall a :: 0 <= a < |files| && files[a].owner == w && files[a].active != 0 ==> a in k.available)
  }

  ghost predicate AllFresh(c: Config, files: seq<OpenedFile>, infos: seq<FileInfo>, numWorkers: nat)
  {
    && |files| == |infos|
    && forall j {:trigger files[j]} :: 0 <= j < |files| ==>
        Fresh(c, files[j]) && files[j].info == infos[j] && files[j].owner < numWorkers
  }

  // Every worker has been set up.
  ghost predicate AllStarted(c: Config, files: seq<OpenedFile>, workers: seq<Worker>)
  {
    forall w {:trigger Started(c, files, w, workers[w])} :: 0 <= w < |workers| ==> Started(c, files, w, workers[w])
  }

  lemma StartFiles(c: Config, s: State, infos: seq<FileInfo>)
    requires c.readSize > 0 && AllFresh(c, s.files, infos, |s.workers|) && AllStarted(c, s.files, s.workers)
    ensures FilesInv(c, s)
  {
    forall j | 0 <= j < |s.files| ensures FileInv(c, s.files[j], |s.workers|) && Listed(c, s, j) {
      var o := s.files[j].owner;
      assert Started(c, s.files, o, s.workers[o]);
    }
  }

  lemma StartWorkers(c: Config, s: State, infos: seq<FileInfo>)
    requires c.readSize > 0 && AllFresh(c, s.files, infos, |s.workers|) && AllStarted(c, s.files, s.workers)
    ensures WorkersInv(c, s)
  {
    forall w | 0 <= w < |s.workers| ensures WorkerInv(c, s.files, w, s.workers[w]) {
      assert Started(c, s.files, w, s.workers[w]);
      NoFlight(c, s.files, infos, |s.workers|, w);
    }
  }

  lemma StartClose(c: Config, s: State)
    requires |s.workers| > 0 && s.open && s.activeThreads == |s.workers| && AllStarted(c, s.files, s.workers)
    ensures CloseInv(s)
  {
    forall w | 0 <= w < |s.workers| ensures Busy(s.workers)[w] == 1 {
      assert Started(c, s.files, w, s.workers[w]);
    }
    TotalOnes(Busy(s.workers));
  }

  // The files just opened and the workers just started.
  lemma StartInv(c: Config, s: State, infos: seq<FileInfo>)
    requires c.readSize > 0 && c.maxRequests > 0 && |s.workers| > 0
    requires s.queue == [] && s.delivered == [] && s.open && s.activeThreads == |s.workers|
    requires AllFresh(c, s.files, infos, |s.workers|) && AllStarted(c, s.files, s.workers)
    ensures Inv(c, s, AllActive(c.readSize, infos))
  {
    StartFiles(c, s, infos);
    StartWorkers(c, s, infos);
    StartClose(c, s);
    StartConserved(c, s, infos);
  }

  lemma StartConserved(c: Config, s: State, infos: seq<FileInfo>)
    requires c.readSize > 0 && s.queue == [] && s.delivered == [] && AllFresh(c, s.files, infos, |s.workers|)
    ensures Conserved(c, s, AllActive(c.readSize, infos))
  {
    FreshHolds(c, s.files, infos);
    assert multiset(s.queue) + multiset(s.delivered) == multiset{};
  }

  lemma NoFlight(c: Config, files: seq<OpenedFile>, infos: seq<FileInfo>, numWorkers: nat, w: nat)
    requires AllFresh(c, files, infos, numWorkers)
    ensures Total(FlightOf(files, w)) == 0
  {
    forall j | 0 <= j < |files| ensures FlightOf(files, w)[j] == 0 {
      assert Fresh(c, files[j]);
    }
    TotalZero(FlightOf(files, w));
  }
}
