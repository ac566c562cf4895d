// Runs of the gather phase: what happens to each bucket, and how often
// (scatter_gather_algorithms/scatter_gather.h, WorkerOnlyPhase2).
module PipelineRuns {
  import opened Disk
  import opened PipelineState

  // What can happen to a bucket.
  datatype Event = ReadSubmitted | ReadReaped | BufferProcessed | WriteSubmitted | WriteReaped

  // The next block of worker w makes event e happen to bucket i.
  predicate Happens(s: State, w: nat, i: nat, e: Event)
    requires w < |s.workers|
  {
    var k := s.workers[w];
    match e
    case ReadSubmitted => k.pc == 1 && k.needSubmitRead && s.currentFile == i
    case ReadReaped => k.pc == 0 && k.needReapRead && k.next.index == i
    case BufferProcessed => k.pc == 2 && k.needProcess && k.current.index == i
    case WriteSubmitted => k.pc == 4 && k.needSubmitWrite && k.current.index == i
    case WriteReaped => k.pc == 3 && k.needReapWrite && k.previous.index == i
  }

  // The event that the next block of a worker can bring about.
  function EventAt(pc: nat): Event
  {
    match pc
    case 0 => ReadReaped
    case 1 => ReadSubmitted
    case 2 => BufferProcessed
    case 3 => WriteReaped
    case _ => WriteSubmitted
  }

  // How many events come before e.
  function Before(e: Event): nat
  {
    match e
    case ReadSubmitted => 0
    case ReadReaped => 1
    case BufferProcessed => 2
    case WriteSubmitted => 3
    case WriteReaped => 4
  }

  // How many of the events have happened to a bucket.
  function Stage(s: State, i: nat): nat
    requires i < |s.place|
  {
    match s.place[i]
    case Unclaimed => 0
    case InNext(_) => 1
    case InCurrent(w) =>
      if w >= |s.workers| || s.workers[w].pc == 0 then 4 else if s.workers[w].pc <= 2 then 2 else 3
    case InPrevious(_) => 4
    case Written => 5
  }

  // What is needed of the worker and of the bucket.
  ghost predicate Local(j: Job, s: State, w: nat, i: nat)
  {
    && w < |s.workers| && i < |s.place| == |s.results| == |s.outputs| == |j.contents| == |j.infos|
    && WorkerInv(j, s, w) && BucketInv(j, s, i)
  }

  // The bucket's stage after its worker's block.
  ghost predicate MovedOn(s: State, t: State, w: nat, i: nat)
    requires w < |s.workers| && i < |s.place| == |t.place|
  {
    Stage(t, i) == Stage(s, i) + if Happens(s, w, i, EventAt(s.workers[w].pc)) then 1 else 0
  }

  lemma RotateMoves(j: Job, s: State, w: nat, i: nat)
    requires Local(j, s, w, i) && s.workers[w].pc == 0
    ensures MovedOn(s, Rotate(j, s, w), w, i)
  {
  }

  lemma FetchMoves(j: Job, s: State, w: nat, p: nat, garbage: seq<Byte>, i: nat)
    requires Local(j, s, w, i) && s.workers[w].pc == 1
    ensures MovedOn(s, Fetch(j, s, w, p, garbage), w, i)
  {
  }

  lemma ProcessMoves(j: Job, s: State, w: nat, i: nat)
    requires Local(j, s, w, i) && s.workers[w].pc == 2
    ensures MovedOn(s, Process(j, s, w), w, i)
  {
  }

  lemma ReapWriteMoves(j: Job, s: State, w: nat, i: nat)
    requires Local(j, s, w, i) && s.workers[w].pc == 3
    ensures MovedOn(s, ReapWrite(j, s, w), w, i)
  {
  }

  lemma SubmitWriteMoves(j: Job, s: State, w: nat, i: nat)
    requires Local(j, s, w, i) && s.workers[w].pc == 4
    ensures MovedOn(s, SubmitWrite(j, s, w), w, i)
  {
  }

  // An event happens to a bucket only after all earlier ones, and nothing else moves it on.
  lemma EventsInOrder(j: Job, s: State, c: Choice, i: nat)
    requires CanExecute(j, s, c) && i < |s.place|
    ensures |Block(j, s, c).place| == |s.place| && MovedOn(s, Block(j, s, c), c.worker, i)
    ensures forall e :: Happens(s, c.worker, i, e) ==> e == EventAt(s.workers[c.worker].pc) && Stage(s, i) == Before(e)
  {
    assert Local(j, s, c.worker, i);
    match s.workers[c.worker].pc
    case 0 => RotateMoves(j, s, c.worker, i);
    case 1 => FetchMoves(j, s, c.worker, c.p, c.garbage, i);
    case 2 => ProcessMoves(j, s, c.worker, i);
    case 3 => ReapWriteMoves(j, s, c.worker, i);
    case _ => SubmitWriteMoves(j, s, c.worker, i);
  }

  // run[n + 1] is what the block chosen by choices[n] makes of run[n].
  ghost predicate IsRun(j: Job, run: seq<State>, choices: seq<Choice>)
  {
    && |run| == |choices| + 1
    && forall n {:trigger Executes(j, run, choices, n)} :: 0 <= n < |choices| ==> Executes(j, run, choices, n)
  }

  ghost predicate Executes(j: Job, run: seq<State>, choices: seq<Choice>, n: nat)
    requires n < |choices| < |run|
  {
    CanExecute(j, run[n], choices[n]) && run[n + 1] == Block(j, run[n], choices[n])
  }

  // How often an event happens to bucket i.
  ghost function Times(run: seq<State>, choices: seq<Choice>, i: nat, e: Event): nat
    requires |run| == |choices| + 1
  {
    if choices == [] then 0
    else
      var n := |choices| - 1;
      Times(run[..n + 1], choices[..n], i, e)
      + if choices[n].worker < |run[n].workers| && Happens(run[n], choices[n].worker, i, e) then 1 else 0
  }

  lemma RunPrefix(j: Job, run: seq<State>, choices: seq<Choice>)
    requires IsRun(j, run, choices) && choices != []
    ensures var n := |choices| - 1; IsRun(j, run[..n + 1], choices[..n]) && Executes(j, run, choices, n)
  {
    var n := |choices| - 1;
    var run', choices' := run[..n + 1], choices[..n];
    forall m | 0 <= m < n ensures Executes(j, run', choices', m) {
      assert Executes(j, run, choices, m);
    }
    assert Executes(j, run, choices, n);
  }

  lemma RunSnoc(j: Job, run: seq<State>, choices: seq<Choice>, c: Choice)
    requires IsRun(j, run, choices) && CanExecute(j, run[|choices|], c)
    ensures IsRun(j, run + [Block(j, run[|choices|], c)], choices + [c])
  {
    var run', choices' := run + [Block(j, run[|choices|], c)], choices + [c];
    forall m | 0 <= m < |choices'| ensures Executes(j, run', choices', m) {
      if m < |choices| {
        assert Executes(j, run, choices, m);
      }
    }
  }

  // Over a run an event happens to a bucket once if it lies between the first and the last
  // stage of the bucket, and otherwise never.
  lemma {:induction false} TimesByStage(j: Job, run: seq<State>, choices: seq<Choice>, i: nat, e: Event)
    requires IsRun(j, run, choices) && i < |run[0].place|
    ensures i < |run[|choices|].place| && Stage(run[0], i) <= Stage(run[|choices|], i)
    ensures Times(run, choices, i, e) == if Stage(run[0], i) <= Before(e) < Stage(run[|choices|], i) then 1 else 0
  {
    if choices != [] {
      var n := |choices| - 1;
      RunPrefix(j, run, choices);
      TimesByStage(j, run[..n + 1], choices[..n], i, e);
      EventsInOrder(j, run[n], choices[n], i);
    }
  }

  // A run from the beginning to the end reads, processes, writes and records every bucket
  // exactly once.
  lemma EachOnce(j: Job, run: seq<State>, choices: seq<Choice>, i: nat, e: Event)
    requires IsRun(j, run, choices) && i < |run[0].place| && run[0].place[i] == Unclaimed
    requires var s := run[|choices|];
             Inv(j, s) && s.workers != [] && forall w :: 0 <= w < |s.workers| ==> Stopped(s.workers[w])
    ensures Times(run, choices, i, e) == 1
  {
    TimesByStage(j, run, choices, i, e);
    AllPlacesWritten(j, run[|choices|]);
  }

  // The buckets whose read, or whose write, worker w has submitted and not yet reaped.
  ghost predicate Reading(s: State, w: nat, i: nat)
  {
    i < |s.place| && s.place[i] == InNext(w)
  }

  ghost predicate Writing(s: State, w: nat, i: nat)
  {
    i < |s.place| && Stage(s, i) == 4 && (s.place[i] == InCurrent(w) || s.place[i] == InPrevious(w))
  }

  // In every state of a run a worker has at most one read and at most one write outstanding.
  lemma OneReadOneWrite(j: Job, s: State, w: nat, i: nat, k: nat)
    requires Inv(j, s)
    ensures Reading(s, w, i) && Reading(s, w, k) ==> i == k
    ensures Writing(s, w, i) && Writing(s, w, k) ==> i == k
  {
    if i < |s.place| && k < |s.place| {
      assert BucketInv(j, s, i) && BucketInv(j, s, k);
    }
  }

  // A bucket's read or write is outstanding exactly between its submission and its reaping.
  lemma OutstandingByStage(j: Job, s: State, i: nat)
    requires Inv(j, s) && i < |s.place|
    ensures (exists w :: Reading(s, w, i)) <==> Stage(s, i) == 1
    ensures (exists w :: Writing(s, w, i)) <==> Stage(s, i) == 4
  {
    assert BucketInv(j, s, i);
    match s.place[i]
    case InNext(w) => assert Reading(s, w, i);
    case InCurrent(w) =>
      if Stage(s, i) == 4 {
        assert Writing(s, w, i);
      }
    case InPrevious(w) => assert Writing(s, w, i);
    case _ =>
  }
}
