// The state of the gather phase: workers that overlap reading, processing and writing of
// bucket files (scatter_gather_algorithms/scatter_gather.h, WorkerOnlyPhase2).
module PipelineState {
  import opened Sequences
  import opened Disk

  datatype Info = Info(fileSize: nat, trueSize: nat)

  // The bucket files and the processor, which works in memory on the first trueSize bytes.
  datatype Job = Job(contents: seq<seq<Byte>>, infos: seq<Info>, process: (seq<Byte>, nat) -> seq<Byte>)

  ghost predicate IsJob(j: Job)
  {
    && |j.contents| == |j.infos|
    && (forall i :: 0 <= i < |j.infos| ==> |j.contents[i]| == j.infos[i].fileSize)
    && (forall b, n :: |j.process(b, n)| == |b|)
  }

  function Processed(j: Job, i: nat): seq<Byte>
    requires i < |j.contents| == |j.infos|
  {
    j.process(j.contents[i], j.infos[i].trueSize)
  }

  // index and the address of the buffer; copies of the record share the buffer.
  datatype LocalFile = LocalFile(index: nat, buffer: nat)

  // pc: the next block of the loop body. 0 tests the loop condition, rotates the records and
  // reaps the read, 1 submits a read, 2 processes, 3 reaps the write, 4 submits a write.
  datatype Worker = Worker(pc: nat, previous: LocalFile, current: LocalFile, next: LocalFile,
                           needReapRead: bool, needSubmitRead: bool, needProcess: bool,
                           needReapWrite: bool, needSubmitWrite: bool)

  // Where a bucket is: not taken yet, in one of the records of a worker, or written.
  datatype Place = Unclaimed | InNext(worker: nat) | InCurrent(worker: nat) | InPrevious(worker: nat) | Written

  // heap: the allocated buffers; owner: the bucket each of them is for.
  datatype State = State(workers: seq<Worker>, currentFile: nat, heap: map<nat, seq<Byte>>,
                         results: seq<Option<Info>>, outputs: seq<File>,
                         place: seq<Place>, owner: map<nat, nat>)

  // ---- invariant ---------------------------------------------------------------------------

  predicate NextLive(k: Worker) {
    k.needReapRead && k.pc != 1
  }

  predicate CurrentLive(k: Worker) {
    if k.pc == 0 then k.needReapWrite else if k.pc <= 2 then k.needProcess else k.needSubmitWrite
  }

  predicate PreviousLive(k: Worker) {
    1 <= k.pc <= 3 && k.needReapWrite
  }

  predicate Stopped(k: Worker) {
    k.pc == 0 && !k.needSubmitRead && !k.needReapWrite
  }

  // The record describes the bucket whose place is p, and its buffer is allocated.
  ghost predicate Holds(s: State, f: LocalFile, p: Place)
  {
    && f.index < |s.place| && s.place[f.index] == p
    && f.buffer in s.heap && f.buffer in s.owner && s.owner[f.buffer] == f.index
  }

  ghost predicate WorkerInv(j: Job, s: State, w: nat)
    requires w < |s.workers| && |s.place| == |j.contents| == |j.infos|
  {
    var k := s.workers[w];
    && k.pc <= 4
    && (!k.needSubmitRead ==> s.currentFile >= |j.infos|)
    && (!k.needSubmitRead && k.pc != 1 ==> !k.needReapRead)
    && (NextLive(k) ==> Holds(s, k.next, InNext(w)))
    && (CurrentLive(k) ==>
          && Holds(s, k.current, InCurrent(w))
          && s.heap[k.current.buffer]
               == if k.pc == 1 || k.pc == 2 then j.contents[k.current.index] else Processed(j, k.current.index))
    && (PreviousLive(k) ==>
          && Holds(s, k.previous, InPrevious(w))
          && s.heap[k.previous.buffer] == Processed(j, k.previous.index))
  }

  ghost predicate BucketInv(j: Job, s: State, i: nat)
    requires i < |s.place| == |s.results| == |s.outputs| == |j.contents| == |j.infos|
  {
    && (s.place[i] == Unclaimed <==> i >= s.currentFile)
    && match s.place[i]
       case Unclaimed => true
       case InNext(w) => w < |s.workers| && NextLive(s.workers[w]) && s.workers[w].next.index == i
       case InCurrent(w) => w < |s.workers| && CurrentLive(s.workers[w]) && s.workers[w].current.index == i
       case InPrevious(w) => w < |s.workers| && PreviousLive(s.workers[w]) && s.workers[w].previous.index == i
       case Written => true
  }

  // A bucket's result is recorded exactly when its output file has been written.
  ghost predicate OutputInv(j: Job, s: State, i: nat)
    requires i < |s.place| == |s.results| == |s.outputs| == |j.contents| == |j.infos|
  {
    if s.place[i] == Written then s.results[i] == Some(j.infos[i]) && HasContents(s.outputs[i], Processed(j, i))
    else s.results[i] == None && s.outputs[i] == map[]
  }

  // Every allocated buffer is the buffer of a record in use.
  ghost predicate BufferInv(s: State, p: nat)
  {
    && p in s.owner && s.owner[p] < |s.place|
    && match s.place[s.owner[p]]
       case InNext(w) => w < |s.workers| && s.workers[w].next.buffer == p
       case InCurrent(w) => w < |s.workers| && s.workers[w].current.buffer == p
       case InPrevious(w) => w < |s.workers| && s.workers[w].previous.buffer == p
       case _ => false
  }

  ghost predicate Inv(j: Job, s: State)
  {
    && IsJob(j) && |s.place| == |s.results| == |s.outputs| == |j.infos|
    && (forall w :: 0 <= w < |s.workers| ==> WorkerInv(j, s, w))
    && (forall i :: 0 <= i < |s.place| ==> BucketInv(j, s, i))
    && (forall i :: 0 <= i < |s.place| ==> OutputInv(j, s, i))
    && (forall p :: p in s.heap ==> BufferInv(s, p))
  }

  // What the lemmas about single workers and buckets need of the worker that moves.
  ghost predicate Knows(j: Job, s: State, w: nat)
  {
    && w < |s.workers| && |s.place| == |s.results| == |s.outputs| == |j.contents| == |j.infos|
    && (forall b, n :: |j.process(b, n)| == |b|) && WorkerInv(j, s, w)
  }

  // ---- the blocks of the loop body ---------------------------------------------------------

  // Rotation, and completion of the read into the buffer that moves to current.
  function Rotate(j: Job, s: State, w: nat): State
    requires w < |s.workers| && |s.place| == |j.contents|
  {
    var k := s.workers[w];
    var k' := k.(pc := 1, previous := k.current, current := k.next, needProcess := k.needReapRead);
    var p := if k.needReapWrite && k.current.index < |s.place| then s.place[k.current.index := InPrevious(w)]
             else s.place;
    if k.needReapRead && k.next.index < |s.place| then
      s.(workers := s.workers[w := k'], place := p[k.next.index := InCurrent(w)],
         heap := s.heap[k.next.buffer := j.contents[k.next.index]])
    else s.(workers := s.workers[w := k'], place := p)
  }

  lemma RotateWorker(j: Job, s: State, w: nat, v: nat)
    requires Knows(j, s, w) && s.workers[w].pc == 0 && v < |s.workers| && WorkerInv(j, s, v)
    ensures WorkerInv(j, Rotate(j, s, w), v)
  {
  }

  lemma RotateBucket(j: Job, s: State, w: nat, i: nat)
    requires Knows(j, s, w) && s.workers[w].pc == 0 && i < |s.place| && BucketInv(j, s, i) && OutputInv(j, s, i)
    ensures BucketInv(j, Rotate(j, s, w), i) && OutputInv(j, Rotate(j, s, w), i)
  {
  }

  lemma RotateWorkers(j: Job, s: State, w: nat)
    requires Inv(j, s) && w < |s.workers| && s.workers[w].pc == 0
    ensures forall v :: 0 <= v < |s.workers| ==> WorkerInv(j, Rotate(j, s, w), v)
  {
    assert WorkerInv(j, s, w);
    forall v | 0 <= v < |s.workers| ensures WorkerInv(j, Rotate(j, s, w), v) {
      assert WorkerInv(j, s, v);
      RotateWorker(j, s, w, v);
    }
  }

  lemma RotateBuckets(j: Job, s: State, w: nat)
    requires Inv(j, s) && w < |s.workers| && s.workers[w].pc == 0
    ensures forall i :: 0 <= i < |s.place| ==>
              BucketInv(j, Rotate(j, s, w), i) && OutputInv(j, Rotate(j, s, w), i)
  {
    assert WorkerInv(j, s, w);
    forall i | 0 <= i < |s.place|
      ensures BucketInv(j, Rotate(j, s, w), i) && OutputInv(j, Rotate(j, s, w), i)
    {
      assert BucketInv(j, s, i) && OutputInv(j, s, i);
      RotateBucket(j, s, w, i);
    }
  }

  lemma RotateKeepsInv(j: Job, s: State, w: nat)
    requires Inv(j, s) && w < |s.workers| && s.workers[w].pc == 0
    ensures Inv(j, Rotate(j, s, w))
  {
    var t := Rotate(j, s, w);
    RotateWorkers(j, s, w);
    RotateBuckets(j, s, w);
    assert WorkerInv(j, s, w);
    forall p | p in t.heap ensures BufferInv(t, p) {
      if p in s.heap {
        assert BufferInv(s, p) && BucketInv(j, s, s.owner[p]);
      }
    }
  }

  // Taking the next bucket and submitting its read into a buffer allocated at address p; the
  // contents of the new buffer do not matter.
  function Fetch(j: Job, s: State, w: nat, p: nat, garbage: seq<Byte>): State
    requires w < |s.workers| && |s.place| == |j.infos|
  {
    var k := s.workers[w];
    var index := s.currentFile;
    var submit := k.needSubmitRead && index < |s.place|;
    var k' := k.(pc := 2, needSubmitRead := submit, needReapRead := submit);
    var t := s.(currentFile := index + 1);
    if submit then
      t.(workers := s.workers[w := k'.(next := LocalFile(index, p))], place := s.place[index := InNext(w)],
         heap := s.heap[p := garbage], owner := s.owner[p := index])
    else t.(workers := s.workers[w := k'])
  }

  lemma FetchWorker(j: Job, s: State, w: nat, p: nat, garbage: seq<Byte>, v: nat)
    requires Knows(j, s, w) && s.workers[w].pc == 1 && v < |s.workers| && WorkerInv(j, s, v)
    requires p !in s.heap && (s.currentFile < |s.place| ==> BucketInv(j, s, s.currentFile))
    ensures WorkerInv(j, Fetch(j, s, w, p, garbage), v)
  {
  }

  lemma FetchBucket(j: Job, s: State, w: nat, p: nat, garbage: seq<Byte>, i: nat)
    requires Knows(j, s, w) && s.workers[w].pc == 1 && i < |s.place| && BucketInv(j, s, i) && OutputInv(j, s, i)
    ensures BucketInv(j, Fetch(j, s, w, p, garbage), i) && OutputInv(j, Fetch(j, s, w, p, garbage), i)
  {
  }

  lemma FetchWorkers(j: Job, s: State, w: nat, p: nat, garbage: seq<Byte>)
    requires Inv(j, s) && w < |s.workers| && s.workers[w].pc == 1 && p !in s.heap
    ensures forall v :: 0 <= v < |s.workers| ==> WorkerInv(j, Fetch(j, s, w, p, garbage), v)
  {
    assert WorkerInv(j, s, w);
    assert s.currentFile < |s.place| ==> BucketInv(j, s, s.currentFile);
    forall v | 0 <= v < |s.workers| ensures WorkerInv(j, Fetch(j, s, w, p, garbage), v) {
      assert WorkerInv(j, s, v);
      FetchWorker(j, s, w, p, garbage, v);
    }
  }

  lemma FetchBuckets(j: Job, s: State, w: nat, p: nat, garbage: seq<Byte>)
    requires Inv(j, s) && w < |s.workers| && s.workers[w].pc == 1 && p !in s.heap
    ensures forall i :: 0 <= i < |s.place| ==>
              BucketInv(j, Fetch(j, s, w, p, garbage), i) && OutputInv(j, Fetch(j, s, w, p, garbage), i)
  {
    assert WorkerInv(j, s, w);
    forall i | 0 <= i < |s.place|
      ensures BucketInv(j, Fetch(j, s, w, p, garbage), i) && OutputInv(j, Fetch(j, s, w, p, garbage), i)
    {
      assert BucketInv(j, s, i) && OutputInv(j, s, i);
      FetchBucket(j, s, w, p, garbage, i);
    }
  }

  lemma FetchKeepsInv(j: Job, s: State, w: nat, p: nat, garbage: seq<Byte>)
    requires Inv(j, s) && w < |s.workers| && s.workers[w].pc == 1 && p !in s.heap
    ensures Inv(j, Fetch(j, s, w, p, garbage))
  {
    var t := Fetch(j, s, w, p, garbage);
    FetchWorkers(j, s, w, p, garbage);
    FetchBuckets(j, s, w, p, garbage);
    assert WorkerInv(j, s, w);
    forall p | p in t.heap ensures BufferInv(t, p) {
      if p in s.heap {
        assert BufferInv(s, p) && BucketInv(j, s, s.owner[p]);
      }
    }
  }

  function Process(j: Job, s: State, w: nat): State
    requires w < |s.workers| && |j.contents| == |j.infos|
  {
    var k := s.workers[w];
    var t := s.(workers := s.workers[w := k.(pc := 3, needSubmitWrite := k.needProcess)]);
    if k.needProcess && k.current.buffer in s.heap && k.current.index < |j.infos| then
      t.(heap := s.heap[k.current.buffer := j.process(s.heap[k.current.buffer], j.infos[k.current.index].trueSize)])
    else t
  }

  lemma ProcessOwn(j: Job, s: State, w: nat)
    requires Knows(j, s, w) && s.workers[w].pc == 2
    ensures WorkerInv(j, Process(j, s, w), w)
  {
  }

  // Records of other workers are of other buckets and have other buffers.
  lemma ProcessOther(j: Job, s: State, w: nat, v: nat)
    requires Knows(j, s, w) && s.workers[w].pc == 2 && v < |s.workers| && WorkerInv(j, s, v) && v != w
    ensures WorkerInv(j, Process(j, s, w), v)
  {
  }

  lemma ProcessWorker(j: Job, s: State, w: nat, v: nat)
    requires Knows(j, s, w) && s.workers[w].pc == 2 && v < |s.workers| && WorkerInv(j, s, v)
    ensures WorkerInv(j, Process(j, s, w), v)
  {
    if v == w {
      ProcessOwn(j, s, w);
    } else {
      ProcessOther(j, s, w, v);
    }
  }

  lemma ProcessBucket(j: Job, s: State, w: nat, i: nat)
    requires Knows(j, s, w) && s.workers[w].pc == 2 && i < |s.place| && BucketInv(j, s, i) && OutputInv(j, s, i)
    ensures BucketInv(j, Process(j, s, w), i) && OutputInv(j, Process(j, s, w), i)
  {
  }

  lemma ProcessWorkers(j: Job, s: State, w: nat)
    requires Inv(j, s) && w < |s.workers| && s.workers[w].pc == 2
    ensures forall v :: 0 <= v < |s.workers| ==> WorkerInv(j, Process(j, s, w), v)
  {
    assert WorkerInv(j, s, w);
    forall v | 0 <= v < |s.workers| ensures WorkerInv(j, Process(j, s, w), v) {
      assert WorkerInv(j, s, v);
      ProcessWorker(j, s, w, v);
    }
  }

  lemma ProcessBuckets(j: Job, s: State, w: nat)
    requires Inv(j, s) && w < |s.workers| && s.workers[w].pc == 2
    ensures forall i :: 0 <= i < |s.place| ==>
              BucketInv(j, Process(j, s, w), i) && OutputInv(j, Process(j, s, w), i)
  {
    assert WorkerInv(j, s, w);
    forall i | 0 <= i < |s.place|
      ensures BucketInv(j, Process(j, s, w), i) && OutputInv(j, Process(j, s, w), i)
    {
      assert BucketInv(j, s, i) && OutputInv(j, s, i);
      ProcessBucket(j, s, w, i);
    }
  }

  lemma ProcessKeepsInv(j: Job, s: State, w: nat)
    requires Inv(j, s) && w < |s.workers| && s.workers[w].pc == 2
    ensures Inv(j, Process(j, s, w))
  {
    var t := Process(j, s, w);
    ProcessWorkers(j, s, w);
    ProcessBuckets(j, s, w);
    assert WorkerInv(j, s, w);
    forall p | p in t.heap ensures BufferInv(t, p) {
      if p in s.heap {
        assert BufferInv(s, p) && BucketInv(j, s, s.owner[p]);
      }
    }
  }

  // The write of the previous bucket is reaped: the file is there, the buffer is freed and the
  // result is recorded.
  function ReapWrite(j: Job, s: State, w: nat): State
    requires w < |s.workers| && |s.place| == |s.results| == |s.outputs| == |j.infos|
  {
    var k := s.workers[w];
    var t := s.(workers := s.workers[w := k.(pc := 4)]);
    if k.needReapWrite && k.previous.buffer in s.heap && k.previous.index < |s.place| then
      var i := k.previous.index;
      t.(outputs := s.outputs[i := WriteAt(s.outputs[i], 0, s.heap[k.previous.buffer])],
         heap := s.heap - {k.previous.buffer}, results := s.results[i := Some(j.infos[i])],
         place := s.place[i := Written])
    else t
  }

  lemma ReapWriteOwn(j: Job, s: State, w: nat)
    requires Knows(j, s, w) && s.workers[w].pc == 3
    ensures WorkerInv(j, ReapWrite(j, s, w), w)
  {
  }

  // Records of other workers are of other buckets and have other buffers.
  lemma ReapWriteOther(j: Job, s: State, w: nat, v: nat)
    requires Knows(j, s, w) && s.workers[w].pc == 3 && v < |s.workers| && WorkerInv(j, s, v) && v != w
    ensures WorkerInv(j, ReapWrite(j, s, w), v)
  {
  }

  lemma ReapWriteWorker(j: Job, s: State, w: nat, v: nat)
    requires Knows(j, s, w) && s.workers[w].pc == 3 && v < |s.workers| && WorkerInv(j, s, v)
    ensures WorkerInv(j, ReapWrite(j, s, w), v)
  {
    if v == w {
      ReapWriteOwn(j, s, w);
    } else {
      ReapWriteOther(j, s, w, v);
    }
  }

  lemma ReapWriteBucket(j: Job, s: State, w: nat, i: nat)
    requires Knows(j, s, w) && s.workers[w].pc == 3 && i < |s.place| && BucketInv(j, s, i) && OutputInv(j, s, i)
    ensures BucketInv(j, ReapWrite(j, s, w), i) && OutputInv(j, ReapWrite(j, s, w), i)
  {
  }

  lemma ReapWriteWorkers(j: Job, s: State, w: nat)
    requires Inv(j, s) && w < |s.workers| && s.workers[w].pc == 3
    ensures forall v :: 0 <= v < |s.workers| ==> WorkerInv(j, ReapWrite(j, s, w), v)
  {
    assert WorkerInv(j, s, w);
    forall v | 0 <= v < |s.workers| ensures WorkerInv(j, ReapWrite(j, s, w), v) {
      assert WorkerInv(j, s, v);
      ReapWriteWorker(j, s, w, v);
    }
  }

  lemma ReapWriteBuckets(j: Job, s: State, w: nat)
    requires Inv(j, s) && w < |s.workers| && s.workers[w].pc == 3
    ensures forall i :: 0 <= i < |s.place| ==>
              BucketInv(j, ReapWrite(j, s, w), i) && OutputInv(j, ReapWrite(j, s, w), i)
  {
    assert WorkerInv(j, s, w);
    forall i | 0 <= i < |s.place|
      ensures BucketInv(j, ReapWrite(j, s, w), i) && OutputInv(j, ReapWrite(j, s, w), i)
    {
      assert BucketInv(j, s, i) && OutputInv(j, s, i);
      ReapWriteBucket(j, s, w, i);
    }
  }

  lemma ReapWriteKeepsInv(j: Job, s: State, w: nat)
    requires Inv(j, s) && w < |s.workers| && s.workers[w].pc == 3
    ensures Inv(j, ReapWrite(j, s, w))
  {
    var t := ReapWrite(j, s, w);
    ReapWriteWorkers(j, s, w);
    ReapWriteBuckets(j, s, w);
    assert WorkerInv(j, s, w);
    forall p | p in t.heap ensures BufferInv(t, p) {
      if p in s.heap {
        assert BufferInv(s, p) && BucketInv(j, s, s.owner[p]);
      }
    }
  }

  function SubmitWrite(j: Job, s: State, w: nat): State
    requires w < |s.workers|
  {
    var k := s.workers[w];
    s.(workers := s.workers[w := k.(pc := 0, needReapWrite := k.needSubmitWrite)])
  }

  lemma SubmitWriteWorker(j: Job, s: State, w: nat, v: nat)
    requires Knows(j, s, w) && s.workers[w].pc == 4 && v < |s.workers| && WorkerInv(j, s, v)
    ensures WorkerInv(j, SubmitWrite(j, s, w), v)
  {
  }

  lemma SubmitWriteBucket(j: Job, s: State, w: nat, i: nat)
    requires Knows(j, s, w) && s.workers[w].pc == 4 && i < |s.place| && BucketInv(j, s, i) && OutputInv(j, s, i)
    ensures BucketInv(j, SubmitWrite(j, s, w), i) && OutputInv(j, SubmitWrite(j, s, w), i)
  {
  }

  lemma SubmitWriteWorkers(j: Job, s: State, w: nat)
    requires Inv(j, s) && w < |s.workers| && s.workers[w].pc == 4
    ensures forall v :: 0 <= v < |s.workers| ==> WorkerInv(j, SubmitWrite(j, s, w), v)
  {
    assert WorkerInv(j, s, w);
    forall v | 0 <= v < |s.workers| ensures WorkerInv(j, SubmitWrite(j, s, w), v) {
      assert WorkerInv(j, s, v);
      SubmitWriteWorker(j, s, w, v);
    }
  }

  lemma SubmitWriteBuckets(j: Job, s: State, w: nat)
    requires Inv(j, s) && w < |s.workers| && s.workers[w].pc == 4
    ensures forall i :: 0 <= i < |s.place| ==>
              BucketInv(j, SubmitWrite(j, s, w), i) && OutputInv(j, SubmitWrite(j, s, w), i)
  {
    assert WorkerInv(j, s, w);
    forall i | 0 <= i < |s.place|
      ensures BucketInv(j, SubmitWrite(j, s, w), i) && OutputInv(j, SubmitWrite(j, s, w), i)
    {
      assert BucketInv(j, s, i) && OutputInv(j, s, i);
      SubmitWriteBucket(j, s, w, i);
    }
  }

  lemma SubmitWriteKeepsInv(j: Job, s: State, w: nat)
    requires Inv(j, s) && w < |s.workers| && s.workers[w].pc == 4
    ensures Inv(j, SubmitWrite(j, s, w))
  {
    var t := SubmitWrite(j, s, w);
    SubmitWriteWorkers(j, s, w);
    SubmitWriteBuckets(j, s, w);
    assert WorkerInv(j, s, w);
    forall p | p in t.heap ensures BufferInv(t, p) {
      if p in s.heap {
        assert BufferInv(s, p) && BucketInv(j, s, s.owner[p]);
      }
    }
  }

  // ---- consequences ------------------------------------------------------------------------

  // Once a worker has stopped no bucket is left to take; once all have, every bucket has been
  // written.
  lemma AllPlacesWritten(j: Job, s: State)
    requires Inv(j, s) && s.workers != [] && forall w :: 0 <= w < |s.workers| ==> Stopped(s.workers[w])
    ensures forall i :: 0 <= i < |s.place| ==> s.place[i] == Written
  {
    assert WorkerInv(j, s, 0);
    forall w | 0 <= w < |s.workers|
      ensures !NextLive(s.workers[w]) && !CurrentLive(s.workers[w]) && !PreviousLive(s.workers[w])
    {
      assert WorkerInv(j, s, w);
    }
    forall i | 0 <= i < |s.place| ensures s.place[i] == Written {
      assert BucketInv(j, s, i);
    }
  }

  // Then every result is recorded, every output file holds the processed bucket and no buffer
  // is allocated any more.
  lemma AllWritten(j: Job, s: State)
    requires Inv(j, s) && s.workers != [] && forall w :: 0 <= w < |s.workers| ==> Stopped(s.workers[w])
    ensures forall i :: 0 <= i < |s.place| ==>
              s.results[i] == Some(j.infos[i]) && HasContents(s.outputs[i], Processed(j, i))
    ensures s.heap == map[]
  {
    AllPlacesWritten(j, s);
    forall i | 0 <= i < |s.place|
      ensures s.results[i] == Some(j.infos[i]) && HasContents(s.outputs[i], Processed(j, i))
    {
      assert OutputInv(j, s, i);
    }
    assert forall p :: p in s.heap ==> BufferInv(s, p);
  }

  lemma FreshAddressExists(heap: map<nat, seq<Byte>>)
    ensures exists p: nat :: p !in heap
  {
    var top: nat, keys := 0, heap.Keys;
    while keys != {}
      invariant keys <= heap.Keys && forall q :: q in heap && q !in keys ==> q < top
      decreases keys
    {
      var q :| q in keys;
      keys := keys - {q};
      top := if q >= top then q + 1 else top;
    }
    assert top !in heap;
  }

  // Buckets not yet taken.
  function Remaining(s: State): nat
  {
    if s.currentFile < |s.place| then |s.place| - s.currentFile else 0
  }

  // How many blocks a worker still has to execute if it finds no further bucket.
  function Rank(k: Worker): nat
  {
    if k.pc == 0 then 5 * (if k.needSubmitRead then 2 else if k.needReapWrite then 1 else 0)
    else if k.pc == 1 then 5 * (if k.needSubmitRead || k.needProcess then 1 else 0) + 4
    else
      var pending := if k.pc == 2 then k.needProcess else k.needSubmitWrite;
      5 * (if k.needSubmitRead then 2 else if pending then 1 else 0) + (if k.pc <= 4 then 5 - k.pc else 0)
  }

  function Ranks(workers: seq<Worker>): nat
  {
    if workers == [] then 0 else Ranks(workers[..|workers| - 1]) + Rank(workers[|workers| - 1])
  }

  lemma {:induction false} RanksUpdate(workers: seq<Worker>, w: nat, k: Worker)
    requires w < |workers|
    ensures Ranks(workers[w := k]) + Rank(workers[w]) == Ranks(workers) + Rank(k)
  {
    var n := |workers| - 1;
    if w == n {
      assert workers[w := k][..n] == workers[..n];
    } else {
      assert workers[w := k][..n] == workers[..n][w := k];
      RanksUpdate(workers[..n], w, k);
    }
  }

  ghost predicate Less(t: State, s: State)
  {
    Remaining(t) < Remaining(s) || (Remaining(t) == Remaining(s) && Ranks(t.workers) < Ranks(s.workers))
  }

  // What a worker does with its next block: which worker, and the buffer that the allocator
  // would return.
  datatype Choice = Choice(worker: nat, p: nat, garbage: seq<Byte>)

  ghost predicate CanExecute(j: Job, s: State, c: Choice)
  {
    Inv(j, s) && c.worker < |s.workers| && c.p !in s.heap
  }

  ghost function Block(j: Job, s: State, c: Choice): State
    requires CanExecute(j, s, c)
  {
    match s.workers[c.worker].pc
    case 0 => Rotate(j, s, c.worker)
    case 1 => Fetch(j, s, c.worker, c.p, c.garbage)
    case 2 => Process(j, s, c.worker)
    case 3 => ReapWrite(j, s, c.worker)
    case _ => SubmitWrite(j, s, c.worker)
  }

  lemma BlockKeepsInv(j: Job, s: State, c: Choice)
    requires CanExecute(j, s, c)
    ensures Inv(j, Block(j, s, c))
  {
    assert WorkerInv(j, s, c.worker);
    match s.workers[c.worker].pc
    case 0 => RotateKeepsInv(j, s, c.worker);
    case 1 => FetchKeepsInv(j, s, c.worker, c.p, c.garbage);
    case 2 => ProcessKeepsInv(j, s, c.worker);
    case 3 => ReapWriteKeepsInv(j, s, c.worker);
    case _ => SubmitWriteKeepsInv(j, s, c.worker);
  }

  // The block of worker w leaves it with less to do, unless it takes a bucket.
  ghost predicate Nearer(s: State, t: State, w: nat)
    requires w < |s.workers|
  {
    && |t.place| == |s.place| && w < |t.workers| && t.workers == s.workers[w := t.workers[w]]
    && (Remaining(t) < Remaining(s) || (Remaining(t) == Remaining(s) && Rank(t.workers[w]) < Rank(s.workers[w])))
  }

  ghost predicate Live(j: Job, s: State, w: nat)
  {
    Knows(j, s, w) && !Stopped(s.workers[w])
  }

  lemma RotateNearer(j: Job, s: State, w: nat)
    requires Live(j, s, w) && s.workers[w].pc == 0
    ensures Nearer(s, Rotate(j, s, w), w)
  {
  }

  lemma FetchNearer(j: Job, s: State, w: nat, p: nat, garbage: seq<Byte>)
    requires Live(j, s, w) && s.workers[w].pc == 1
    ensures Nearer(s, Fetch(j, s, w, p, garbage), w)
  {
  }

  lemma LaterNearer(j: Job, s: State, w: nat)
    requires Live(j, s, w)
    ensures s.workers[w].pc == 2 ==> Nearer(s, Process(j, s, w), w)
    ensures s.workers[w].pc == 3 ==> Nearer(s, ReapWrite(j, s, w), w)
    ensures s.workers[w].pc == 4 ==> Nearer(s, SubmitWrite(j, s, w), w)
  {
  }

  lemma BlockNearer(j: Job, s: State, c: Choice)
    requires CanExecute(j, s, c) && !Stopped(s.workers[c.worker])
    ensures Nearer(s, Block(j, s, c), c.worker)
  {
    assert Live(j, s, c.worker);
    match s.workers[c.worker].pc
    case 0 => RotateNearer(j, s, c.worker);
    case 1 => FetchNearer(j, s, c.worker, c.p, c.garbage);
    case _ => LaterNearer(j, s, c.worker);
  }

  // Every block that a worker executes brings the end of the phase nearer.
  lemma Progress(j: Job, s: State, c: Choice)
    requires CanExecute(j, s, c) && !Stopped(s.workers[c.worker])
    ensures Less(Block(j, s, c), s)
  {
    BlockNearer(j, s, c);
    RanksUpdate(s.workers, c.worker, Block(j, s, c).workers[c.worker]);
  }
}
