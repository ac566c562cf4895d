// The gather phase: any number of workers run the software pipeline of WorkerOnlyPhase2,
// sharing the counter of the next bucket, the result list and the allocator.
module Pipeline {
  import opened Sequences
  import opened Disk
  import P = PipelineState
  import opened PipelineRuns

  class Gather {
    const contents: seq<seq<Byte>>
    const infos: seq<P.Info>
    const process: (seq<Byte>, nat) -> seq<Byte>
    var workers: seq<P.Worker>
    var currentFile: nat
    var heap: map<nat, seq<Byte>>
    var results: seq<Option<P.Info>>
    var outputs: seq<File>
    ghost var place: seq<P.Place>
    ghost var owner: map<nat, nat>

    ghost function Job(): P.Job {
      P.Job(contents, infos, process)
    }

    ghost function View(): P.State
      reads this
    {
      P.State(workers, currentFile, heap, results, outputs, place, owner)
    }

    ghost predicate Valid()
      reads this
    {
      P.Inv(Job(), View())
    }

    constructor (contents: seq<seq<Byte>>, infos: seq<P.Info>, process: (seq<Byte>, nat) -> seq<Byte>, numWorkers: nat)
      requires P.IsJob(P.Job(contents, infos, process))
      ensures Valid() && |workers| == numWorkers
      ensures this.contents == contents && this.infos == infos && this.process == process
      ensures forall i :: 0 <= i < |place| ==> place[i] == P.Unclaimed
    {
      this.contents, this.infos, this.process := contents, infos, process;
      var unset := P.LocalFile(0, 0);
      workers := seq(numWorkers, _ => P.Worker(0, unset, unset, unset, false, true, false, false, false));
      currentFile, heap, owner := 0, map[], map[];
      results, outputs := seq(|infos|, _ => None), seq(|infos|, _ => map[]);
      place := seq(|infos|, _ => P.Unclaimed);
    }

    method Rotate(w: nat)
      requires Valid() && w < |workers| && workers[w].pc == 0
      modifies this`workers, this`heap, this`place
      ensures Valid() && View() == P.Rotate(Job(), old(View()), w)
    {
      ghost var s := View();
      P.RotateKeepsInv(Job(), s, w);
      assert P.WorkerInv(Job(), s, w);
      var k := workers[w];
      if k.needReapWrite {
        place := place[k.current.index := P.InPrevious(w)];
      }
      if k.needReapRead {
        // the read has completed into the buffer of the record that becomes current
        assert k.next.buffer in heap;
        heap := heap[k.next.buffer := contents[k.next.index]];
        place := place[k.next.index := P.InCurrent(w)];
      }
      workers := workers[w := k.(pc := 1, previous := k.current, current := k.next, needProcess := k.needReapRead)];
    }

    // aligned_alloc may return any address p at which nothing is allocated, and a buffer with
    // any contents.
    method Fetch(w: nat, p: nat, garbage: seq<Byte>)
      requires Valid() && w < |workers| && workers[w].pc == 1 && p !in heap
      modifies this`workers, this`currentFile, this`heap, this`place, this`owner
      ensures Valid() && View() == P.Fetch(Job(), old(View()), w, p, garbage)
    {
      P.FetchKeepsInv(Job(), View(), w, p, garbage);
      SubmitRead(w, p, garbage);
    }

    // Draws the next index and, if it is a bucket's, submits the read.
    method SubmitRead(w: nat, p: nat, garbage: seq<Byte>)
      requires w < |workers| && |place| == |infos|
      modifies this`workers, this`currentFile, this`heap, this`place, this`owner
      ensures View() == P.Fetch(Job(), old(View()), w, p, garbage)
    {
      var k := workers[w];
      var index := currentFile;
      currentFile := index + 1;
      if index >= |infos| {
        k := k.(needSubmitRead := false);
      }
      if k.needSubmitRead {
        heap := heap[p := garbage];
        k := k.(next := P.LocalFile(index, p), needReapRead := true);
        place, owner := place[index := P.InNext(w)], owner[p := index];
      } else {
        k := k.(needReapRead := false);
      }
      workers := workers[w := k.(pc := 2)];
    }

    method Process(w: nat)
      requires Valid() && w < |workers| && workers[w].pc == 2
      modifies this`workers, this`heap
      ensures Valid() && View() == P.Process(Job(), old(View()), w)
    {
      P.ProcessKeepsInv(Job(), View(), w);
      assert P.WorkerInv(Job(), View(), w);
      var k := workers[w];
      if k.needProcess {
        heap := heap[k.current.buffer := process(heap[k.current.buffer], infos[k.current.index].trueSize)];
        k := k.(needSubmitWrite := true);
      } else {
        k := k.(needSubmitWrite := false);
      }
      workers := workers[w := k.(pc := 3)];
    }

    method ReapWrite(w: nat)
      requires Valid() && w < |workers| && workers[w].pc == 3
      modifies this`workers, this`heap, this`results, this`outputs, this`place
      ensures Valid() && View() == P.ReapWrite(Job(), old(View()), w)
    {
      P.ReapWriteKeepsInv(Job(), View(), w);
      assert P.WorkerInv(Job(), View(), w);
      var k := workers[w];
      if k.needReapWrite {
        var i := k.previous.index;
        outputs := outputs[i := WriteAt(outputs[i], 0, heap[k.previous.buffer])];
        heap := heap - {k.previous.buffer};
        results := results[i := Some(infos[i])];
        place := place[i := P.Written];
      }
      workers := workers[w := k.(pc := 4)];
    }

    method SubmitWrite(w: nat)
      requires Valid() && w < |workers| && workers[w].pc == 4
      modifies this`workers
      ensures Valid() && View() == P.SubmitWrite(Job(), old(View()), w)
    {
      P.SubmitWriteKeepsInv(Job(), View(), w);
      var k := workers[w];
      workers := workers[w := k.(pc := 0, needReapWrite := k.needSubmitWrite)];
    }

    // Worker w executes its next block.
    method Step(w: nat) returns (ghost c: P.Choice)
      requires Valid() && w < |workers| && !P.Stopped(workers[w])
      modifies this
      ensures Valid() && P.Less(View(), old(View()))
      ensures P.CanExecute(Job(), old(View()), c) && View() == P.Block(Job(), old(View()), c)
    {
      P.FreshAddressExists(heap);
      var p: nat :| p !in heap;
      var garbage: seq<Byte> := *;
      c := P.Choice(w, p, garbage);
      P.Progress(Job(), View(), c);
      assert P.WorkerInv(Job(), View(), w);
      match workers[w].pc {
        case 0 => Rotate(w);
        case 1 => Fetch(w, p, garbage);
        case 2 => Process(w);
        case 3 => ReapWrite(w);
        case _ => SubmitWrite(w);
      }
    }

    // Every interleaving of the workers' blocks ends with every output file holding the
    // processed bucket and with every buffer freed, and by then every bucket has been read,
    // processed, written and recorded exactly once.
    method RunToCompletion() returns (ghost run: seq<P.State>, ghost choices: seq<P.Choice>)
      requires Valid() && workers != [] && forall i :: 0 <= i < |place| ==> place[i] == P.Unclaimed
      modifies this
      ensures Valid() && |outputs| == |results| == |infos| && heap == map[]
      ensures forall i :: 0 <= i < |infos| ==>
                results[i] == Some(infos[i]) && HasContents(outputs[i], process(contents[i], infos[i].trueSize))
      ensures IsRun(Job(), run, choices) && run[0] == old(View()) && run[|choices|] == View()
      ensures forall i: nat, e :: i < |infos| ==> Times(run, choices, i, e) == 1
    {
      run, choices := [View()], [];
      while exists w :: 0 <= w < |workers| && !P.Stopped(workers[w])
        invariant Valid() && IsRun(Job(), run, choices) && run[0] == old(View()) && run[|choices|] == View()
        invariant workers != []
        decreases P.Remaining(View()), P.Ranks(workers)
      {
        var w :| 0 <= w < |workers| && !P.Stopped(workers[w]);
        ghost var s := View();
        ghost var c := Step(w);
        RunSnoc(Job(), run, choices, c);
        run, choices := run + [View()], choices + [c];
      }
      P.AllWritten(Job(), View());
      forall i: nat, e | i < |infos| ensures Times(run, choices, i, e) == 1 {
        EachOnce(Job(), run, choices, i, e);
      }
    }
  }
}
