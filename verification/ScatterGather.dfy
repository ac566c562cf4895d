// The scatter phase: threads poll chunks, route elements to buckets through their own buffers
// and hand full buffers to the writer, while I/O threads issue and complete writes
// (scatter_gather_algorithms/scatter_gather.h, AssignToBucket and the first half of Run).
module ScatterGather {
  import opened Sequences
  import opened Disk
  import opened OrderedFileWriter
  import WriterState
  import Shares
  import S = ScatterState

  // The writer holds the encodings of the elements it has taken over for bucket b.
  ghost predicate Stored<T>(layout: Layout<T>, appended: seq<Byte>, aside: seq<seq<Byte>>, inPlace: seq<T>,
                            setAside: seq<T>)
  {
    appended == Encode(layout, inPlace) && Concat(aside) == Encode(layout, setAside)
  }

  lemma StoreMore<T>(layout: Layout<T>, appended: seq<Byte>, aside: seq<seq<Byte>>, inPlace: seq<T>, setAside: seq<T>,
                     buf: seq<T>)
    requires Stored(layout, appended, aside, inPlace, setAside)
    ensures Stored(layout, appended + Encode(layout, buf), aside, inPlace + buf, setAside)
    ensures Stored(layout, appended, aside + [Encode(layout, buf)], inPlace, setAside + buf)
  {
    EncodeAppend(layout, inPlace, buf);
    EncodeAppend(layout, setAside, buf);
    ConcatSnoc(aside, Encode(layout, buf));
  }

  class Scatter<T(!new)> {
    const layout: Layout<T>
    const assign: (T, nat) -> nat
    const capacity: nat
    const writer: OrderedFileWriter
    ghost const input: seq<Shares.Chunk<T>>
    var arrivals: seq<Shares.Chunk<T>>
    var threads: seq<S.Thread<T>>
    // The buckets whose tail CleanUp has sent.
    var closed: set<nat>
    ghost var inPlace: seq<seq<T>>
    ghost var setAside: seq<seq<T>>

    ghost function View(): S.State<T>
      reads this
    {
      S.State(arrivals, threads, inPlace, setAside)
    }

    function NumBuckets(): nat {
      writer.cfg.numBuckets
    }

    ghost predicate Valid()
      reads this, writer
    {
      && writer.Valid() && capacity > 0 && IsLayout(layout)
      && (forall x, k :: assign(x, k) < NumBuckets())
      && S.Inv(View(), assign, NumBuckets(), capacity, input)
      && Matches()
      && (closed != {} ==> S.AllDone(threads, NumBuckets()))
    }

    ghost predicate Matches()
      reads this, writer
    {
      && |writer.appended| == |writer.aside| == |inPlace| == |setAside| == NumBuckets()
      && (forall b :: 0 <= b < NumBuckets() ==>
          Stored(layout, writer.appended[b], writer.aside[b], inPlace[b], setAside[b]))
      && (forall b: nat :: b in writer.open <==> b < NumBuckets() && b !in closed)
    }

    constructor (layout: Layout<T>, assign: (T, nat) -> nat, capacity: nat, writer: OrderedFileWriter,
                 arrivals: seq<Shares.Chunk<T>>, numThreads: nat)
      requires IsLayout(layout) && capacity > 0 && writer.Valid()
      requires forall x, k :: assign(x, k) < writer.cfg.numBuckets
      requires writer.appended == seq(writer.cfg.numBuckets, _ => [])
      requires writer.aside == seq(writer.cfg.numBuckets, _ => [])
      requires forall b: nat :: b in writer.open <==> b < writer.cfg.numBuckets
      ensures Valid() && this.writer == writer && closed == {} && |threads| == numThreads && this.arrivals == arrivals
      ensures input == arrivals && this.layout == layout && this.assign == assign
    {
      var n := writer.cfg.numBuckets;
      this.layout, this.assign, this.capacity, this.writer := layout, assign, capacity, writer;
      this.input := arrivals;
      this.arrivals, closed := arrivals, {};
      threads := seq(numThreads, _ => S.Thread(seq(n, _ => []), [], 0, false, 0));
      inPlace, setAside := seq(n, _ => []), seq(n, _ => []);
      new;
      S.StartInv(View(), assign, n, capacity);
    }

    // The writer can take thread i's buffer for bucket b, or has to wait for a free request.
    predicate CanFlush(b: nat, buf: seq<T>)
      requires writer.cfg.align > 0
      reads this, writer
    {
      && b < |writer.buckets| && writer.buckets[b].request < |writer.requests|
      && writer.CanWrite(b, Encode(layout, buf))
    }

    // intermediate_writer.Write on thread i's buffer for bucket b.
    method FlushBuffer(i: nat, b: nat) returns (ghost aligned: bool)
      requires writer.Valid() && Matches() && closed == {}
      requires i < |threads| && b < NumBuckets() && b < |threads[i].bufs|
      requires CanFlush(b, threads[i].bufs[b])
      modifies this`threads, this`inPlace, this`setAside, writer
      ensures writer.Valid() && Matches() && writer.ring == old(writer.ring)
      ensures b < |old(inPlace)| == |old(setAside)| && View() == S.Flush(old(View()), i, b, aligned)
    {
      var th := threads[i];
      var buf := th.bufs[b];
      var data := Encode(layout, buf);
      aligned := |data| % writer.cfg.align == 0;
      StoreMore(layout, writer.appended[b], writer.aside[b], inPlace[b], setAside[b], buf);
      writer.Write(b, data);
      threads := threads[i := th.(bufs := th.bufs[b := []])];
      if aligned {
        inPlace := inPlace[b := inPlace[b] + buf];
      } else {
        setAside := setAside[b := setAside[b] + buf];
      }
    }

    method Poll(i: nat)
      requires Valid() && i < |threads| && CanPoll(i)
      modifies this`arrivals, this`threads
      ensures Valid() && View() == S.Poll(old(View()), i) && arrivals == old(arrivals)[1..]
    {
      S.PollKeepsInv(View(), i, assign, NumBuckets(), capacity, input);
      assert S.ThreadInv(View(), threads[i], NumBuckets(), capacity);
      assert !S.Done(threads[i], NumBuckets());
      ghost var s := View();
      var chunk := arrivals[0];
      arrivals := arrivals[1..];
      threads := threads[i := threads[i].(rest := chunk.data, index := chunk.indexStart)];
      assert View() == S.Poll(s, i);
    }

    // The bucket of the next element of thread i, and its buffer with that element.
    function Target(i: nat): nat
      requires i < |threads| && threads[i].rest != []
      reads this
    {
      assign(threads[i].rest[0], threads[i].index)
    }

    function Extended(i: nat): seq<T>
      requires i < |threads| && threads[i].rest != [] && Target(i) < |threads[i].bufs|
      reads this
    {
      threads[i].bufs[Target(i)] + [threads[i].rest[0]]
    }

    // Thread i has an element to route; when that fills a buffer, the writer must be able to
    // take it.
    predicate CanRoute(i: nat)
      requires i < |threads| && writer.cfg.align > 0
      reads this, writer
    {
      && threads[i].rest != [] && Target(i) < |threads[i].bufs|
      && (|Extended(i)| == capacity ==> CanFlush(Target(i), Extended(i)))
    }

    method Append(i: nat)
      requires i < |threads| && threads[i].rest != [] && Target(i) < |threads[i].bufs|
      modifies this`threads
      ensures View() == S.Route(old(View()), i, old(Target(i)))
    {
      var th, b := threads[i], Target(i);
      threads := threads[i := th.(bufs := th.bufs[b := th.bufs[b] + [th.rest[0]]], rest := th.rest[1..],
                                  index := th.index + 1)];
    }

    // One iteration of the inner loop of AssignToBucket.
    method Route(i: nat)
      requires Valid() && i < |threads| && CanRoute(i)
      modifies this`threads, this`inPlace, this`setAside, writer
      ensures Valid() && writer.ring == old(writer.ring)
      ensures threads == old(threads)[i := S.Placed(old(threads)[i], old(Target(i)), capacity)]
      ensures S.ToRoute(threads) < old(S.ToRoute(threads))
      ensures S.ToClean(threads, NumBuckets()) <= old(S.ToClean(threads, NumBuckets()))
    {
      assert S.ThreadInv(View(), threads[i], NumBuckets(), capacity);
      assert closed != {} ==> S.Done(threads[i], NumBuckets());
      if |Extended(i)| == capacity {
        AppendAndFlush(i);
      } else {
        S.RouteKeepsInv(View(), i, Target(i), assign, NumBuckets(), capacity, input);
        Append(i);
      }
      S.WorkUpdate(old(threads), i, threads[i], NumBuckets());
    }

    method AppendAndFlush(i: nat)
      requires Valid() && i < |threads| && closed == {}
      requires threads[i].rest != [] && |threads[i].bufs| == NumBuckets() && CanFlush(Target(i), Extended(i))
      requires |Extended(i)| == capacity
      modifies this`threads, this`inPlace, this`setAside, writer
      ensures Valid() && writer.ring == old(writer.ring)
      ensures threads == old(threads)[i := S.Placed(old(threads)[i], old(Target(i)), capacity)]
    {
      ghost var s, b := View(), Target(i);
      ghost var aligned := AppendThenFlush(i);
      S.RouteAndFlush(s, i, b, aligned, assign, NumBuckets(), capacity, input);
    }

    method AppendThenFlush(i: nat) returns (ghost aligned: bool)
      requires writer.Valid() && Matches() && closed == {} && i < |threads| && threads[i].rest != []
      requires |threads[i].bufs| == NumBuckets() && Target(i) < NumBuckets()
      requires CanFlush(Target(i), Extended(i))
      modifies this`threads, this`inPlace, this`setAside, writer
      ensures writer.Valid() && Matches() && writer.ring == old(writer.ring)
      ensures old(Target(i)) < |old(inPlace)| == |old(setAside)|
      ensures View() == S.Flush(S.Route(old(View()), i, old(Target(i))), i, old(Target(i)), aligned)
    {
      var target := Target(i);
      Append(i);
      aligned := FlushBuffer(i, target);
    }

    // Thread i has nothing left and polls the end sentinel.
    predicate CanNote(i: nat)
      requires i < |threads|
      reads this
    {
      arrivals == [] && threads[i].rest == [] && !threads[i].exhausted
    }

    method Note(i: nat)
      requires Valid() && i < |threads| && CanNote(i)
      modifies this`threads
      ensures Valid() && |threads| == |old(threads)| && S.ToRoute(threads) == old(S.ToRoute(threads))
      ensures S.ToClean(threads, NumBuckets()) < old(S.ToClean(threads, NumBuckets()))
    {
      ghost var s := View();
      assert S.ThreadInv(s, threads[i], NumBuckets(), capacity);
      assert closed != {} ==> S.Done(threads[i], NumBuckets());
      S.AdvanceKeepsInv(s, i, 0, assign, NumBuckets(), capacity, input);
      threads := threads[i := threads[i].(exhausted := true, cleaned := 0)];
      assert View() == S.Advance(s, i, 0);
      S.WorkUpdate(s.threads, i, threads[i], NumBuckets());
    }

    // Thread i sends its next buffer to the writer, or frees it if it is empty.
    predicate CanClean(i: nat)
      requires i < |threads| && writer.cfg.align > 0
      reads this, writer
    {
      && threads[i].exhausted && threads[i].cleaned < NumBuckets() && threads[i].cleaned < |threads[i].bufs|
      && var buf := threads[i].bufs[threads[i].cleaned];
      buf != [] ==> CanFlush(threads[i].cleaned, buf)
    }

    method Clean(i: nat)
      requires Valid() && i < |threads| && CanClean(i)
      modifies this`threads, this`inPlace, this`setAside, writer
      ensures Valid() && writer.ring == old(writer.ring)
      ensures |threads| == |old(threads)| && S.ToRoute(threads) == old(S.ToRoute(threads))
      ensures S.ToClean(threads, NumBuckets()) < old(S.ToClean(threads, NumBuckets()))
    {
      ghost var s := View();
      assert S.ThreadInv(s, threads[i], NumBuckets(), capacity);
      assert !S.Done(threads[i], NumBuckets());
      if threads[i].bufs[threads[i].cleaned] != [] {
        FlushAndSkip(i);
      } else {
        FreeAndSkip(i);
      }
      S.WorkUpdate(s.threads, i, threads[i], NumBuckets());
    }

    method FlushAndSkip(i: nat)
      requires Valid() && i < |threads| && closed == {} && threads[i].exhausted && threads[i].cleaned < NumBuckets()
      requires |threads[i].bufs| == NumBuckets() && CanFlush(threads[i].cleaned, threads[i].bufs[threads[i].cleaned])
      modifies this`threads, this`inPlace, this`setAside, writer
      ensures Valid() && writer.ring == old(writer.ring) && |threads| == |old(threads)|
      ensures threads[i].exhausted && threads[i].cleaned == old(threads)[i].cleaned + 1
      ensures threads[i].rest == old(threads)[i].rest
      ensures threads == old(threads)[i := threads[i]]
    {
      ghost var s := View();
      var b := threads[i].cleaned;
      ghost var aligned := FlushThenSkip(i, b);
      S.FlushAndAdvance(s, i, aligned, assign, NumBuckets(), capacity, input);
      S.FlushAdvanceThreads(s, i, b, aligned);
    }

    method FlushThenSkip(i: nat, b: nat) returns (ghost aligned: bool)
      requires writer.Valid() && Matches() && closed == {}
      requires i < |threads| && b < NumBuckets() && b < |threads[i].bufs|
      requires CanFlush(b, threads[i].bufs[b])
      modifies this`threads, this`inPlace, this`setAside, writer
      ensures writer.Valid() && Matches() && writer.ring == old(writer.ring)
      ensures b < |old(inPlace)| == |old(setAside)|
      ensures View() == S.Advance(S.Flush(old(View()), i, b, aligned), i, b + 1)
    {
      aligned := FlushBuffer(i, b);
      Skip(i, b + 1);
    }

    // An empty buffer is only freed.
    method FreeAndSkip(i: nat)
      requires Valid() && i < |threads| && closed == {} && threads[i].exhausted && threads[i].cleaned < NumBuckets()
      requires |threads[i].bufs| == NumBuckets() && threads[i].bufs[threads[i].cleaned] == []
      modifies this`threads
      ensures Valid() && |threads| == |old(threads)|
      ensures threads[i].exhausted && threads[i].cleaned == old(threads)[i].cleaned + 1
      ensures threads[i].rest == old(threads)[i].rest
      ensures threads == old(threads)[i := threads[i]]
    {
      S.FreeAndAdvance(View(), i, assign, NumBuckets(), capacity, input);
      Skip(i, threads[i].cleaned + 1);
    }

    method Skip(i: nat, cleaned: nat)
      requires i < |threads|
      modifies this`threads
      ensures View() == S.Advance(old(View()), i, cleaned)
    {
      threads := threads[i := threads[i].(exhausted := true, cleaned := cleaned)];
    }

    // CleanUp of one bucket, after all threads have returned.
    method Close(b: nat)
      requires Valid() && b < NumBuckets() && b !in closed
      requires S.AllDone(threads, NumBuckets())
      modifies this`closed, writer
      ensures Valid() && closed == old(closed) + {b} && writer.open == old(writer.open) - {b}
    {
      writer.CloseBucket(b);
      closed := closed + {b};
    }

    // Every interleaving of the threads: at each moment any enabled step may be taken. The loop
    // ends because each step uses up work, and it cannot end early: a thread that waits for a
    // free request is released by the I/O threads.
    method RunToCompletion()
      requires Valid() && closed == {} && |threads| > 0
      modifies this, writer
      ensures Valid() && arrivals == [] && S.AllDone(threads, NumBuckets())
      ensures forall b :: 0 <= b < NumBuckets() ==> b in closed
      ensures writer.inHand == {} && writer.pendingRequests == [] && writer.ring == {}
    {
      while
        invariant Valid() && |threads| == |old(threads)|
        decreases |arrivals|, S.ToRoute(threads), S.ToClean(threads, NumBuckets()), writer.open, writer.Backlog()
      {
        case exists i :: 0 <= i < |threads| && CanStep(i) =>
          StepAny();
        case S.AllDone(threads, NumBuckets()) && exists b :: 0 <= b < NumBuckets() && b !in closed =>
          CloseAny();
        case writer.inHand != {} || writer.pendingRequests != [] || writer.ring != {} =>
          WriterStep();
      }
      NoStepLeft();
    }

    // Some thread that can take a step takes it.
    method StepAny()
      requires Valid() && exists i :: 0 <= i < |threads| && CanStep(i)
      modifies this, writer
      ensures Valid() && |threads| == |old(threads)| && closed == old(closed)
      ensures (old(|arrivals|), old(S.ToRoute(threads)), old(S.ToClean(threads, NumBuckets()))
               decreases to |arrivals|, S.ToRoute(threads), S.ToClean(threads, NumBuckets()))
    {
      var i :| 0 <= i < |threads| && CanStep(i);
      StepThread(i);
    }

    method CloseAny()
      requires Valid() && S.AllDone(threads, NumBuckets()) && exists b :: 0 <= b < NumBuckets() && b !in closed
      modifies this`closed, writer
      ensures Valid() && writer.open < old(writer.open)
    {
      var b :| 0 <= b < NumBuckets() && b !in closed;
      Close(b);
    }

    // The writer's part: a detached request is submitted, or an I/O thread takes a step.
    method WriterStep()
      requires Valid() && (writer.inHand != {} || writer.pendingRequests != [] || writer.ring != {})
      modifies writer
      ensures Valid() && writer.open == old(writer.open) && writer.Backlog() < old(writer.Backlog())
    {
      writer.IOStep();
    }

    predicate CanStep(i: nat)
      requires i < |threads| && writer.cfg.align > 0
      reads this, writer
    {
      CanPoll(i) || CanRoute(i) || CanNote(i) || CanClean(i)
    }

    method StepThread(i: nat)
      requires Valid() && i < |threads| && CanStep(i)
      modifies this, writer
      ensures Valid() && |threads| == |old(threads)| && closed == old(closed)
      ensures (old(|arrivals|), old(S.ToRoute(threads)), old(S.ToClean(threads, NumBuckets()))
               decreases to |arrivals|, S.ToRoute(threads), S.ToClean(threads, NumBuckets()))
    {
      if CanPoll(i) {
        Poll(i);
      } else if CanRoute(i) {
        Route(i);
      } else if CanNote(i) {
        Note(i);
      } else {
        Clean(i);
      }
    }

    predicate CanPoll(i: nat)
      requires i < |threads|
      reads this
    {
      arrivals != [] && threads[i].rest == []
    }

    // When no thread and no I/O thread can take a step, all threads have finished.
    lemma NoStepLeft()
      requires Valid() && |threads| > 0
      requires forall i :: 0 <= i < |threads| ==> !CanStep(i)
      requires writer.inHand == {} && writer.pendingRequests == [] && writer.ring == {}
      ensures arrivals == [] && S.AllDone(threads, NumBuckets())
    {
      WriterState.NeverStuck(writer.View());
      forall i | 0 <= i < |threads| ensures S.Done(threads[i], NumBuckets()) {
        if !S.Done(threads[i], NumBuckets()) {
          ThreadHasStep(i);
        }
      }
      assert S.ThreadInv(View(), threads[0], NumBuckets(), capacity);
    }

    lemma ThreadHasStep(i: nat)
      requires Valid() && i < |threads| && !S.Done(threads[i], NumBuckets()) && writer.freeRequests != []
      ensures CanStep(i)
    {
      assert S.ThreadInv(View(), threads[i], NumBuckets(), capacity);
      if threads[i].rest != [] {
        writer.HoldsRequest(Target(i));
      } else if threads[i].exhausted {
        writer.HoldsRequest(threads[i].cleaned);
      }
    }
  }
}
