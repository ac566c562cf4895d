// The emitting side of the chunk engine: parallel tasks claim output slots and disk regions
// with separate atomic increments (Plaidlay/external_engine/external_engine.h).
module EngineState {
  import opened Sequences
  import opened ExternalSequence

  // numSsds output files of blocks of blockBytes bytes; hash picks the file of a slot.
  datatype Config = Config(numSsds: nat, blockBytes: nat, hash: nat -> nat)

  // Where a task is within an emission: before it, with a slot claimed, or with its header
  // written for a region of its own.
  datatype Stage = Idle | Claimed(slot: nat) | Reserved(slot: nat)

  // waiting: the emissions of chunks not yet polled. todo and stage: for each task of the
  // current batch, the emissions still to make and the stage of the first. writes are queued
  // blocks, store the written ones; log lists the emission of every claimed slot, and placed
  // and pushed are the slots with a header and with a queued block.
  datatype State<T> = State(waiting: seq<seq<Item<T>>>, todo: seq<seq<Item<T>>>, stage: seq<Stage>,
                            headers: seq<Header>, offsets: seq<nat>, writes: Store<T>, store: Store<T>,
                            log: seq<Item<T>>, placed: set<nat>, pushed: set<nat>)

  // ---- invariant ---------------------------------------------------------------------------

  // A header in its slot describes a region below the file's offset.
  ghost predicate HeaderInv<T>(c: Config, s: State<T>, k: nat)
  {
    && k < |s.log| <= |s.headers| && c.blockBytes > 0
    && var h := s.headers[k];
    && h.index == s.log[k].key && h.used == |s.log[k].data|
    && h.file < |s.offsets| && h.base + c.blockBytes <= s.offsets[h.file]
  }

  // The data of slot k is queued or written at the region of its header.
  ghost predicate Stored<T>(s: State<T>, k: nat)
  {
    && k < |s.log| <= |s.headers|
    && var a := (s.headers[k].file, s.headers[k].base);
    if a in s.writes then s.writes[a] == s.log[k].data else a in s.store && s.store[a] == s.log[k].data
  }

  ghost predicate SlotsInv<T>(c: Config, s: State<T>)
  {
    && s.pushed <= s.placed
    && (forall k {:trigger HeaderInv(c, s, k)} :: k in s.placed ==> HeaderInv(c, s, k))
    && (forall k {:trigger Stored(s, k)} :: k in s.pushed ==> Stored(s, k))
    && (forall j, k :: j in s.placed && k in s.placed && j != k ==>
          j < |s.headers| && k < |s.headers| && Apart(s.headers[j], s.headers[k], c.blockBytes))
  }

  ghost predicate TaskInv<T>(s: State<T>, i: nat)
  {
    && i < |s.todo| == |s.stage|
    && match s.stage[i]
       case Idle => true
       case Claimed(k) => k < |s.log| && k !in s.placed && s.todo[i] != [] && s.log[k] == s.todo[i][0]
       case Reserved(k) => k < |s.log| && k in s.placed && k !in s.pushed && s.todo[i] != [] && s.log[k] == s.todo[i][0]
  }

  // Two tasks never work on the same slot.
  ghost predicate SlotsDiffer(x: Stage, y: Stage)
  {
    x != Idle && y != Idle ==> x.slot != y.slot
  }

  ghost predicate TasksInv<T>(s: State<T>)
  {
    && |s.todo| == |s.stage|
    && (forall i {:trigger TaskInv(s, i)} :: 0 <= i < |s.todo| ==> TaskInv(s, i))
    && (forall i, j :: 0 <= i < j < |s.stage| ==> SlotsDiffer(s.stage[i], s.stage[j]))
  }

  // Every claimed slot is pushed or in a task's hands.
  ghost predicate Owned<T>(s: State<T>, k: nat)
  {
    k in s.pushed || exists i: nat :: i < |s.stage| && s.stage[i] != Idle && s.stage[i].slot == k
  }

  ghost predicate AllOwned<T>(s: State<T>)
  {
    forall k {:trigger Owned(s, k)} :: 0 <= k < |s.log| ==> Owned(s, k)
  }

  // What task i has not claimed a slot for yet.
  ghost function Rest<T>(todo: seq<Item<T>>, stage: Stage): seq<Item<T>>
  {
    if stage != Idle && todo != [] then todo[1..] else todo
  }

  ghost function Unclaimed<T>(s: State<T>): (r: seq<seq<Item<T>>>)
    requires |s.todo| == |s.stage|
    ensures |r| == |s.todo| && forall i :: 0 <= i < |r| ==> r[i] == Rest(s.todo[i], s.stage[i])
  {
    seq(|s.todo|, i requires 0 <= i < |s.todo| => Rest(s.todo[i], s.stage[i]))
  }

  // The claimed emissions, the unclaimed ones and those of waiting chunks are all there are.
  ghost predicate Conserved<T>(s: State<T>, total: multiset<Item<T>>)
    requires |s.todo| == |s.stage|
  {
    (multiset(s.log) + multiset(Concat(Unclaimed(s)))) + multiset(Concat(s.waiting)) == total
  }

  ghost predicate Inv<T(!new)>(c: Config, s: State<T>, total: multiset<Item<T>>)
  {
    && c.blockBytes > 0 && |s.offsets| == c.numSsds > 0
    && |s.log| <= |s.headers| && |total| <= |s.headers|
    && SlotsInv(c, s) && TasksInv(s) && AllOwned(s) && Conserved(s, total)
  }

  // ---- claiming a slot ---------------------------------------------------------------------

  // out_count.fetch_add(1) by task i.
  function Claim<T>(s: State<T>, i: nat): State<T>
    requires i < |s.todo| == |s.stage| && s.todo[i] != []
  {
    s.(stage := s.stage[i := Claimed(|s.log|)], log := s.log + [s.todo[i][0]])
  }

  lemma ClaimBalance<T(!new)>(s: State<T>, i: nat, total: multiset<Item<T>>)
    requires i < |s.todo| == |s.stage| && s.todo[i] != [] && s.stage[i] == Idle
    requires Conserved(s, total)
    ensures Conserved(Claim(s, i), total)
  {
    var t := Claim(s, i);
    var x := s.todo[i][0];
    assert Unclaimed(t) == Unclaimed(s)[i := s.todo[i][1..]];
    assert s.todo[i] == [x] + s.todo[i][1..];
    ConcatUpdate(Unclaimed(s), i, s.todo[i][1..]);
    TakeOne(multiset(Concat(Unclaimed(s))), multiset(Concat(Unclaimed(t))), multiset(s.todo[i]),
            multiset(s.todo[i][1..]), multiset{x});
    Transfer(multiset(Concat(Unclaimed(s))), multiset(s.log), multiset(Concat(Unclaimed(t))), multiset(t.log),
             multiset{x});
  }

  // The slots never run out: there is one for every emission.
  lemma SlotsSuffice<T(!new)>(s: State<T>, total: multiset<Item<T>>)
    requires |s.todo| == |s.stage| && Conserved(s, total)
    ensures |s.log| <= |total|
  {
    assert |multiset(s.log)| <= |total|;
  }

  lemma ClaimKeepsInv<T(!new)>(c: Config, s: State<T>, i: nat, total: multiset<Item<T>>)
    requires Inv(c, s, total) && i < |s.todo| && s.todo[i] != [] && s.stage[i] == Idle
    ensures |s.log| < |s.headers| && Inv(c, Claim(s, i), total)
  {
    var t := Claim(s, i);
    ClaimBalance(s, i, total);
    SlotsSuffice(t, total);
    forall k | k in s.placed ensures k < |s.log| {
      assert HeaderInv(c, s, k);
    }
    ClaimKeepsSlots(c, s, i);
    ClaimKeepsTasks(s, i);
    forall k | 0 <= k < |t.log| ensures Owned(t, k) {
      ClaimKeepsOwned(s, i, k);
    }
  }

  lemma ClaimKeepsSlots<T(!new)>(c: Config, s: State<T>, i: nat)
    requires SlotsInv(c, s) && i < |s.todo| == |s.stage| && s.todo[i] != [] && |s.log| < |s.headers|
    ensures SlotsInv(c, Claim(s, i))
  {
    var t := Claim(s, i);
    forall k | k in t.placed ensures HeaderInv(c, t, k) {
      assert HeaderInv(c, s, k);
    }
    forall k | k in t.pushed ensures Stored(t, k) {
      assert Stored(s, k);
    }
  }

  lemma ClaimKeepsTasks<T(!new)>(s: State<T>, i: nat)
    requires TasksInv(s) && i < |s.todo| && s.todo[i] != [] && s.stage[i] == Idle
    requires forall k :: k in s.placed ==> k < |s.log|
    ensures TasksInv(Claim(s, i))
  {
    var t := Claim(s, i);
    forall j | 0 <= j < |t.todo| ensures TaskInv(t, j) {
      assert TaskInv(s, j);
    }
    forall j, k | 0 <= j < k < |t.stage| ensures SlotsDiffer(t.stage[j], t.stage[k]) {
      assert TaskInv(s, j) && TaskInv(s, k);
    }
  }

  lemma ClaimKeepsOwned<T>(s: State<T>, i: nat, k: nat)
    requires i < |s.todo| == |s.stage| && s.todo[i] != [] && s.stage[i] == Idle
    requires k == |s.log| || Owned(s, k)
    ensures Owned(Claim(s, i), k)
  {
    var t := Claim(s, i);
    if k == |s.log| {
      assert t.stage[i] == Claimed(k);
    } else if k !in s.pushed {
      var j: nat :| j < |s.stage| && s.stage[j] != Idle && s.stage[j].slot == k;
      assert t.stage[j] == s.stage[j];
    }
  }

  // ---- reserving a region ------------------------------------------------------------------

  // file_offsets[f].fetch_add(block_size_bytes), and the header in the task's own slot.
  function Reserve<T>(c: Config, s: State<T>, i: nat, f: nat): State<T>
    requires i < |s.todo| == |s.stage| && s.stage[i].Claimed? && s.stage[i].slot < |s.log| <= |s.headers|
    requires |s.offsets| == c.numSsds && f < c.numSsds
  {
    var k := s.stage[i].slot;
    var x := s.log[k];
    s.(stage := s.stage[i := Reserved(k)], headers := s.headers[k := Header(f, s.offsets[f], |x.data|, x.key)],
       offsets := s.offsets[f := s.offsets[f] + c.blockBytes], placed := s.placed + {k})
  }

  lemma ReserveKeepsInv<T(!new)>(c: Config, s: State<T>, i: nat, f: nat, total: multiset<Item<T>>)
    requires Inv(c, s, total) && i < |s.todo| && s.stage[i].Claimed? && f < c.numSsds
    ensures s.stage[i].slot < |s.log| && s.todo[i] != [] && s.log[s.stage[i].slot] == s.todo[i][0]
    ensures Inv(c, Reserve(c, s, i, f), total)
  {
    assert TaskInv(s, i);
    var t := Reserve(c, s, i, f);
    assert Unclaimed(t) == Unclaimed(s);
    ReserveKeepsSlots(c, s, i, f);
    ReserveKeepsTasks(c, s, i, f);
    forall k | 0 <= k < |t.log| ensures Owned(t, k) {
      assert Owned(s, k);
      if k !in s.pushed {
        var j: nat :| j < |s.stage| && s.stage[j] != Idle && s.stage[j].slot == k;
        assert t.stage[j].slot == k;
      }
    }
  }

  lemma ReserveKeepsSlots<T(!new)>(c: Config, s: State<T>, i: nat, f: nat)
    requires SlotsInv(c, s) && i < |s.todo| == |s.stage| && s.stage[i].Claimed?
    requires TaskInv(s, i) && |s.log| <= |s.headers|
    requires f < |s.offsets| == c.numSsds && c.blockBytes > 0
    ensures SlotsInv(c, Reserve(c, s, i, f))
  {
    var t := Reserve(c, s, i, f);
    var n := s.stage[i].slot;
    forall k | k in t.placed ensures HeaderInv(c, t, k) {
      assert k == n || HeaderInv(c, s, k);
    }
    forall k | k in t.pushed ensures Stored(t, k) {
      assert Stored(s, k);
    }
    forall k | k in s.placed
      ensures Apart(t.headers[k], t.headers[n], c.blockBytes) && Apart(t.headers[n], t.headers[k], c.blockBytes)
    {
      assert HeaderInv(c, s, k);
    }
  }

  lemma ReserveKeepsTasks<T(!new)>(c: Config, s: State<T>, i: nat, f: nat)
    requires TasksInv(s) && i < |s.todo| && s.stage[i].Claimed? && TaskInv(s, i)
    requires s.pushed <= s.placed && |s.log| <= |s.headers| && f < |s.offsets| == c.numSsds
    ensures TasksInv(Reserve(c, s, i, f))
  {
    var t := Reserve(c, s, i, f);
    forall j | 0 <= j < |t.todo| ensures TaskInv(t, j) {
      assert TaskInv(s, j);
      assert j < i ==> SlotsDiffer(s.stage[j], s.stage[i]);
      assert i < j ==> SlotsDiffer(s.stage[i], s.stage[j]);
    }
    forall j, k | 0 <= j < k < |t.stage| ensures SlotsDiffer(t.stage[j], t.stage[k]) {
      assert SlotsDiffer(s.stage[j], s.stage[k]);
    }
  }

  // ---- queueing the block ------------------------------------------------------------------

  // writer_.Push; the task goes on to its next emission.
  function Push<T>(s: State<T>, i: nat): State<T>
    requires i < |s.todo| == |s.stage| && s.stage[i].Reserved? && s.stage[i].slot < |s.log| <= |s.headers|
    requires s.todo[i] != []
  {
    var k := s.stage[i].slot;
    s.(todo := s.todo[i := s.todo[i][1..]], stage := s.stage[i := Idle],
       writes := s.writes[(s.headers[k].file, s.headers[k].base) := s.log[k].data], pushed := s.pushed + {k})
  }

  lemma PushKeepsInv<T(!new)>(c: Config, s: State<T>, i: nat, total: multiset<Item<T>>)
    requires Inv(c, s, total) && i < |s.todo| && s.stage[i].Reserved?
    ensures s.stage[i].slot < |s.log| && s.todo[i] != [] && s.log[s.stage[i].slot] == s.todo[i][0]
    ensures Inv(c, Push(s, i), total)
  {
    assert TaskInv(s, i);
    var t := Push(s, i);
    assert Unclaimed(t) == Unclaimed(s);
    PushKeepsSlots(c, s, i);
    PushKeepsTasks(s, i);
    forall k | 0 <= k < |t.log| ensures Owned(t, k) {
      assert Owned(s, k);
      if k !in t.pushed {
        var j: nat :| j < |s.stage| && s.stage[j] != Idle && s.stage[j].slot == k;
        assert t.stage[j] == s.stage[j];
      }
    }
  }

  lemma PushKeepsSlots<T(!new)>(c: Config, s: State<T>, i: nat)
    requires SlotsInv(c, s) && i < |s.todo| == |s.stage| && s.stage[i].Reserved?
    requires TaskInv(s, i) && |s.log| <= |s.headers| && c.blockBytes > 0
    ensures SlotsInv(c, Push(s, i))
  {
    var t := Push(s, i);
    var n := s.stage[i].slot;
    forall k | k in t.placed ensures HeaderInv(c, t, k) {
      assert HeaderInv(c, s, k);
    }
    forall k | k in t.pushed ensures Stored(t, k) {
      assert k == n || (Stored(s, k) && Apart(s.headers[k], s.headers[n], c.blockBytes));
    }
  }

  lemma PushKeepsTasks<T(!new)>(s: State<T>, i: nat)
    requires TasksInv(s) && i < |s.todo| && s.stage[i].Reserved? && TaskInv(s, i) && |s.log| <= |s.headers|
    ensures TasksInv(Push(s, i))
  {
    var t := Push(s, i);
    forall j | 0 <= j < |t.todo| ensures TaskInv(t, j) {
      assert TaskInv(s, j);
      assert j < i ==> SlotsDiffer(s.stage[j], s.stage[i]);
      assert i < j ==> SlotsDiffer(s.stage[i], s.stage[j]);
    }
    forall j, k | 0 <= j < k < |t.stage| ensures SlotsDiffer(t.stage[j], t.stage[k]) {
      assert SlotsDiffer(s.stage[j], s.stage[k]);
    }
  }

  // ---- the writer and the batch loop -------------------------------------------------------

  // The writer completes any queued write.
  function Complete<T>(s: State<T>, a: (nat, nat)): State<T>
    requires a in s.writes
  {
    s.(writes := s.writes - {a}, store := s.store[a := s.writes[a]])
  }

  lemma CompleteKeepsInv<T(!new)>(c: Config, s: State<T>, a: (nat, nat), total: multiset<Item<T>>)
    requires Inv(c, s, total) && a in s.writes
    ensures Inv(c, Complete(s, a), total)
  {
    var t := Complete(s, a);
    assert Unclaimed(t) == Unclaimed(s);
    forall k | k in t.placed ensures HeaderInv(c, t, k) {
      assert HeaderInv(c, s, k);
    }
    forall k | k in t.pushed ensures Stored(t, k) {
      assert Stored(s, k);
    }
    SameTasks(s, t);
  }

  lemma SameTasks<T(!new)>(s: State<T>, t: State<T>)
    requires TasksInv(s) && AllOwned(s)
    requires t == s.(writes := t.writes, store := t.store, waiting := t.waiting)
    ensures TasksInv(t) && AllOwned(t)
  {
    forall j | 0 <= j < |t.todo| ensures TaskInv(t, j) {
      assert TaskInv(s, j);
    }
    forall k | 0 <= k < |t.log| ensures Owned(t, k) {
      assert Owned(s, k);
    }
  }

  // Nothing is left to emit in the current batch.
  predicate BatchDone<T>(s: State<T>)
  {
    |s.todo| == |s.stage| && forall i {:trigger s.todo[i]} :: 0 <= i < |s.todo| ==>
        s.todo[i] == [] && s.stage[i] == Idle
  }

  // A batch polls up to n chunks, one per task.
  function NextBatch<T>(s: State<T>, n: nat): State<T>
    requires n <= |s.waiting|
  {
    s.(waiting := s.waiting[n..], todo := s.waiting[..n], stage := seq(n, _ => Idle))
  }

  // Once a batch is done, every claimed slot is pushed.
  lemma AllPushed<T(!new)>(s: State<T>)
    requires AllOwned(s) && BatchDone(s)
    ensures forall k :: 0 <= k < |s.log| ==> k in s.pushed
    ensures Concat(Unclaimed(s)) == []
  {
    ConcatEmpty(Unclaimed(s));
    forall k | 0 <= k < |s.log| ensures k in s.pushed {
      assert Owned(s, k);
      assert forall i :: 0 <= i < |s.stage| ==> s.todo[i] == [] && s.stage[i] == Idle;
    }
  }

  // Chunks join the queue once they are read.
  function Arrive<T>(s: State<T>, emissions: seq<seq<Item<T>>>): State<T>
  {
    s.(waiting := s.waiting + emissions)
  }

  lemma ArriveKeepsInv<T(!new)>(c: Config, s: State<T>, emissions: seq<seq<Item<T>>>, total: multiset<Item<T>>)
    requires Inv(c, s, total) && |total| + |Concat(emissions)| <= |s.headers|
    ensures Inv(c, Arrive(s, emissions), total + multiset(Concat(emissions)))
  {
    var t := Arrive(s, emissions);
    ConcatAppend(s.waiting, emissions);
    assert Unclaimed(t) == Unclaimed(s);
    Assembled(multiset(s.log) + multiset(Concat(Unclaimed(s))), multiset(Concat(s.waiting)),
              multiset(Concat(emissions)));
    SameSlots(c, s, t);
    SameTasks(s, t);
  }

  lemma NextBatchConserves<T(!new)>(s: State<T>, n: nat, total: multiset<Item<T>>)
    requires |s.todo| == |s.stage| && Conserved(s, total) && n <= |s.waiting| && Concat(Unclaimed(s)) == []
    ensures Conserved(NextBatch(s, n), total)
  {
    var t := NextBatch(s, n);
    ConcatSplit(s.waiting, n);
    assert Unclaimed(t) == s.waiting[..n];
    assert multiset(s.log) + multiset(Concat(Unclaimed(s))) == multiset(s.log);
    Assembled(multiset(s.log), multiset(Concat(s.waiting[..n])), multiset(Concat(s.waiting[n..])));
  }

  lemma NextBatchKeepsInv<T(!new)>(c: Config, s: State<T>, n: nat, total: multiset<Item<T>>)
    requires Inv(c, s, total) && n <= |s.waiting| && BatchDone(s)
    ensures Inv(c, NextBatch(s, n), total)
  {
    AllPushed(s);
    NextBatchConserves(s, n, total);
    SameSlots(c, s, NextBatch(s, n));
    BatchStarts(s, n);
  }

  // Tasks and chunks do not matter to the slots.
  lemma SameSlots<T(!new)>(c: Config, s: State<T>, t: State<T>)
    requires SlotsInv(c, s) && t == s.(waiting := t.waiting, todo := t.todo, stage := t.stage)
    ensures SlotsInv(c, t)
  {
    forall k | k in t.placed ensures HeaderInv(c, t, k) {
      assert HeaderInv(c, s, k);
    }
    forall k | k in t.pushed ensures Stored(t, k) {
      assert Stored(s, k);
    }
  }

  lemma BatchStarts<T(!new)>(s: State<T>, n: nat)
    requires n <= |s.waiting| && forall k :: 0 <= k < |s.log| ==> k in s.pushed
    ensures TasksInv(NextBatch(s, n)) && AllOwned(NextBatch(s, n))
  {
  }
}
