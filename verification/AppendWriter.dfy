// The worker of the append writer: requests are issued at the end of its files, in turn, and
// complete in any order (utils/unordered_file_writer.h).
module AppendWriter {
  import opened Arithmetic
  import opened Sequences
  import opened Disk

  datatype Request = Request(file: nat, offset: nat, data: seq<Byte>)

  // NORMAL, WAITING_FOR_COMPLETION, ALL_DONE
  datatype Phase = Normal | Waiting | AllDone

  // ---- what the files must hold ------------------------------------------------------------

  // The requests up to the first empty one: a request of size zero ends the worker.
  function UpToEmpty(pushes: seq<seq<Byte>>): (r: seq<seq<Byte>>)
    ensures |r| <= |pushes| && r == pushes[..|r|]
    ensures forall k :: 0 <= k < |r| ==> r[k] != []
    ensures |r| < |pushes| ==> pushes[|r|] == []
  {
    if pushes == [] || pushes[0] == [] then [] else [pushes[0]] + UpToEmpty(pushes[1..])
  }

  lemma NotEmpty(pushes: seq<seq<Byte>>, k: nat)
    requires k < |UpToEmpty(pushes)|
    ensures k < |pushes| && pushes[k] != []
  {
    assert UpToEmpty(pushes)[k] == pushes[k];
  }

  // The turn of the file that the next request goes to, after m requests.
  function Turn(m: nat, numFiles: nat): (f: nat)
    requires numFiles > 0
    ensures f < numFiles
  {
    if m == 0 then 0 else Wrapped(Turn(m - 1, numFiles) + 1, numFiles)
  }

  function Wrapped(t: nat, numFiles: nat): nat
  {
    if t == numFiles then 0 else t
  }

  lemma WrappedIsRemainder(t: nat, numFiles: nat)
    requires 0 < numFiles && t <= numFiles
    ensures t % numFiles == Wrapped(t, numFiles)
  {
    if t < numFiles {
      SmallRemainder(t, numFiles);
    } else {
      Remainder(1, 0, numFiles);
    }
  }

  // The files take turns.
  lemma {:induction false} TurnIsRemainder(m: nat, numFiles: nat)
    requires numFiles > 0
    ensures Turn(m, numFiles) == m % numFiles
  {
    if m > 0 {
      TurnIsRemainder(m - 1, numFiles);
      NextTurn(Turn(m - 1, numFiles), m - 1, numFiles);
    } else {
      SmallRemainder(0, numFiles);
    }
  }

  lemma NextTurn(t: nat, m: nat, numFiles: nat)
    requires numFiles > 0 && t == m % numFiles
    ensures t < numFiles && Wrapped(t + 1, numFiles) == (m + 1) % numFiles
  {
    DivMod(m, numFiles);
    NextRemainder(m, numFiles);
    WrappedIsRemainder(t + 1, numFiles);
  }

  // The blocks of file f among the first ones: every numFiles-th, from block f on.
  ghost function Share(blocks: seq<seq<Byte>>, numFiles: nat, f: nat): seq<seq<Byte>>
    requires numFiles > 0
  {
    if blocks == [] then []
    else
      var n := |blocks| - 1;
      Share(blocks[..n], numFiles, f) + if n % numFiles == f then [blocks[n]] else []
  }

  // Every file receives its share of the blocks, in push order.
  lemma {:induction false} DealtAreShares(blocks: seq<seq<Byte>>, numFiles: nat, f: nat)
    requires f < numFiles
    ensures Dealt(blocks, numFiles)[f] == Concat(Share(blocks, numFiles, f))
  {
    if blocks != [] {
      var n := |blocks| - 1;
      DealtAreShares(blocks[..n], numFiles, f);
      NextDealt(blocks, numFiles, f);
      NextShare(blocks, numFiles, f);
      ConcatSnoc(Share(blocks[..n], numFiles, f), blocks[n]);
    }
  }

  lemma NextDealt(blocks: seq<seq<Byte>>, numFiles: nat, f: nat)
    requires f < numFiles && blocks != []
    ensures var n := |blocks| - 1; var before := Dealt(blocks[..n], numFiles)[f];
            Dealt(blocks, numFiles)[f] == if Turn(n, numFiles) == f then before + blocks[n] else before
  {
  }

  lemma NextShare(blocks: seq<seq<Byte>>, numFiles: nat, f: nat)
    requires numFiles > 0 && blocks != []
    ensures var n := |blocks| - 1; var before := Share(blocks[..n], numFiles, f);
            Share(blocks, numFiles, f) == if Turn(n, numFiles) == f then before + [blocks[n]] else before
  {
    TurnIsRemainder(|blocks| - 1, numFiles);
  }

  lemma HoldShares(files: seq<File>, blocks: seq<seq<Byte>>, numFiles: nat)
    requires numFiles > 0 && |files| == numFiles
    requires forall f :: 0 <= f < numFiles ==> HasContents(files[f], Dealt(blocks, numFiles)[f])
    ensures forall f :: 0 <= f < numFiles ==> HasContents(files[f], Concat(Share(blocks, numFiles, f)))
  {
    forall f | 0 <= f < numFiles ensures HasContents(files[f], Concat(Share(blocks, numFiles, f))) {
      DealtAreShares(blocks, numFiles, f);
    }
  }

  // What the files receive when the blocks are dealt to them in turn.
  function Dealt(blocks: seq<seq<Byte>>, numFiles: nat): (r: seq<seq<Byte>>)
    requires numFiles > 0
    ensures |r| == numFiles
  {
    if blocks == [] then seq(numFiles, _ => [])
    else
      var n := |blocks| - 1;
      var before := Dealt(blocks[..n], numFiles);
      before[Turn(n, numFiles) := before[Turn(n, numFiles)] + blocks[n]]
  }

  lemma {:induction false} DealtToOne(blocks: seq<seq<Byte>>)
    ensures Dealt(blocks, 1) == [Concat(blocks)]
  {
    if blocks != [] {
      DealtToOne(blocks[..|blocks| - 1]);
    }
  }

  lemma {:induction false} DealtSize(blocks: seq<seq<Byte>>, numFiles: nat)
    requires numFiles > 0
    ensures |Concat(Dealt(blocks, numFiles))| == |Concat(blocks)|
  {
    if blocks == [] {
      ConcatEmpty(Dealt(blocks, numFiles));
    } else {
      var n := |blocks| - 1;
      var before, t := Dealt(blocks[..n], numFiles), Turn(n, numFiles);
      DealtSize(blocks[..n], numFiles);
      ConcatUpdate(before, t, before[t] + blocks[n]);
      ResizedBlock(Concat(Dealt(blocks, numFiles)), Concat(before), before[t], blocks[n]);
    }
  }

  lemma ResizedBlock<T>(after: seq<T>, before: seq<T>, was: seq<T>, more: seq<T>)
    requires multiset(after) + multiset(was) == multiset(before) + multiset(was + more)
    ensures |after| == |before| + |more|
  {
    assert |multiset(after) + multiset(was)| == |multiset(before) + multiset(was + more)|;
  }

  // Empty blocks do not count.
  lemma {:induction false} EmptyBlocks(blocks: seq<seq<Byte>>, m: nat, numFiles: nat)
    requires numFiles > 0 && m <= |blocks| && forall k :: m <= k < |blocks| ==> blocks[k] == []
    ensures Dealt(blocks, numFiles) == Dealt(blocks[..m], numFiles)
    decreases |blocks| - m
  {
    if m == |blocks| {
      assert blocks[..m] == blocks;
    } else {
      var n := |blocks| - 1;
      var before := blocks[..n];
      EmptyBlocks(before, m, numFiles);
      assert before[..m] == blocks[..m];
      LastBlockEmpty(blocks, numFiles);
    }
  }

  lemma LastBlockEmpty(blocks: seq<seq<Byte>>, numFiles: nat)
    requires numFiles > 0 && blocks != [] && blocks[|blocks| - 1] == []
    ensures Dealt(blocks, numFiles) == Dealt(blocks[..|blocks| - 1], numFiles)
  {
    var before, t := Dealt(blocks[..|blocks| - 1], numFiles), Turn(|blocks| - 1, numFiles);
    assert before[t] + [] == before[t];
    assert before[t := before[t]] == before;
  }

  lemma {:induction false} SomeLost(blocks: seq<seq<Byte>>, m: nat, k: nat)
    requires m <= k < |blocks| && blocks[k] != []
    ensures |Concat(blocks[..m])| < |Concat(blocks)|
  {
    ConcatSplit(blocks, m);
    var rest := blocks[m..];
    assert rest[k - m] == blocks[k];
    ConcatSplit(rest, k - m);
    ConcatFirst(rest[k - m..]);
  }

  // Everything pushed is written exactly if nothing but empty blocks follows an empty one.
  lemma NothingLostIff(pushes: seq<seq<Byte>>, numFiles: nat)
    requires numFiles > 0
    ensures Dealt(UpToEmpty(pushes), numFiles) == Dealt(pushes, numFiles)
       <==> forall k :: |UpToEmpty(pushes)| <= k < |pushes| ==> pushes[k] == []
  {
    var m := |UpToEmpty(pushes)|;
    if forall k :: m <= k < |pushes| ==> pushes[k] == [] {
      EmptyBlocks(pushes, m, numFiles);
    } else {
      var k :| m <= k < |pushes| && pushes[k] != [];
      SomeLost(pushes, m, k);
      DealtSize(pushes, numFiles);
      DealtSize(UpToEmpty(pushes), numFiles);
    }
  }

  // An empty push in front of another one loses it.
  lemma LostPush()
    ensures var pushes: seq<seq<Byte>> := [[], [7]];
            Dealt(UpToEmpty(pushes), 1) == [[]] && Dealt(pushes, 1) == [[7]]
  {
    var pushes: seq<seq<Byte>> := [[], [7]];
    assert UpToEmpty(pushes) == [];
    DealtToOne(UpToEmpty(pushes));
    DealtToOne(pushes);
    assert pushes[..1] == [[]] && pushes[..1][..0] == [];
    assert Concat(pushes) == [7];
  }

  // ---- invariant of one file ---------------------------------------------------------------

  // The part of data that a request writes.
  ghost predicate Covers(r: Request, f: nat, k: nat)
  {
    r.file == f && r.offset <= k < r.offset + |r.data|
  }

  // Byte k is written or about to be.
  ghost predicate Accounted(file: File, flight: seq<Request>, f: nat, k: nat)
  {
    k in file || exists i :: 0 <= i < |flight| && Covers(flight[i], f, k)
  }

  // Every byte of data is in the file or in an outstanding request, and nothing else is.
  ghost predicate FileInv(file: File, flight: seq<Request>, f: nat, data: seq<Byte>)
  {
    && (forall k: nat :: k in file ==> k < |data| && file[k] == data[k])
    && (forall i :: 0 <= i < |flight| && flight[i].file == f ==>
          flight[i].offset + |flight[i].data| <= |data|
              && flight[i].data == data[flight[i].offset..flight[i].offset + |flight[i].data|])
    && (forall k: nat {:trigger Accounted(file, flight, f, k)} :: k < |data| ==> Accounted(file, flight, f, k))
  }

  lemma IssueKeepsFile(file: File, flight: seq<Request>, f: nat, data: seq<Byte>, more: seq<Byte>)
    requires FileInv(file, flight, f, data)
    ensures FileInv(file, flight + [Request(f, |data|, more)], f, data + more)
  {
    var flight', data' := flight + [Request(f, |data|, more)], data + more;
    forall k: nat | k < |data'| ensures Accounted(file, flight', f, k) {
      if k >= |data| {
        assert Covers(flight'[|flight|], f, k);
      } else if k !in file {
        assert Accounted(file, flight, f, k);
        var i :| 0 <= i < |flight| && Covers(flight[i], f, k);
        assert flight'[i] == flight[i];
      }
    }
  }

  lemma OtherFile(file: File, flight: seq<Request>, f: nat, data: seq<Byte>, r: Request)
    requires FileInv(file, flight, f, data) && r.file != f
    ensures FileInv(file, flight + [r], f, data)
  {
    var flight' := flight + [r];
    forall k: nat | k < |data| ensures Accounted(file, flight', f, k) {
      assert Accounted(file, flight, f, k);
      if k !in file {
        var i :| 0 <= i < |flight| && Covers(flight[i], f, k);
        assert flight'[i] == flight[i];
      }
    }
  }

  function Without(flight: seq<Request>, i: nat): seq<Request>
    requires i < |flight|
  {
    flight[..i] + flight[i + 1..]
  }

  lemma StillThere(flight: seq<Request>, i: nat, j: nat) returns (p: nat)
    requires i < |flight| && j < |flight| && i != j
    ensures p < |Without(flight, i)| && Without(flight, i)[p] == flight[j]
  {
    p := if j < i then j else j - 1;
  }

  lemma CompleteKeepsFile(file: File, flight: seq<Request>, f: nat, data: seq<Byte>, i: nat)
    requires FileInv(file, flight, f, data) && i < |flight|
    ensures FileInv(if flight[i].file == f then WriteAt(file, flight[i].offset, flight[i].data)
                    else file, Without(flight, i), f, data)
  {
    var r := flight[i];
    var file' := if r.file == f then WriteAt(file, r.offset, r.data) else file;
    var flight' := Without(flight, i);
    forall k: nat | k < |data| ensures Accounted(file', flight', f, k) {
      assert Accounted(file, flight, f, k);
      if k !in file' {
        var j :| 0 <= j < |flight| && Covers(flight[j], f, k);
        var p := StillThere(flight, i, j);
        assert Covers(flight'[p], f, k);
      }
    }
  }

  // ---- the worker --------------------------------------------------------------------------

  class AppendWorker {
    const pushes: seq<seq<Byte>>
    const numFiles: nat
    const maxOutstanding: nat
    // How many requests have been polled, and what the files hold.
    var polled: nat
    var currentFile: nat
    var files: seq<File>
    var bytesIssued: seq<nat>
    var flight: seq<Request>
    var phase: Phase

    ghost function Issued(): (r: seq<seq<Byte>>)
      requires numFiles > 0 && polled <= |pushes|
      reads this
      ensures |r| == numFiles
    {
      Dealt(pushes[..polled], numFiles)
    }

    ghost predicate Valid()
      reads this
    {
      && numFiles > 0 && maxOutstanding > 0 && polled <= |UpToEmpty(pushes)|
      && |files| == |bytesIssued| == numFiles && currentFile == Turn(polled, numFiles)
      && |flight| <= maxOutstanding
      && (forall i :: 0 <= i < |flight| ==> flight[i].file < numFiles)
      && (forall f :: 0 <= f < numFiles ==> bytesIssued[f] == |Issued()[f]|)
      && (forall f {:trigger files[f]} :: 0 <= f < numFiles ==> FileInv(files[f], flight, f, Issued()[f]))
      && (phase != Normal ==> polled == |UpToEmpty(pushes)|)
      && (phase == AllDone ==> flight == [])
    }

    constructor (pushes: seq<seq<Byte>>, numFiles: nat, maxOutstanding: nat)
      requires numFiles > 0 && maxOutstanding > 0
      ensures Valid() && this.pushes == pushes && this.numFiles == numFiles
    {
      this.pushes, this.numFiles, this.maxOutstanding := pushes, numFiles, maxOutstanding;
      polled, currentFile, flight, phase := 0, 0, [], Normal;
      files, bytesIssued := seq(numFiles, _ => map[]), seq(numFiles, _ => 0);
    }

    // The writer's queue hands out the next request, or an empty one once it is closed.
    method Poll()
      requires Valid() && phase == Normal && |flight| < maxOutstanding
      modifies this
      ensures Valid()
      ensures polled == old(polled) + 1 || (polled == old(polled) && phase == Waiting && flight == old(flight))
    {
      var data := if polled < |pushes| then pushes[polled] else [];
      if data == [] {
        StopsHere();
        phase := Waiting;
      } else {
        Issue(data);
      }
    }

    lemma StopsHere()
      requires Valid() && (polled == |pushes| || pushes[polled] == [])
      ensures polled == |UpToEmpty(pushes)|
    {
      if polled < |UpToEmpty(pushes)| {
        NotEmpty(pushes, polled);
      }
    }

    method Issue(data: seq<Byte>)
      requires Valid() && phase == Normal && polled < |pushes| && data == pushes[polled] != []
      requires |flight| < maxOutstanding
      modifies this
      ensures Valid() && polled == old(polled) + 1
    {
      var f := currentFile;
      ghost var before, issued := pushes[..polled], Issued();
      ghost var flight0 := flight;
      assert polled < |UpToEmpty(pushes)|;
      assert pushes[..polled + 1][..polled] == before;
      flight := flight + [Request(f, bytesIssued[f], data)];
      bytesIssued := bytesIssued[f := bytesIssued[f] + |data|];
      WrappedIsRemainder(currentFile + 1, numFiles);
      currentFile := (currentFile + 1) % numFiles;
      polled := polled + 1;
      assert Issued() == issued[f := issued[f] + data];
      forall g | 0 <= g < numFiles ensures FileInv(files[g], flight, g, Issued()[g]) {
        if g == f {
          IssueKeepsFile(files[f], flight0, f, issued[f], data);
        } else {
          OtherFile(files[g], flight0, g, issued[g], flight[|flight0|]);
        }
      }
    }

    // Any outstanding write completes.
    method Complete(i: nat)
      requires Valid() && i < |flight|
      modifies this`files, this`flight
      ensures Valid() && |flight| < |old(flight)|
    {
      ghost var files0, flight0 := files, flight;
      var r := flight[i];
      files := files[r.file := WriteAt(files[r.file], r.offset, r.data)];
      flight := Without(flight, i);
      forall g | 0 <= g < numFiles ensures FileInv(files[g], flight, g, Issued()[g]) {
        CompleteKeepsFile(files0[g], flight0, g, Issued()[g], i);
      }
    }

    // Whatever the order of completions, each file ends up with the blocks dealt to it, in the
    // order in which they were pushed, up to the first empty one. Nothing is lost exactly if only
    // empty blocks follow it.
    method RunToCompletion()
      requires Valid()
      modifies this
      ensures phase == AllDone && |files| == numFiles
      ensures forall f :: 0 <= f < numFiles ==> HasContents(files[f], Dealt(UpToEmpty(pushes), numFiles)[f])
      ensures forall f :: 0 <= f < numFiles ==> HasContents(files[f], Concat(Share(UpToEmpty(pushes), numFiles, f)))
      ensures (forall k :: |UpToEmpty(pushes)| <= k < |pushes| ==> pushes[k] == [])
         <==> Dealt(UpToEmpty(pushes), numFiles) == Dealt(pushes, numFiles)
    {
      while phase != AllDone
        invariant Valid()
        decreases |pushes| - polled, |flight|, if phase == Normal then 2 else if phase == Waiting then 1 else 0
      {
        if {
          case flight != [] =>
            var i :| 0 <= i < |flight|;
            Complete(i);
          case phase == Normal && |flight| < maxOutstanding =>
            Poll();
          case phase == Waiting && flight == [] =>
            phase := AllDone;
        }
      }
      NothingLostIff(pushes, numFiles);
      assert pushes[..polled] == UpToEmpty(pushes);
      forall f | 0 <= f < numFiles ensures HasContents(files[f], Issued()[f]) {
        assert FileInv(files[f], flight, f, Issued()[f]);
        AllInFile(files[f], f, Issued()[f]);
      }
      HoldShares(files, UpToEmpty(pushes), numFiles);
    }
  }

  lemma AllInFile(file: File, f: nat, data: seq<Byte>)
    requires FileInv(file, [], f, data)
    ensures HasContents(file, data)
  {
    forall k: nat | k < |data| ensures k in file {
      assert Accounted(file, [], f, k);
    }
  }
}
