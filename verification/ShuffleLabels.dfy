// The labels that the shuffle gives to the elements of its input: their random numbers depend on
// nothing else (Plaidlay/examples/Extern_random_shuffle.h).
module ShuffleLabels {
  import opened Sequences
  import opened Shares
  import opened ExternalSequence
  import opened BlockDisk

  predicate InRange(hs: seq<Header>, m: nat)
  {
    forall k :: 0 <= k < |hs| ==> hs[k].index < m
  }

  // The number of elements of the chunk with each index below m; of headers with the same index
  // the last one counts.
  function Elems(hs: seq<Header>, m: nat): (r: seq<nat>)
    requires InRange(hs, m)
    ensures |r| == m
  {
    if hs == [] then seq(m, _ => 0)
    else
      var n := |hs| - 1;
      Elems(hs[..n], m)[hs[n].index := hs[n].used]
  }

  // The label of the first element of the chunk with index i.
  function Label(hs: seq<Header>, i: nat): nat
    requires InRange(hs, |hs|) && i <= |hs|
  {
    Total(Elems(hs, |hs|)[..i])
  }

  // The two loops that compute the labels; an index out of range is refused.
  method ComputeLabels(hs: seq<Header>) returns (ok: bool, before: seq<nat>, total: nat)
    ensures ok <==> InRange(hs, |hs|)
    ensures ok ==> |before| == |hs| && total == Label(hs, |hs|)
    ensures ok ==> forall i :: 0 <= i < |hs| ==> before[i] == Label(hs, i)
  {
    var elems: seq<nat> := seq(|hs|, _ => 0);
    for k := 0 to |hs|
      invariant InRange(hs[..k], |hs|) && elems == Elems(hs[..k], |hs|)
    {
      if hs[k].index >= |hs| {
        return false, [], 0;
      }
      assert hs[..k + 1][..k] == hs[..k];
      elems := elems[hs[k].index := hs[k].used];
    }
    assert hs[..|hs|] == hs;
    ok := true;
    before, total := PrefixSums(elems);
  }

  method PrefixSums(elems: seq<nat>) returns (before: seq<nat>, total: nat)
    ensures |before| == |elems| && total == Total(elems[..|elems|])
    ensures forall i :: 0 <= i < |elems| ==> before[i] == Total(elems[..i])
  {
    before, total := [], 0;
    for i := 0 to |elems|
      invariant |before| == i && total == Total(elems[..i])
      invariant forall j :: 0 <= j < i ==> before[j] == Total(elems[..j])
    {
      TotalStep(elems, i);
      before := before + [total];
      total := total + elems[i];
    }
  }

  lemma TotalStep(ns: seq<nat>, i: nat)
    requires i < |ns|
    ensures Total(ns[..i + 1]) == Total(ns[..i]) + ns[i]
  {
    assert ns[..i + 1][..i] == ns[..i];
  }

  // ---- labels are distinct -----------------------------------------------------------------

  ghost predicate Distinct(hs: seq<Header>)
  {
    forall j, k :: 0 <= j < k < |hs| ==> hs[j].index != hs[k].index
  }

  lemma {:induction false} ElemsAt(hs: seq<Header>, m: nat, k: nat)
    requires InRange(hs, m) && Distinct(hs) && k < |hs|
    ensures Elems(hs, m)[hs[k].index] == hs[k].used
  {
    var n := |hs| - 1;
    if k < n {
      ElemsAt(hs[..n], m, k);
    }
  }

  lemma {:induction false} LabelsAscend(ns: seq<nat>, i: nat, j: nat)
    requires i < j <= |ns|
    ensures Total(ns[..i]) + ns[i] <= Total(ns[..j])
    decreases j
  {
    TotalStep(ns, j - 1);
    if i < j - 1 {
      LabelsAscend(ns, i, j - 1);
    }
  }

  // With distinct indices no two elements have the same label, and all labels are below the
  // number of elements.
  lemma LabelsDistinct(hs: seq<Header>, j: nat, a: nat, k: nat, b: nat)
    requires InRange(hs, |hs|) && Distinct(hs) && j < |hs| && k < |hs| && a < hs[j].used && b < hs[k].used
    ensures Label(hs, hs[j].index) + a < Label(hs, |hs|)
    ensures Label(hs, hs[j].index) + a == Label(hs, hs[k].index) + b ==> j == k && a == b
  {
    var ns, x, y := Elems(hs, |hs|), hs[j].index, hs[k].index;
    ElemsAt(hs, |hs|, j);
    ElemsAt(hs, |hs|, k);
    LabelsAscend(ns, x, |hs|);
    if x < y {
      LabelsAscend(ns, x, y);
    } else if y < x {
      LabelsAscend(ns, y, x);
    } else {
      assert j == k;
    }
  }

  // The number of elements is then computed as it is.
  lemma {:induction false} ElemsTotal<T>(st: Store<T>, hs: seq<Header>, m: nat)
    requires InRange(hs, m) && Distinct(hs) && AllLocated(st, hs)
    ensures Total(Elems(hs, m)) == |Denote(st, hs)|
  {
    if hs == [] {
      NoElems(m);
      assert Items(st, hs) == [];
    } else {
      var n := |hs| - 1;
      ElemsTotal(st, hs[..n], m);
      NotYet(hs[..n], m, hs[n].index);
      TotalUpdate(Elems(hs[..n], m), hs[n].index, hs[n].used);
      assert hs == hs[..n] + [hs[n]];
      ElementsOfSnoc(st, hs[..n], hs[n]);
      assert Located(st, hs[n]);
    }
  }

  lemma {:induction false} NoElems(m: nat)
    ensures Total(seq(m, _ => 0)) == 0
  {
    if m > 0 {
      NoElems(m - 1);
      assert seq(m, _ => 0)[..m - 1] == seq(m - 1, _ => 0);
    }
  }

  lemma {:induction false} NotYet(hs: seq<Header>, m: nat, i: nat)
    requires InRange(hs, m) && i < m && forall k :: 0 <= k < |hs| ==> hs[k].index != i
    ensures Elems(hs, m)[i] == 0
  {
    if hs != [] {
      NotYet(hs[..|hs| - 1], m, i);
    }
  }

  // ---- the labelled input ------------------------------------------------------------------

  // The chunks of the input with the labels of their first elements.
  ghost function Labelled<T>(st: Store<T>, hs: seq<Header>): (r: seq<Chunk<T>>)
    requires InRange(hs, |hs|)
    ensures |r| == |hs| && forall k :: 0 <= k < |hs| ==> r[k] == Chunk(Block(st, hs[k]), Label(hs, hs[k].index))
  {
    seq(|hs|, k requires 0 <= k < |hs| => Chunk(Block(st, hs[k]), Label(hs, hs[k].index)))
  }

  // A chunk as a worker takes it from the reader.
  function Arrival<T>(before: seq<nat>, item: Item<T>): Chunk<T>
  {
    Chunk(item.data, if item.key < |before| then before[item.key] else 0)
  }

  function Arrivals<T>(before: seq<nat>, items: seq<Item<T>>): (r: seq<Chunk<T>>)
    ensures |r| == |items| && forall a :: 0 <= a < |r| ==> r[a] == Arrival(before, items[a])
  {
    seq(|items|, a requires 0 <= a < |items| => Arrival(before, items[a]))
  }

  // In whatever order the chunks arrive, the elements have the same labels.
  lemma ArrivalsLabelled<T(!new)>(st: Store<T>, hs: seq<Header>, before: seq<nat>, items: seq<Item<T>>)
    requires InRange(hs, |hs|) && |before| == |hs| && forall i :: 0 <= i < |hs| ==> before[i] == Label(hs, i)
    requires multiset(items) == multiset(Items(st, hs))
    ensures multiset(Concat(IndexedParts(Arrivals(before, items)))) == multiset(Concat(IndexedParts(Labelled(st, hs))))
  {
    var f := (item: Item<T>) => Indexed(item.data, Arrival(before, item).indexStart);
    FlatMapAnyOrder(f, items, Items(st, hs));
    assert MapParts(f, items) == IndexedParts(Arrivals(before, items));
    assert MapParts(f, Items(st, hs)) == IndexedParts(Labelled(st, hs));
  }

  lemma LabelledElements<T>(st: Store<T>, hs: seq<Header>)
    requires InRange(hs, |hs|)
    ensures AllElements(Labelled(st, hs)) == multiset(Denote(st, hs))
  {
    ElementsJoined(Labelled(st, hs), Data(Items(st, hs)));
  }
}
