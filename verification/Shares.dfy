// Which elements of the input belong in which bucket, when an assigner routes every element by
// its value and its index.
module Shares {
  import opened Sequences

  // A piece of input as the reader delivers it: indexStart is the index of its first element.
  datatype Chunk<T> = Chunk(data: seq<T>, indexStart: nat)

  // Of the elements s, the first of which has index k, those assigned to bucket b.
  ghost function Portion<T>(s: seq<T>, k: nat, assign: (T, nat) -> nat, b: nat): multiset<T>
  {
    if s == [] then multiset{} else Alone(s[0], k, assign, b) + Portion(s[1..], k + 1, assign, b)
  }

  // The element with index k, if it is assigned to bucket b.
  ghost function Alone<T>(x: T, k: nat, assign: (T, nat) -> nat, b: nat): multiset<T>
  {
    if assign(x, k) == b then multiset{x} else multiset{}
  }

  ghost function Share<T>(chunks: seq<Chunk<T>>, assign: (T, nat) -> nat, b: nat): multiset<T>
  {
    if chunks == [] then multiset{}
    else Portion(chunks[0].data, chunks[0].indexStart, assign, b) + Share(chunks[1..], assign, b)
  }

  ghost function AllElements<T>(chunks: seq<Chunk<T>>): multiset<T>
  {
    if chunks == [] then multiset{} else multiset(chunks[0].data) + AllElements(chunks[1..])
  }

  lemma {:induction false} FromPortion<T>(s: seq<T>, k: nat, assign: (T, nat) -> nat, b: nat, x: T) returns (i: nat)
    requires x in Portion(s, k, assign, b)
    ensures i < |s| && s[i] == x && assign(x, k + i) == b
  {
    if x in Alone(s[0], k, assign, b) {
      i := 0;
    } else {
      InRest(Alone(s[0], k, assign, b), Portion(s[1..], k + 1, assign, b), x);
      i := FromPortion(s[1..], k + 1, assign, b, x);
      i := i + 1;
    }
  }

  lemma InRest<T>(first: multiset<T>, rest: multiset<T>, x: T)
    requires x in first + rest && x !in first
    ensures x in rest
  {
  }

  // What is in a bucket's share is an element of some chunk that is assigned to the bucket.
  lemma FromShare<T>(chunks: seq<Chunk<T>>, assign: (T, nat) -> nat, b: nat, x: T) returns (a: nat, i: nat)
    requires x in Share(chunks, assign, b)
    ensures a < |chunks| && i < |chunks[a].data| && chunks[a].data[i] == x
    ensures assign(x, chunks[a].indexStart + i) == b
  {
    a := FromChunk(chunks, assign, b, x);
    i := FromPortion(chunks[a].data, chunks[a].indexStart, assign, b, x);
  }

  lemma {:induction false} FromChunk<T>(chunks: seq<Chunk<T>>, assign: (T, nat) -> nat, b: nat, x: T)
    returns (a: nat)
    requires x in Share(chunks, assign, b)
    ensures a < |chunks| && x in Portion(chunks[a].data, chunks[a].indexStart, assign, b)
  {
    var first, rest := chunks[0], chunks[1..];
    if x in Portion(first.data, first.indexStart, assign, b) {
      a := 0;
    } else {
      InRest(Portion(first.data, first.indexStart, assign, b), Share(rest, assign, b), x);
      a := FromChunk(rest, assign, b, x);
      a := a + 1;
    }
  }

  ghost function PortionList<T(!new)>(s: seq<T>, k: nat, assign: (T, nat) -> nat, n: nat): (r: seq<multiset<T>>)
    ensures |r| == n && forall b :: 0 <= b < n ==> r[b] == Portion(s, k, assign, b)
  {
    seq(n, b requires 0 <= b < n => Portion(s, k, assign, b))
  }

  ghost function ShareList<T(!new)>(chunks: seq<Chunk<T>>, assign: (T, nat) -> nat, n: nat): (r: seq<multiset<T>>)
    ensures |r| == n && forall b :: 0 <= b < n ==> r[b] == Share(chunks, assign, b)
  {
    seq(n, b requires 0 <= b < n => Share(chunks, assign, b))
  }

  lemma {:induction false} PortionsTotal<T(!new)>(s: seq<T>, k: nat, assign: (T, nat) -> nat, n: nat)
    requires forall x, i :: assign(x, i) < n
    ensures Sum(PortionList(s, k, assign, n)) == multiset(s)
  {
    if s == [] {
      var none := PortionList(s, k, assign, n);
      SumOfEmpty(none);
    } else {
      PortionsTotal(s[1..], k + 1, assign, n);
      PortionsFirst(s, k, assign, n);
      FirstAndRest(s);
    }
  }

  lemma FirstAndRest<T>(s: seq<T>)
    requires s != []
    ensures multiset(s) == multiset{s[0]} + multiset(s[1..])
  {
    assert s == [s[0]] + s[1..];
  }

  lemma PortionsFirst<T(!new)>(s: seq<T>, k: nat, assign: (T, nat) -> nat, n: nat)
    requires s != [] && assign(s[0], k) < n
    ensures Sum(PortionList(s, k, assign, n)) == multiset{s[0]} + Sum(PortionList(s[1..], k + 1, assign, n))
  {
    SumOfOne(s[0], k, assign, n);
    SumPlus(Ones(s[0], k, assign, n), PortionList(s[1..], k + 1, assign, n), PortionList(s, k, assign, n));
  }

  ghost function Ones<T(!new)>(x: T, k: nat, assign: (T, nat) -> nat, n: nat): (r: seq<multiset<T>>)
    ensures |r| == n && forall b :: 0 <= b < n ==> r[b] == Alone(x, k, assign, b)
  {
    seq(n, b requires 0 <= b < n => Alone(x, k, assign, b))
  }

  lemma SumOfOne<T(!new)>(x: T, k: nat, assign: (T, nat) -> nat, n: nat)
    requires assign(x, k) < n
    ensures Sum(Ones(x, k, assign, n)) == multiset{x}
  {
    var empty: seq<multiset<T>>, b := seq(n, _ => multiset{}), assign(x, k);
    SumOfEmpty(empty);
    SumUpdate(empty, b, multiset{x});
    assert Ones(x, k, assign, n) == empty[b := multiset{x}];
    assert Sum(empty[b := multiset{x}]) + empty[b] == Sum(empty[b := multiset{x}]);
  }

  lemma {:induction false} SumPlus<T(!new)>(a: seq<multiset<T>>, b: seq<multiset<T>>, c: seq<multiset<T>>)
    requires |a| == |b| == |c| && forall i :: 0 <= i < |a| ==> c[i] == a[i] + b[i]
    ensures Sum(c) == Sum(a) + Sum(b)
  {
    if a != [] {
      var n := |a| - 1;
      SumPlus(a[..n], b[..n], c[..n]);
      assert c[n] == a[n] + b[n];
    }
  }

  // Every element belongs in exactly one bucket: the shares together are all the elements.
  lemma {:induction false} SharesTotal<T(!new)>(chunks: seq<Chunk<T>>, assign: (T, nat) -> nat, n: nat)
    requires forall x, i :: assign(x, i) < n
    ensures Sum(ShareList(chunks, assign, n)) == AllElements(chunks)
  {
    if chunks == [] {
      SumOfEmpty(ShareList(chunks, assign, n));
    } else {
      var first := chunks[0];
      PortionsTotal(first.data, first.indexStart, assign, n);
      SharesTotal(chunks[1..], assign, n);
      SumPlus(PortionList(first.data, first.indexStart, assign, n), ShareList(chunks[1..], assign, n),
              ShareList(chunks, assign, n));
    }
  }

  lemma {:induction false} ElementsJoined<T>(chunks: seq<Chunk<T>>, parts: seq<seq<T>>)
    requires |chunks| == |parts| && forall a :: 0 <= a < |chunks| ==> chunks[a].data == parts[a]
    ensures AllElements(chunks) == multiset(Concat(parts))
  {
    if chunks != [] {
      ElementsJoined(chunks[1..], parts[1..]);
      ConcatFirst(parts);
    }
  }

  // Every bucket has exactly the elements that are assigned to it.
  ghost predicate HoldShares<T>(parts: seq<seq<T>>, assign: (T, nat) -> nat, input: seq<Chunk<T>>)
  {
    forall b :: 0 <= b < |parts| ==> multiset(parts[b]) == Share(input, assign, b)
  }

  // The buckets together are the input.
  lemma BucketsTotal<T(!new)>(parts: seq<seq<T>>, assign: (T, nat) -> nat, input: seq<Chunk<T>>)
    requires HoldShares(parts, assign, input) && forall x, i :: assign(x, i) < |parts|
    ensures multiset(Concat(parts)) == AllElements(input)
  {
    var shares := ShareList(input, assign, |parts|);
    SharesTotal(input, assign, |parts|);
    SumIsConcat(shares, parts);
  }

  // ---- the order of arrival ----------------------------------------------------------------

  // Elements together with their indices, the first of which is k.
  ghost function Indexed<T>(s: seq<T>, k: nat): (r: seq<(T, nat)>)
    ensures |r| == |s| && forall i :: 0 <= i < |r| ==> r[i] == (s[i], k + i)
  {
    seq(|s|, i requires 0 <= i < |s| => (s[i], k + i))
  }

  ghost function IndexedParts<T>(chunks: seq<Chunk<T>>): (r: seq<seq<(T, nat)>>)
    ensures |r| == |chunks|
    ensures forall a :: 0 <= a < |r| ==> r[a] == Indexed(chunks[a].data, chunks[a].indexStart)
  {
    seq(|chunks|, a requires 0 <= a < |chunks| => Indexed(chunks[a].data, chunks[a].indexStart))
  }

  ghost function Pick<T>(assign: (T, nat) -> nat, b: nat, p: (T, nat)): seq<T>
  {
    if assign(p.0, p.1) == b then [p.0] else []
  }

  lemma {:induction false} PortionPicked<T>(s: seq<T>, k: nat, assign: (T, nat) -> nat, b: nat,
                                            pick: ((T, nat)) -> seq<T>)
    requires forall p :: pick(p) == Pick(assign, b, p)
    ensures Portion(s, k, assign, b) == multiset(FlatMap(pick, Indexed(s, k)))
  {
    if s == [] {
      assert MapParts(pick, Indexed(s, k)) == [];
    } else {
      PortionPicked(s[1..], k + 1, assign, b, pick);
      PickFirst(s, k, pick);
      assert multiset(Pick(assign, b, (s[0], k))) == Alone(s[0], k, assign, b);
    }
  }

  lemma PickFirst<T>(s: seq<T>, k: nat, pick: ((T, nat)) -> seq<T>)
    requires s != []
    ensures FlatMap(pick, Indexed(s, k)) == pick((s[0], k)) + FlatMap(pick, Indexed(s[1..], k + 1))
  {
    var first, rest := [(s[0], k)], Indexed(s[1..], k + 1);
    assert Indexed(s, k) == first + rest;
    FlatMapAppend(pick, first, rest);
    FlatMapOne(pick, (s[0], k));
  }

  lemma FlatMapOne<X, Y>(f: X -> seq<Y>, x: X)
    ensures FlatMap(f, [x]) == f(x)
  {
    assert MapParts(f, [x]) == [] + [f(x)];
    ConcatSnoc([], f(x));
  }

  lemma {:induction false} SharePicked<T>(chunks: seq<Chunk<T>>, assign: (T, nat) -> nat, b: nat,
                                          pick: ((T, nat)) -> seq<T>)
    requires forall p :: pick(p) == Pick(assign, b, p)
    ensures Share(chunks, assign, b) == multiset(FlatMap(pick, Concat(IndexedParts(chunks))))
  {
    if chunks == [] {
      assert MapParts(pick, []) == [];
    } else {
      SharePicked(chunks[1..], assign, b, pick);
      PortionPicked(chunks[0].data, chunks[0].indexStart, assign, b, pick);
      ConcatFirst(IndexedParts(chunks));
      assert IndexedParts(chunks)[1..] == IndexedParts(chunks[1..]);
      FlatMapAppend(pick, IndexedParts(chunks)[0], Concat(IndexedParts(chunks[1..])));
    }
  }

  // The same elements with the same indices make the same buckets.
  lemma SameShares<T(!new)>(a: seq<Chunk<T>>, c: seq<Chunk<T>>, assign: (T, nat) -> nat,
                            b: nat)
    requires multiset(Concat(IndexedParts(a))) == multiset(Concat(IndexedParts(c)))
    ensures Share(a, assign, b) == Share(c, assign, b)
  {
    var pick := (p: (T, nat)) => Pick(assign, b, p);
    SharePicked(a, assign, b, pick);
    SharePicked(c, assign, b, pick);
    FlatMapAnyOrder(pick, Concat(IndexedParts(a)), Concat(IndexedParts(c)));
  }
}
