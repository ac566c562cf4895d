// Sequences on disk: headers that locate blocks, ordered by their index (Plaidlay/chunk_header.h).
module ExternalSequence {
  import opened Sequences

  // used counts the valid elements of the block at base in the file; index is the ordering key.
  datatype Header = Header(file: nat, base: nat, used: nat, index: nat)

  // Blocks by file and base address.
  type Store<T> = map<(nat, nat), seq<T>>

  // A block of elements with its ordering key.
  datatype Item<T> = Item(key: nat, data: seq<T>)

  // ---- denotation --------------------------------------------------------------------------

  // The valid elements of a header's block.
  function Block<T>(st: Store<T>, h: Header): seq<T>
  {
    if (h.file, h.base) in st && h.used <= |st[(h.file, h.base)]| then st[(h.file, h.base)][..h.used] else []
  }

  function Items<T>(st: Store<T>, hs: seq<Header>): (r: seq<Item<T>>)
    ensures |r| == |hs| && forall k :: 0 <= k < |hs| ==> r[k] == Item(hs[k].index, Block(st, hs[k]))
  {
    seq(|hs|, k requires 0 <= k < |hs| => Item(hs[k].index, Block(st, hs[k])))
  }

  function Data<T>(items: seq<Item<T>>): (r: seq<seq<T>>)
    ensures |r| == |items| && forall k :: 0 <= k < |items| ==> r[k] == items[k].data
  {
    seq(|items|, k requires 0 <= k < |items| => items[k].data)
  }

  // The sequence that items in order stand for.
  function Elements<T>(items: seq<Item<T>>): seq<T>
  {
    Concat(Data(items))
  }

  // The sequence that headers in index order stand for.
  function Denote<T>(st: Store<T>, hs: seq<Header>): seq<T>
  {
    Elements(Items(st, hs))
  }

  lemma ElementsAppend<T>(a: seq<Item<T>>, b: seq<Item<T>>)
    ensures Elements(a + b) == Elements(a) + Elements(b)
  {
    assert Data(a + b) == Data(a) + Data(b);
    ConcatAppend(Data(a), Data(b));
  }

  lemma ElementsOfSnoc<T>(st: Store<T>, hs: seq<Header>, h: Header)
    ensures Elements(Items(st, hs + [h])) == Elements(Items(st, hs)) + Block(st, h)
  {
    assert Items(st, hs + [h]) == Items(st, hs) + [Item(h.index, Block(st, h))];
    assert Data(Items(st, hs + [h])) == Data(Items(st, hs)) + [Block(st, h)];
    ConcatSnoc(Data(Items(st, hs)), Block(st, h));
  }

  ghost predicate Increasing<T>(items: seq<Item<T>>)
  {
    forall i, j :: 0 <= i < j < |items| ==> items[i].key < items[j].key
  }

  ghost predicate Dense(hs: seq<Header>)
  {
    forall k :: 0 <= k < |hs| ==> hs[k].index == k
  }

  // ---- sorting by index --------------------------------------------------------------------

  function InsertHeader(h: Header, hs: seq<Header>): (r: seq<Header>)
    ensures |r| == |hs| + 1
  {
    if hs == [] || h.index <= hs[0].index then [h] + hs else [hs[0]] + InsertHeader(h, hs[1..])
  }

  // std::sort by index; with distinct indices the result is determined.
  function SortHeaders(hs: seq<Header>): (r: seq<Header>)
    ensures |r| == |hs|
  {
    if hs == [] then [] else InsertHeader(hs[0], SortHeaders(hs[1..]))
  }

  ghost function Insert<T>(x: Item<T>, items: seq<Item<T>>): (r: seq<Item<T>>)
    ensures multiset(r) == multiset(items) + multiset{x}
  {
    if items == [] || x.key <= items[0].key then [x] + items
    else
      assert items == [items[0]] + items[1..];
      [items[0]] + Insert(x, items[1..])
  }

  ghost function Sort<T>(items: seq<Item<T>>): (r: seq<Item<T>>)
    ensures multiset(r) == multiset(items)
  {
    if items == [] then []
    else
      assert items == [items[0]] + items[1..];
      Insert(items[0], Sort(items[1..]))
  }

  lemma ItemsAppend<T>(st: Store<T>, a: seq<Header>, b: seq<Header>)
    ensures Items(st, a + b) == Items(st, a) + Items(st, b)
  {
  }

  lemma ItemsCons<T>(st: Store<T>, h: Header, hs: seq<Header>)
    ensures Items(st, [h] + hs) == [Item(h.index, Block(st, h))] + Items(st, hs)
  {
  }

  lemma {:induction false} InsertItems<T>(st: Store<T>, h: Header, hs: seq<Header>)
    ensures Items(st, InsertHeader(h, hs)) == Insert(Item(h.index, Block(st, h)), Items(st, hs))
  {
    if hs == [] || h.index <= hs[0].index {
      ItemsCons(st, h, hs);
    } else {
      InsertItems(st, h, hs[1..]);
      assert Items(st, hs)[1..] == Items(st, hs[1..]);
      ItemsCons(st, hs[0], InsertHeader(h, hs[1..]));
    }
  }

  lemma {:induction false} SortItems<T>(st: Store<T>, hs: seq<Header>)
    ensures Items(st, SortHeaders(hs)) == Sort(Items(st, hs))
  {
    if hs != [] {
      SortItems(st, hs[1..]);
      assert Items(st, hs)[1..] == Items(st, hs[1..]);
      InsertItems(st, hs[0], SortHeaders(hs[1..]));
    }
  }

  ghost predicate Ordered<T>(items: seq<Item<T>>)
  {
    forall i, j :: 0 <= i < j < |items| ==> items[i].key <= items[j].key
  }

  lemma {:induction false} InsertOrdered<T>(x: Item<T>, items: seq<Item<T>>)
    requires Ordered(items)
    ensures Ordered(Insert(x, items))
  {
    if items != [] && x.key > items[0].key {
      InsertOrdered(x, items[1..]);
      InsertAbove(x, items[1..], items[0].key);
    }
  }

  // What is inserted and what was there stay above a bound.
  lemma InsertAbove<T>(x: Item<T>, items: seq<Item<T>>, bound: int)
    requires bound <= x.key && forall k :: 0 <= k < |items| ==> bound <= items[k].key
    ensures forall k :: 0 <= k < |Insert(x, items)| ==> bound <= Insert(x, items)[k].key
  {
    var r := Insert(x, items);
    forall k | 0 <= k < |r| ensures bound <= r[k].key {
      assert r[k] in multiset(r);
    }
  }

  lemma {:induction false} SortOrdered<T>(items: seq<Item<T>>)
    ensures Ordered(Sort(items))
  {
    if items != [] {
      SortOrdered(items[1..]);
      InsertOrdered(items[0], Sort(items[1..]));
    }
  }

  // Sorting a permutation of items with increasing keys gives exactly those items in order.
  lemma {:induction false} SortedUnique<T>(a: seq<Item<T>>, e: seq<Item<T>>)
    requires multiset(a) == multiset(e) && Ordered(a) && Increasing(e)
    ensures a == e
  {
    if e == [] {
      assert |multiset(a)| == |multiset(e)|;
    } else {
      SameHead(a, e);
      assert a == [a[0]] + a[1..] && e == [e[0]] + e[1..];
      SameTail(a, e);
      SortedUnique(a[1..], e[1..]);
    }
  }

  lemma SameTail<X>(a: seq<X>, e: seq<X>)
    requires multiset(a) == multiset(e) && a != [] && e != [] && a[0] == e[0]
    ensures multiset(a[1..]) == multiset(e[1..])
  {
    assert a == [a[0]] + a[1..] && e == [e[0]] + e[1..];
    assert multiset(a[1..]) == multiset(a) - multiset{a[0]};
    assert multiset(e[1..]) == multiset(e) - multiset{e[0]};
  }

  lemma SameHead<T>(a: seq<Item<T>>, e: seq<Item<T>>)
    requires multiset(a) == multiset(e) && Ordered(a) && Increasing(e) && e != []
    ensures a != [] && a[0] == e[0]
  {
    assert e[0] in multiset(a);
    var i :| 0 <= i < |a| && a[i] == e[0];
    assert a[0] in multiset(e);
    var j :| 0 <= j < |e| && e[j] == a[0];
    assert a[0].key <= a[i].key;
  }

  // The headers of blocks that are, in some order, the given items denote those items.
  lemma SortedHeadersDenote<T>(st: Store<T>, hs: seq<Header>, e: seq<Item<T>>)
    requires multiset(Items(st, hs)) == multiset(e) && Increasing(e)
    ensures Items(st, SortHeaders(hs)) == e
  {
    SortItems(st, hs);
    SortOrdered(Items(st, hs));
    SortedUnique(Sort(Items(st, hs)), e);
  }

  // Rewriting the indices of sorted headers to 0, 1, 2, ... does not change what they denote.
  function Densify(hs: seq<Header>): (r: seq<Header>)
    ensures |r| == |hs| && Dense(r)
  {
    seq(|hs|, k requires 0 <= k < |hs| => hs[k].(index := k))
  }

  lemma DensifyDenotes<T>(st: Store<T>, hs: seq<Header>)
    ensures Denote(st, Densify(hs)) == Denote(st, hs)
  {
    assert Data(Items(st, Densify(hs))) == Data(Items(st, hs));
  }

  // ---- disjoint regions --------------------------------------------------------------------

  // Two blocks do not overlap.
  ghost predicate Separate(a: (nat, nat), b: (nat, nat), blockBytes: nat)
  {
    a.0 != b.0 || a.1 + blockBytes <= b.1 || b.1 + blockBytes <= a.1
  }

  // The regions of two headers do not overlap.
  ghost predicate Apart(h: Header, g: Header, blockBytes: nat)
  {
    Separate((h.file, h.base), (g.file, g.base), blockBytes)
  }

  ghost predicate ApartFrom(h: Header, hs: seq<Header>, blockBytes: nat)
  {
    forall x :: x in hs ==> Apart(h, x, blockBytes)
  }

  // No two of the headers share any part of a region.
  ghost predicate AllApart(hs: seq<Header>, blockBytes: nat)
  {
    hs == [] || (ApartFrom(hs[0], hs[1..], blockBytes) && AllApart(hs[1..], blockBytes))
  }

  lemma {:induction false} AllApartPairs(hs: seq<Header>, blockBytes: nat)
    ensures AllApart(hs, blockBytes) <==> forall j, k :: 0 <= j < k < |hs| ==> Apart(hs[j], hs[k], blockBytes)
  {
    if hs != [] {
      AllApartPairs(hs[1..], blockBytes);
      var t := hs[1..];
      assert forall k {:trigger hs[k]} :: 1 <= k < |hs| ==> hs[k] == t[k - 1];
      if AllApart(hs, blockBytes) {
        forall j, k | 0 <= j < k < |hs| ensures Apart(hs[j], hs[k], blockBytes) {
          assert hs[k] in t;
          assert j > 0 ==> Apart(t[j - 1], t[k - 1], blockBytes);
        }
      }
      if forall j, k :: 0 <= j < k < |hs| ==> Apart(hs[j], hs[k], blockBytes) {
        forall j, k | 0 <= j < k < |t| ensures Apart(t[j], t[k], blockBytes) {
          assert t[j] == hs[j + 1] && t[k] == hs[k + 1];
        }
      }
    }
  }

  lemma {:induction false} InsertedApart(h: Header, hs: seq<Header>, blockBytes: nat)
    requires AllApart(hs, blockBytes) && ApartFrom(h, hs, blockBytes)
    ensures AllApart(InsertHeader(h, hs), blockBytes)
    ensures forall x :: x in InsertHeader(h, hs) ==> x == h || x in hs
  {
    if hs != [] && h.index > hs[0].index {
      InsertedApart(h, hs[1..], blockBytes);
      var r := InsertHeader(h, hs[1..]);
      assert InsertHeader(h, hs)[1..] == r;
      assert hs[0] in hs && forall x :: x in hs[1..] ==> x in hs;
      assert ApartFrom(hs[0], r, blockBytes);
    } else {
      assert InsertHeader(h, hs)[1..] == hs;
    }
  }

  // Sorting keeps the regions apart.
  lemma {:induction false} SortedApart(hs: seq<Header>, blockBytes: nat)
    requires AllApart(hs, blockBytes)
    ensures AllApart(SortHeaders(hs), blockBytes)
    ensures forall x :: x in SortHeaders(hs) ==> x in hs
  {
    if hs != [] {
      SortedApart(hs[1..], blockBytes);
      InsertedApart(hs[0], SortHeaders(hs[1..]), blockBytes);
    }
  }

  lemma DensifiedApart(hs: seq<Header>, blockBytes: nat)
    requires AllApart(hs, blockBytes)
    ensures AllApart(Densify(hs), blockBytes)
  {
    AllApartPairs(hs, blockBytes);
    AllApartPairs(Densify(hs), blockBytes);
  }

  ghost function Regions(hs: seq<Header>): (r: seq<(nat, nat)>)
    ensures |r| == |hs| && forall k :: 0 <= k < |hs| ==> r[k] == (hs[k].file, hs[k].base)
  {
    seq(|hs|, k requires 0 <= k < |hs| => (hs[k].file, hs[k].base))
  }

  // Headers for different regions among separate ones are apart.
  lemma DifferentRegionsApart(hs: seq<Header>, keys: set<(nat, nat)>, blockBytes: nat)
    requires forall k :: 0 <= k < |hs| ==> (hs[k].file, hs[k].base) in keys
    requires forall a, b :: a in keys && b in keys && a != b ==> Separate(a, b, blockBytes)
    requires forall j, k :: 0 <= j < k < |hs| ==> Regions(hs)[j] != Regions(hs)[k]
    ensures AllApart(hs, blockBytes)
  {
    forall j, k | 0 <= j < k < |hs| ensures Apart(hs[j], hs[k], blockBytes) {
      assert Regions(hs)[j] != Regions(hs)[k];
    }
    AllApartPairs(hs, blockBytes);
  }

  // When the headers use every region exactly once, their regions differ.
  lemma RegionsOnce(hs: seq<Header>, keys: set<(nat, nat)>)
    requires multiset(Regions(hs)) == multiset(keys)
    ensures forall k :: 0 <= k < |hs| ==> (hs[k].file, hs[k].base) in keys
    ensures forall j, k :: 0 <= j < k < |hs| ==> Regions(hs)[j] != Regions(hs)[k]
  {
    var r := Regions(hs);
    forall k | 0 <= k < |hs| ensures r[k] in keys {
      assert r[k] in multiset(r);
    }
    forall j, k | 0 <= j < k < |hs| ensures r[j] != r[k] {
      if r[j] == r[k] {
        TwiceIn(r, j, k);
      }
    }
  }

  // ---- headers tagged with an index --------------------------------------------------------

  // The headers with index b, in order.
  function Tagged(hs: seq<Header>, b: nat): (r: seq<Header>)
  {
    if hs == [] then []
    else
      var n := |hs| - 1;
      Tagged(hs[..n], b) + if hs[n].index == b then [hs[n]] else []
  }

  lemma TaggedSnoc(hs: seq<Header>, h: Header, b: nat)
    ensures Tagged(hs + [h], b) == if h.index == b then Tagged(hs, b) + [h] else Tagged(hs, b)
  {
    assert (hs + [h])[..|hs|] == hs;
    assert Tagged(hs, b) + [] == Tagged(hs, b);
  }

  lemma {:induction false} TaggedAppend(hs: seq<Header>, ks: seq<Header>, b: nat)
    ensures Tagged(hs + ks, b) == Tagged(hs, b) + Tagged(ks, b)
  {
    if ks == [] {
      assert hs + ks == hs;
    } else {
      var front, last := ks[..|ks| - 1], ks[|ks| - 1];
      TaggedAppend(hs, front, b);
      TaggedSnoc(hs + front, last, b);
      TaggedSnoc(front, last, b);
      SnocRegrouped(hs, front, last);
      SnocRegrouped(Tagged(hs, b), Tagged(front, b), last);
      assert ks == front + [last];
    }
  }

  lemma SnocRegrouped<X>(a: seq<X>, b: seq<X>, x: X)
    ensures (a + b) + [x] == a + (b + [x])
  {
  }
}
