// Concatenation of lists of blocks, and sums over a row of per-owner counters or multisets.
module Sequences {

  datatype Option<+T> = None | Some(value: T)

  function Concat<T>(ss: seq<seq<T>>): (r: seq<T>)
  {
    if ss == [] then [] else Concat(ss[..|ss| - 1]) + ss[|ss| - 1]
  }

  lemma ConcatSnoc<T>(ss: seq<seq<T>>, s: seq<T>)
    ensures Concat(ss + [s]) == Concat(ss) + s
  {
    assert (ss + [s])[..|ss|] == ss;
  }

  lemma {:induction false} ConcatAppend<T>(a: seq<seq<T>>, b: seq<seq<T>>)
    ensures Concat(a + b) == Concat(a) + Concat(b)
    decreases |b|
  {
    if b == [] {
      assert a + b == a;
    } else {
      var b' := b[..|b| - 1];
      assert (a + b)[..|a + b| - 1] == a + b';
      ConcatAppend(a, b');
      assert Concat(a + b) == Concat(a + b') + b[|b| - 1];
    }
  }

  lemma {:induction false} ConcatSplit<T>(ss: seq<seq<T>>, k: nat)
    requires k <= |ss|
    ensures Concat(ss) == Concat(ss[..k]) + Concat(ss[k..])
  {
    ConcatAppend(ss[..k], ss[k..]);
    assert ss[..k] + ss[k..] == ss;
  }

  lemma ConcatFirst<T>(ss: seq<seq<T>>)
    requires ss != []
    ensures Concat(ss) == ss[0] + Concat(ss[1..])
    ensures multiset(Concat(ss)) == multiset(Concat(ss[1..])) + multiset(ss[0])
  {
    ConcatSplit(ss, 1);
    ConcatSnoc([], ss[0]);
    assert ss[..1] == [] + [ss[0]];
  }

  lemma ConcatPair<T>(a: seq<T>, b: seq<T>)
    ensures Concat([a, b]) == a + b
  {
    var none: seq<seq<T>> := [];
    ConcatSnoc(none, a);
    ConcatSnoc(none + [a], b);
    assert none + [a] + [b] == [a, b];
  }

  lemma {:induction false} ConcatEmpty<T>(ss: seq<seq<T>>)
    requires forall i :: 0 <= i < |ss| ==> ss[i] == []
    ensures Concat(ss) == []
  {
    if ss != [] {
      ConcatEmpty(ss[..|ss| - 1]);
    }
  }

  // The index of the first element of block k.
  ghost function StartOf<T>(blocks: seq<seq<T>>, k: nat): nat
    requires k <= |blocks|
  {
    |Concat(blocks[..k])|
  }

  lemma StartStep<T>(blocks: seq<seq<T>>, k: nat)
    requires k < |blocks|
    ensures StartOf(blocks, k + 1) == StartOf(blocks, k) + |blocks[k]|
    ensures Concat(blocks[..k + 1]) == Concat(blocks[..k]) + blocks[k]
  {
    assert blocks[..k + 1][..k] == blocks[..k];
  }

  // Replacing one block exchanges its elements for those of the new one.
  lemma {:induction false} ConcatUpdate<T(!new)>(ss: seq<seq<T>>, i: nat, s: seq<T>)
    requires i < |ss|
    ensures multiset(Concat(ss[i := s])) + multiset(ss[i]) == multiset(Concat(ss)) + multiset(s)
  {
    var n := |ss| - 1;
    if i == n {
      assert ss[i := s][..n] == ss[..n];
    } else {
      assert ss[i := s][..n] == ss[..n][i := s];
      ConcatUpdate(ss[..n], i, s);
      Balance(multiset(Concat(ss[..n][i := s])), multiset(ss[i]), multiset(Concat(ss[..n])), multiset(s),
              multiset(ss[n]));
    }
  }

  // Both sides of a balance grow by the same elements.
  lemma Balance<T(!new)>(a: multiset<T>, x: multiset<T>, b: multiset<T>, y: multiset<T>, c: multiset<T>)
    requires a + x == b + y
    ensures (a + c) + x == (b + c) + y
  {
    forall e: T ensures ((a + c) + x)[e] == ((b + c) + y)[e] {
      assert (a + x)[e] == (b + y)[e];
    }
  }

  // The side that had m' and now has m gained their difference.
  lemma TakeOne<T(!new)>(a: multiset<T>, a': multiset<T>, m: multiset<T>, m': multiset<T>, x: multiset<T>)
    requires a' + m == a + m' && m == m' + x
    ensures a == a' + x
  {
    forall e: T ensures a[e] == (a' + x)[e] {
      assert (a' + m)[e] == (a + m')[e] && m[e] == (m' + x)[e];
    }
  }

  // What one side gives up, the other receives.
  lemma Transfer<T(!new)>(a: multiset<T>, b: multiset<T>, a': multiset<T>, b': multiset<T>, x: multiset<T>)
    requires a == a' + x && b' == b + x
    ensures a' + b' == a + b
  {
    forall e: T ensures (a' + b')[e] == (a + b)[e] {
      assert a[e] == (a' + x)[e] && b'[e] == (b + x)[e];
    }
  }

  lemma Cancel<X(!new)>(a: multiset<X>, b: multiset<X>, x: multiset<X>)
    requires a + x == b + x
    ensures a == b
  {
    forall e: X ensures a[e] == b[e] {
      assert (a + x)[e] == (b + x)[e];
    }
  }

  lemma Position<X>(a: seq<X>, b: seq<X>) returns (j: nat)
    requires multiset(a) == multiset(b) && a != []
    ensures j < |b| && b[j] == a[|a| - 1]
  {
    assert a[|a| - 1] in multiset(b);
    j :| 0 <= j < |b| && b[j] == a[|a| - 1];
  }

  lemma RestMatches<X(!new)>(a: seq<X>, b: seq<X>, j: nat)
    requires multiset(a) == multiset(b) && a != [] && j < |b| && b[j] == a[|a| - 1]
    ensures multiset(a[..|a| - 1]) == multiset(b[..j] + b[j + 1..])
  {
    var x, n := b[j], |a| - 1;
    assert a == a[..n] + [x] && b == b[..j] + ([x] + b[j + 1..]);
    Cancel(multiset(a[..n]), multiset(b[..j] + b[j + 1..]), multiset{x});
  }

  lemma Assembled<T>(a: multiset<T>, b: multiset<T>, c: multiset<T>)
    ensures (a + b) + c == a + (b + c)
  {
  }

  lemma TwiceIn<X>(a: seq<X>, i: nat, j: nat)
    requires i < j < |a| && a[i] == a[j]
    ensures multiset(a)[a[i]] >= 2
  {
    assert a == a[..i] + [a[i]] + a[i + 1..j] + [a[j]] + a[j + 1..];
  }

  // ---- mapping elements to sequences -------------------------------------------------------

  ghost function MapParts<X, Y>(f: X -> seq<Y>, s: seq<X>): (r: seq<seq<Y>>)
    ensures |r| == |s| && forall i :: 0 <= i < |s| ==> r[i] == f(s[i])
  {
    seq(|s|, i requires 0 <= i < |s| => f(s[i]))
  }

  ghost function FlatMap<X, Y>(f: X -> seq<Y>, s: seq<X>): seq<Y>
  {
    Concat(MapParts(f, s))
  }

  lemma FlatMapSnoc<X, Y>(f: X -> seq<Y>, s: seq<X>)
    requires s != []
    ensures FlatMap(f, s) == FlatMap(f, s[..|s| - 1]) + f(s[|s| - 1])
  {
    assert MapParts(f, s)[..|s| - 1] == MapParts(f, s[..|s| - 1]);
  }

  // The order of the elements does not matter for what they are mapped to together.
  lemma {:induction false} FlatMapAnyOrder<X(!new), Y(!new)>(f: X -> seq<Y>, a: seq<X>, b: seq<X>)
    requires multiset(a) == multiset(b)
    ensures multiset(FlatMap(f, a)) == multiset(FlatMap(f, b))
  {
    if a == [] {
      assert |multiset(b)| == 0;
    } else {
      var n := |a| - 1;
      var j := Position(a, b);
      RestMatches(a, b, j);
      FlatMapAnyOrder(f, a[..n], b[..j] + b[j + 1..]);
      FlatMapSnoc(f, a);
      FlatMapWithout(f, b, j);
    }
  }

  lemma FlatMapWithout<X(!new), Y(!new)>(f: X -> seq<Y>, b: seq<X>, j: nat)
    requires j < |b|
    ensures multiset(FlatMap(f, b)) == multiset(FlatMap(f, b[..j] + b[j + 1..])) + multiset(f(b[j]))
  {
    var e := MapParts(f, b);
    assert MapParts(f, b[..j] + b[j + 1..]) == e[..j] + e[j + 1..];
    ConcatSplit(e, j);
    ConcatFirst(e[j..]);
    assert e[j..][1..] == e[j + 1..];
    ConcatAppend(e[..j], e[j + 1..]);
  }

  lemma {:induction false} FlatMapBound<X, Y>(f: X -> seq<Y>, s: seq<X>, max: nat)
    requires forall i :: 0 <= i < |s| ==> |f(s[i])| <= max
    ensures |FlatMap(f, s)| <= |s| * max
  {
    if s != [] {
      FlatMapBound(f, s[..|s| - 1], max);
      FlatMapSnoc(f, s);
      assert |s| * max == (|s| - 1) * max + max;
    }
  }

  lemma FlatMapAppend<X, Y>(f: X -> seq<Y>, a: seq<X>, b: seq<X>)
    ensures FlatMap(f, a + b) == FlatMap(f, a) + FlatMap(f, b)
  {
    assert MapParts(f, a + b) == MapParts(f, a) + MapParts(f, b);
    ConcatAppend(MapParts(f, a), MapParts(f, b));
  }

  // Total of a row of multisets, one per owner (thread or bucket).
  ghost function Sum<T>(ms: seq<multiset<T>>): multiset<T>
  {
    if ms == [] then multiset{} else Sum(ms[..|ms| - 1]) + ms[|ms| - 1]
  }

  // The prefix of an updated sequence.
  lemma UpdatedPrefix<X>(s: seq<X>, i: nat, x: X)
    requires i < |s|
    ensures var n := |s| - 1;
            if i == n then s[i := x][..n] == s[..n] else s[i := x][..n] == s[..n][i := x] && s[i := x][n] == s[n]
  {
  }

  lemma {:induction false} SumUpdate<T(!new)>(ms: seq<multiset<T>>, i: nat, m: multiset<T>)
    requires i < |ms|
    ensures Sum(ms[i := m]) + ms[i] == Sum(ms) + m
  {
    var n := |ms| - 1;
    if i == n {
      assert ms[i := m][..n] == ms[..n];
    } else {
      assert ms[i := m][..n] == ms[..n][i := m];
      SumUpdate(ms[..n], i, m);
      Balance(Sum(ms[..n][i := m]), ms[i], Sum(ms[..n]), m, ms[n]);
    }
  }

  lemma {:induction false} SumOfEmpty<T>(ms: seq<multiset<T>>)
    requires forall i :: 0 <= i < |ms| ==> ms[i] == multiset{}
    ensures Sum(ms) == multiset{}
  {
    if ms != [] {
      SumOfEmpty(ms[..|ms| - 1]);
    }
  }

  lemma {:induction false} SumIsConcat<T>(ms: seq<multiset<T>>, ss: seq<seq<T>>)
    requires |ms| == |ss|
    requires forall i :: 0 <= i < |ms| ==> ms[i] == multiset(ss[i])
    ensures Sum(ms) == multiset(Concat(ss))
  {
    if ms != [] {
      var n := |ms| - 1;
      SumIsConcat(ms[..n], ss[..n]);
    }
  }

  // Total of a row of counters, used as the variant of loops that advance one owner at a time.
  function Total(ns: seq<nat>): nat
  {
    if ns == [] then 0 else Total(ns[..|ns| - 1]) + ns[|ns| - 1]
  }

  lemma {:induction false} TotalUpdate(ns: seq<nat>, i: nat, v: nat)
    requires i < |ns|
    ensures Total(ns[i := v]) + ns[i] == Total(ns) + v
  {
    var n := |ns| - 1;
    if i == n {
      assert ns[i := v][..n] == ns[..n];
    } else {
      assert ns[i := v][..n] == ns[..n][i := v];
      TotalUpdate(ns[..n], i, v);
    }
  }

  // ---- sequential filtering ---------------------------------------------------------------

  function Filter<T>(p: T -> bool, s: seq<T>): seq<T>
  {
    if s == [] then [] else Filter(p, s[..|s| - 1]) + if p(s[|s| - 1]) then [s[|s| - 1]] else []
  }

  lemma {:induction false} FilterAppend<T>(p: T -> bool, a: seq<T>, b: seq<T>)
    ensures Filter(p, a + b) == Filter(p, a) + Filter(p, b)
    decreases |b|
  {
    if b == [] {
      assert a + b == a;
    } else {
      assert (a + b)[..|a + b| - 1] == a + b[..|b| - 1];
      FilterAppend(p, a, b[..|b| - 1]);
    }
  }
}
