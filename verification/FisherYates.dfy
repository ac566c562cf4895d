// The in-place shuffle of one bucket (Plaidlay/examples/Extern_random_shuffle.h).
module FisherYates {
  import opened Arithmetic
  import opened Sequences

  function Swap<T>(s: seq<T>, i: nat, j: nat): (r: seq<T>)
    requires i < |s| && j < |s|
    ensures multiset(r) == multiset(s)
  {
    s[i := s[j]][j := s[i]]
  }

  // The position that round i picks.
  function Pick(rnd: nat -> nat, i: nat): (j: nat)
    requires i > 0
    ensures j < i
  {
    rnd(i) % i
  }

  // The state after the rounds i, i - 1, ..., 2; round k swaps the last of the first k elements
  // with the one that rnd picks among them.
  function Rounds<T>(s: seq<T>, rnd: nat -> nat, i: nat): (r: seq<T>)
    requires i <= |s|
    ensures multiset(r) == multiset(s) && |r| == |s|
    decreases i
  {
    if i <= 1 then s else Rounds(Swap(s, i - 1, Pick(rnd, i)), rnd, i - 1)
  }

  method Shuffle<T>(data: array<T>, rnd: nat -> nat)
    modifies data
    ensures data[..] == Rounds(old(data[..]), rnd, data.Length)
    ensures multiset(data[..]) == multiset(old(data[..]))
  {
    var i := data.Length;
    while i > 1
      invariant 0 <= i <= data.Length
      invariant Rounds(data[..], rnd, i) == Rounds(old(data[..]), rnd, data.Length)
    {
      var j := Pick(rnd, i);
      ghost var before := data[..];
      data[i - 1], data[j] := data[j], data[i - 1];
      assert data[..] == Swap(before, i - 1, j);
      i := i - 1;
    }
  }

  // The rounds up to i use only the picks up to i.
  lemma {:induction false} RoundsFrame<T>(s: seq<T>, rnd: nat -> nat, rnd': nat -> nat, i: nat)
    requires i <= |s| && forall k: nat :: k <= i ==> rnd(k) == rnd'(k)
    ensures Rounds(s, rnd, i) == Rounds(s, rnd', i)
    decreases i
  {
    if i > 1 {
      RoundsFrame(Swap(s, i - 1, Pick(rnd, i)), rnd, rnd', i - 1);
    }
  }

  // They leave the elements from i on alone.
  lemma {:induction false} RoundsTail<T>(s: seq<T>, rnd: nat -> nat, i: nat)
    requires i <= |s|
    ensures Rounds(s, rnd, i)[i..] == s[i..]
    decreases i
  {
    if i > 1 {
      var t := Swap(s, i - 1, Pick(rnd, i));
      RoundsTail(t, rnd, i - 1);
      DropFirst(Rounds(s, rnd, i), t, i);
      SwapElsewhere(s, i, Pick(rnd, i));
    }
  }

  // The first round puts the element that it picks into the last place, where it stays, and what
  // was there into the place of that element.
  lemma FirstPick<T>(s: seq<T>, rnd: nat -> nat, i: nat)
    requires 1 < i <= |s|
    ensures Rounds(s, rnd, i)[i - 1] == s[rnd(i) % i]
    ensures Rounds(s, rnd, i) == Rounds(s[i - 1 := s[rnd(i) % i]][rnd(i) % i := s[i - 1]], rnd, i - 1)
  {
    var p := Pick(rnd, i);
    var t := Swap(s, i - 1, p);
    FirstRound(s, rnd, i, p);
    RoundsTail(t, rnd, i - 1);
    SameHead(Rounds(t, rnd, i - 1), t, i - 1);
  }

  lemma SameHead<T>(a: seq<T>, b: seq<T>, i: nat)
    requires i < |a| && i < |b| && a[i..] == b[i..]
    ensures a[i] == b[i]
  {
    assert a[i..][0] == b[i..][0];
  }

  lemma DropFirst<T>(a: seq<T>, b: seq<T>, i: nat)
    requires 0 < i <= |a| && i <= |b| && a[i - 1..] == b[i - 1..]
    ensures a[i..] == b[i..]
  {
    assert a[i - 1..][1..] == a[i..] && b[i - 1..][1..] == b[i..];
  }

  lemma SwapElsewhere<T>(s: seq<T>, i: nat, j: nat)
    requires 0 < i <= |s| && j < i
    ensures Swap(s, i - 1, j)[i..] == s[i..]
  {
  }

  // No permutation is out of reach: some picks produce it.
  lemma {:induction false} EveryPermutation<T(!new)>(s: seq<T>, t: seq<T>, i: nat) returns (rnd: nat -> nat)
    requires i <= |s| == |t| && multiset(s[..i]) == multiset(t[..i]) && s[i..] == t[i..]
    ensures Rounds(s, rnd, i) == t
    decreases i
  {
    rnd := k => 0;
    if i <= 1 {
      ShortMatch(s[..i], t[..i]);
      assert s == s[..i] + s[i..] && t == t[..i] + t[i..];
    } else {
      var j := Position(t[..i], s[..i]);
      var u := Swap(s, i - 1, j);
      SwapMatches(s, t, i, j);
      var rest := EveryPermutation(u, t, i - 1);
      rnd := OneMorePick(s, i, j, rest);
    }
  }

  // Picks for the rounds below i, preceded by the pick j in round i.
  lemma OneMorePick<T>(s: seq<T>, i: nat, j: nat, rest: nat -> nat) returns (rnd: nat -> nat)
    requires 1 < i <= |s| && j < i
    ensures Rounds(s, rnd, i) == Rounds(Swap(s, i - 1, j), rest, i - 1)
  {
    rnd := k => if k == i then j else rest(k);
    SmallRemainder(j, i);
    FirstRound(s, rnd, i, j);
    RoundsFrame(Swap(s, i - 1, j), rnd, rest, i - 1);
  }

  lemma FirstRound<T>(s: seq<T>, rnd: nat -> nat, i: nat, j: nat)
    requires 1 < i <= |s| && j < i && Pick(rnd, i) == j
    ensures Rounds(s, rnd, i) == Rounds(Swap(s, i - 1, j), rnd, i - 1)
  {
  }

  lemma ShortMatch<T>(a: seq<T>, b: seq<T>)
    requires multiset(a) == multiset(b) && |a| == |b| <= 1
    ensures a == b
  {
    if a != [] {
      assert a == [a[0]] && b == [b[0]];
      assert a[0] in multiset(b);
    }
  }

  // A swap within the first i elements.
  lemma SwapWithin<T>(s: seq<T>, i: nat, j: nat)
    requires 0 < i <= |s| && j < i
    ensures multiset(Swap(s, i - 1, j)[..i]) == multiset(s[..i]) && Swap(s, i - 1, j)[i..] == s[i..]
  {
    assert Swap(s, i - 1, j)[..i] == Swap(s[..i], i - 1, j);
  }

  lemma SplitAt<T>(s: seq<T>, i: nat)
    requires 0 < i <= |s|
    ensures s[..i] == s[..i - 1] + [s[i - 1]] && s[i - 1..] == [s[i - 1]] + s[i..]
  {
  }

  lemma SwapMatches<T(!new)>(s: seq<T>, t: seq<T>, i: nat, j: nat)
    requires 1 < i <= |s| == |t| && multiset(s[..i]) == multiset(t[..i]) && s[i..] == t[i..]
    requires j < i && s[j] == t[i - 1]
    ensures multiset(Swap(s, i - 1, j)[..i - 1]) == multiset(t[..i - 1]) && Swap(s, i - 1, j)[i - 1..] == t[i - 1..]
  {
    var u := Swap(s, i - 1, j);
    var x := t[i - 1];
    SwapWithin(s, i, j);
    SplitAt(u, i);
    SplitAt(t, i);
    Cancel(multiset(u[..i - 1]), multiset(t[..i - 1]), multiset{x});
  }
}
