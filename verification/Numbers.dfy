// Wrap-around integers and their sums and exclusive prefix sums (Plaidlay/NaiveExternalScan.h).
module Numbers {
  import opened Arithmetic

  // An element type with addition, and its conversions to and from size_t.
  datatype Num<!T> = Num(zero: T, plus: (T, T) -> T, toSize: T -> nat, fromSize: nat -> T)

  ghost predicate Associates<T>(num: Num<T>, x: T, y: T, z: T)
  {
    num.plus(num.plus(x, y), z) == num.plus(x, num.plus(y, z))
  }

  ghost predicate Neutral<T>(num: Num<T>, x: T)
  {
    num.plus(num.zero, x) == x && num.plus(x, num.zero) == x
  }

  ghost predicate Commutes<T>(num: Num<T>, x: T, y: T)
  {
    num.plus(x, y) == num.plus(y, x)
  }

  // An element survives the conversion to size_t and back, and size_t sums convert to sums.
  ghost predicate Converts<T>(num: Num<T>, a: nat, x: T)
  {
    num.fromSize((a + num.toSize(x)) % U64) == num.plus(num.fromSize(a), x)
  }

  // What holds of integer types of up to 64 bits with wrap-around.
  ghost predicate IsInteger<T(!new)>(num: Num<T>)
  {
    && (forall x, y, z {:trigger Associates(num, x, y, z)} :: Associates(num, x, y, z))
    && (forall x, y {:trigger Commutes(num, x, y)} :: Commutes(num, x, y))
    && (forall x {:trigger Neutral(num, x)} :: Neutral(num, x))
    && (forall a: nat, x {:trigger Converts(num, a, x)} :: Converts(num, a, x))
    && num.fromSize(0) == num.zero
  }

  // ---- sequential meaning ------------------------------------------------------------------

  function SumFrom<T>(num: Num<T>, init: T, s: seq<T>): T
  {
    if s == [] then init else num.plus(SumFrom(num, init, s[..|s| - 1]), s[|s| - 1])
  }

  // The exclusive prefix sums.
  function ScanFrom<T>(num: Num<T>, init: T, s: seq<T>): (r: seq<T>)
    ensures |r| == |s|
  {
    if s == [] then [] else ScanFrom(num, init, s[..|s| - 1]) + [SumFrom(num, init, s[..|s| - 1])]
  }

  lemma StepFrom<T>(num: Num<T>, init: T, s: seq<T>, x: T)
    ensures SumFrom(num, init, s + [x]) == num.plus(SumFrom(num, init, s), x)
    ensures ScanFrom(num, init, s + [x]) == ScanFrom(num, init, s) + [SumFrom(num, init, s)]
  {
    assert (s + [x])[..|s|] == s;
  }

  lemma {:induction false} SumAppend<T>(num: Num<T>, init: T, a: seq<T>, b: seq<T>)
    ensures SumFrom(num, init, a + b) == SumFrom(num, SumFrom(num, init, a), b)
    decreases |b|
  {
    if b == [] {
      assert a + b == a;
    } else {
      var n := |b| - 1;
      SumAppend(num, init, a, b[..n]);
      assert a + b == (a + b[..n]) + [b[n]];
      StepFrom(num, init, a + b[..n], b[n]);
    }
  }

  lemma {:induction false} ScanAppend<T>(num: Num<T>, init: T, a: seq<T>, b: seq<T>)
    ensures ScanFrom(num, init, a + b) == ScanFrom(num, init, a) + ScanFrom(num, SumFrom(num, init, a), b)
    decreases |b|
  {
    if b == [] {
      assert a + b == a;
    } else {
      var n := |b| - 1;
      ScanAppend(num, init, a, b[..n]);
      SumAppend(num, init, a, b[..n]);
      assert a + b == (a + b[..n]) + [b[n]];
      StepFrom(num, init, a + b[..n], b[n]);
    }
  }

  lemma {:induction false} SumShift<T(!new)>(num: Num<T>, init: T, s: seq<T>)
    requires IsInteger(num)
    ensures SumFrom(num, init, s) == num.plus(init, SumFrom(num, num.zero, s))
  {
    if s == [] {
      assert Neutral(num, init);
    } else {
      var n := |s| - 1;
      SumShift(num, init, s[..n]);
      assert Associates(num, init, SumFrom(num, num.zero, s[..n]), s[n]);
    }
  }
}
