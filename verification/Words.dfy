// 32-bit unsigned integers, as an instance of what the file operators and the sample sort
// require of an element type.
module Words {
  import opened Disk
  import opened Arithmetic
  import opened Numbers
  import opened Ordering

  type Word = x: nat | x < 0x1_0000_0000

  function Low(n: nat): Byte
  {
    n % 256
  }

  // Little-endian bytes.
  function WordBytes(x: Word): seq<Byte>
  {
    [Low(x), Low(x / 256), Low(x / 0x1_0000), Low(x / 0x100_0000)]
  }

  function WordFrom(b: seq<Byte>): Word
  {
    if |b| == 4 then
      var b0: int, b1: int, b2: int, b3: int := b[0], b[1], b[2], b[3];
      b0 + 256 * b1 + 0x1_0000 * b2 + 0x100_0000 * b3
    else 0
  }

  function WordLayout(): Layout<Word>
  {
    Layout(4, x => WordBytes(x), b => WordFrom(b))
  }

  // The bytes of a word give the word back.
  lemma WordLayoutIsLayout()
    ensures IsLayout(WordLayout())
  {
    forall x: Word ensures WordFrom(WordBytes(x)) == x {
      var q1, q2, q3 := x / 256, x / 0x1_0000, x / 0x100_0000;
      assert x == x % 256 + 256 * q1;
      assert q1 == q1 % 256 + 256 * (q1 / 256) && q1 / 256 == q2;
      assert q2 == q2 % 256 + 256 * (q2 / 256) && q2 / 256 == q3;
      assert q3 < 256;
    }
  }

  function AddWords(x: Word, y: Word): Word
  {
    (x + y) % 0x1_0000_0000
  }

  function ToSize(x: Word): nat
  {
    x
  }

  function FromSize(n: nat): Word
  {
    n % 0x1_0000_0000
  }

  lemma Wrapped(n: nat)
    requires n < 0x2_0000_0000
    ensures FromSize(n) == if n < 0x1_0000_0000 then n else n - 0x1_0000_0000
  {
  }

  lemma Associative(x: Word, y: Word, z: Word)
    ensures AddWords(AddWords(x, y), z) == AddWords(x, AddWords(y, z))
  {
    Wrapped(x + y);
    Wrapped(y + z);
    Wrapped(AddWords(x, y) + z);
    Wrapped(x + AddWords(y, z));
  }

  // A sum that has wrapped around as a size_t wraps around to the same word.
  lemma Converted(a: nat, x: Word)
    ensures FromSize((a + x) % U64) == AddWords(FromSize(a), x)
  {
    var k, q := (a + x) / U64, a / 0x1_0000_0000;
    assert a + x == U64 * k + (a + x) % U64;
    assert a == 0x1_0000_0000 * q + FromSize(a);
    var r := (a + x) % U64;
    assert r == FromSize(a) + x + 0x1_0000_0000 * (q - 0x1_0000_0000 * k);
  }

  function WordNum(): Num<Word>
  {
    Num(0, (x: Word, y: Word) => AddWords(x, y), (x: Word) => ToSize(x), (n: nat) => FromSize(n))
  }

  // Wrap-around addition of words satisfies what the scan requires, also across the
  // conversions to size_t.
  lemma WordNumIsInteger()
    ensures IsInteger(WordNum())
  {
    var num := WordNum();
    forall x: Word, y: Word, z: Word ensures Associates(num, x, y, z) {
      Associative(x, y, z);
    }
    forall x: Word, y: Word ensures Commutes(num, x, y) {
    }
    forall x: Word ensures Neutral(num, x) {
      Wrapped(x);
    }
    forall a: nat, x: Word ensures Converts(num, a, x) {
      Converted(a, x);
    }
  }

  // ---- order -------------------------------------------------------------------------------

  function Less(x: Word, y: Word): bool
  {
    x < y
  }

  function Insert(x: Word, s: seq<Word>): seq<Word>
  {
    if s == [] || x <= s[0] then [x] + s else [s[0]] + Insert(x, s[1..])
  }

  function Sort(s: seq<Word>): seq<Word>
  {
    if s == [] then [] else Insert(s[0], Sort(s[1..]))
  }

  ghost predicate Ascends(s: seq<Word>)
  {
    forall i, j :: 0 <= i < j < |s| ==> s[i] <= s[j]
  }

  lemma AscendsFrom(x: Word, s: seq<Word>)
    requires Ascends(s) && forall y :: y in s ==> x <= y
    ensures Ascends([x] + s)
  {
    var t := [x] + s;
    forall i, j | 0 <= i < j < |t| ensures t[i] <= t[j] {
      assert t[j] == s[j - 1] && s[j - 1] in s;
    }
  }

  lemma {:induction false} InsertKeeps(x: Word, s: seq<Word>)
    ensures multiset(Insert(x, s)) == multiset(s) + multiset{x}
  {
    if s != [] && x > s[0] {
      InsertKeeps(x, s[1..]);
      assert s == [s[0]] + s[1..];
      assert Insert(x, s) == [s[0]] + Insert(x, s[1..]);
    } else {
      assert Insert(x, s) == [x] + s;
    }
  }

  lemma {:induction false} InsertSorts(x: Word, s: seq<Word>)
    requires Ascends(s)
    ensures Ascends(Insert(x, s))
  {
    if s == [] || x <= s[0] {
      AscendsFrom(x, s);
    } else {
      var t := Insert(x, s[1..]);
      InsertSorts(x, s[1..]);
      InsertKeeps(x, s[1..]);
      forall y | y in t ensures s[0] <= y {
        assert y in multiset(s[1..]) + multiset{x};
      }
      AscendsFrom(s[0], t);
    }
  }

  lemma {:induction false} SortSorts(s: seq<Word>)
    ensures Ascends(Sort(s)) && multiset(Sort(s)) == multiset(s)
  {
    if s != [] {
      SortSorts(s[1..]);
      InsertSorts(s[0], Sort(s[1..]));
      InsertKeeps(s[0], Sort(s[1..]));
      assert s == [s[0]] + s[1..];
    }
  }

  // Words compared by < and sorted by insertion satisfy what the sample sort requires.
  lemma WordsAreSortable()
    ensures StrictWeak((x: Word, y: Word) => Less(x, y))
    ensures SortsBy((s: seq<Word>) => Sort(s), (x: Word, y: Word) => Less(x, y))
  {
    forall s: seq<Word> ensures Sorted(Sort(s), (x: Word, y: Word) => Less(x, y)) && multiset(Sort(s)) == multiset(s) {
      SortSorts(s);
    }
  }
}
