// Files as maps from byte offset to byte, the in-memory representation of elements, and the
// two-byte marker that ends a padded file (utils/file_utils.cpp).
module Disk {

  type Byte = b: int | 0 <= b < 256

  type File = map<nat, Byte>

  const METADATA_SIZE: nat := 2
  const MARKER_CAPACITY: nat := 0x1_0000

  // pwrite: the bytes land at the given offset whatever else the file holds.
  function WriteAt(f: File, off: nat, data: seq<Byte>): (r: File)
    ensures forall k: nat :: k in r <==> k in f || off <= k < off + |data|
    ensures forall k: nat :: k in r ==> r[k] == if off <= k < off + |data| then data[k - off] else f[k]
  {
    f + map k: nat | off <= k < off + |data| && Within(off, |data|, k) :: data[k - off]
  }

  predicate Within(off: nat, len: nat, k: nat) {
    off <= k < off + len
  }

  // The file holds exactly the given bytes, starting at offset 0.
  ghost predicate HasContents(f: File, data: seq<Byte>)
  {
    forall k: nat :: (k in f <==> k < |data|) && (k in f ==> f[k] == data[k])
  }

  // ReadEntireFile: the bytes of a file whose size is known.
  function ReadAll(f: File, size: nat): (r: seq<Byte>)
    requires forall k: nat :: k < size ==> k in f
    ensures |r| == size && forall k :: 0 <= k < size ==> r[k] == f[k]
  {
    seq(size, k requires 0 <= k < size => f[k])
  }

  function AlignUp(n: nat, align: nat): nat
    requires align > 0
  {
    (n + align - 1) / align * align
  }

  lemma AlignUpBounds(n: nat, align: nat)
    requires align > 0
    ensures AlignUp(n, align) % align == 0
    ensures n <= AlignUp(n, align) < n + align
  {
    var q := (n + align - 1) / align;
    MulMod(q, align);
    assert AlignUp(n, align) == q * align;
    assert n + align - 1 == q * align + (n + align - 1) % align;
  }

  lemma MulMod(q: int, m: nat)
    requires m > 0
    ensures q * m % m == 0 && q * m / m == q
  {
    var x := q * m;
    var d := q - x / m;
    assert m * d == x % m;
    assert d >= 1 ==> m * d >= m;
    assert d <= -1 ==> m * d <= 0 - m;
  }

  lemma AddMod(a: nat, b: nat, m: nat)
    requires m > 0 && a % m == 0 && b % m == 0
    ensures (a + b) % m == 0
  {
    var p, q := a / m, b / m;
    assert a + b == (p + q) * m by {
      assert a == p * m && b == q * m;
    }
    MulMod(p + q, m);
  }

  // ---- elements in memory ---------------------------------------------------------------

  // How a trivially copyable type is laid out: every value occupies size bytes.
  datatype Layout<!T> = Layout(size: nat, enc: T -> seq<Byte>, dec: seq<Byte> -> T)

  ghost predicate IsLayout<T(!new)>(c: Layout<T>)
  {
    c.size > 0 && forall x: T :: |c.enc(x)| == c.size && c.dec(c.enc(x)) == x
  }

  function Encode<T>(c: Layout<T>, s: seq<T>): seq<Byte>
  {
    if s == [] then [] else Encode(c, s[..|s| - 1]) + c.enc(s[|s| - 1])
  }

  // The elements that a byte buffer holds, from its start.
  function Decode<T>(c: Layout<T>, b: seq<Byte>): (r: seq<T>)
    requires c.size > 0
  {
    if |b| < c.size then [] else [c.dec(b[..c.size])] + Decode(c, b[c.size..])
  }

  lemma {:induction false} EncodeSize<T(!new)>(c: Layout<T>, s: seq<T>)
    requires IsLayout(c)
    ensures |Encode(c, s)| == |s| * c.size
  {
    if s != [] {
      EncodeSize(c, s[..|s| - 1]);
      assert |s| * c.size == (|s| - 1) * c.size + c.size;
    }
  }

  lemma {:induction false} EncodeAppend<T>(c: Layout<T>, a: seq<T>, b: seq<T>)
    ensures Encode(c, a + b) == Encode(c, a) + Encode(c, b)
    decreases |b|
  {
    if b == [] {
      assert a + b == a;
    } else {
      var b' := b[..|b| - 1];
      EncodeAppend(c, a, b');
      assert (a + b)[..|a + b| - 1] == a + b';
    }
  }

  // Reading back what was laid out yields the same elements, and trailing bytes that do not
  // amount to an element are ignored.
  lemma {:induction false} DecodeEncode<T(!new)>(c: Layout<T>, s: seq<T>, rest: seq<Byte>)
    requires IsLayout(c) && |rest| < c.size
    ensures Decode(c, Encode(c, s) + rest) == s
  {
    EncodeSize(c, s);
    if s == [] {
      assert Encode(c, s) + rest == rest;
    } else {
      var head, tail := [s[0]], s[1..];
      assert head + tail == s;
      EncodeAppend(c, head, tail);
      assert Encode(c, head) == [] + c.enc(s[0]);
      var b := Encode(c, s) + rest;
      assert b[..c.size] == c.enc(s[0]);
      assert b[c.size..] == Encode(c, tail) + rest;
      DecodeEncode(c, tail, rest);
    }
  }

  lemma {:induction false} DecodeSize<T>(c: Layout<T>, b: seq<Byte>, n: nat)
    requires c.size > 0 && |b| == n * c.size
    ensures |Decode(c, b)| == n
  {
    if n > 0 {
      assert n * c.size == (n - 1) * c.size + c.size;
      DecodeSize(c, b[c.size..], n - 1);
    }
  }

  // ---- end-of-file marker ---------------------------------------------------------------

  // MakeFileEndMarker: the last two bytes of the buffer receive the number of bytes that are
  // not payload, little-endian.
  method MakeFileEndMarker(buffer: array<Byte>, realSize: nat)
    requires METADATA_SIZE <= buffer.Length && realSize <= buffer.Length
    requires buffer.Length - realSize < MARKER_CAPACITY
    modifies buffer
    ensures buffer[..] == WithMarker(old(buffer[..]), realSize)
    ensures buffer[buffer.Length - 2] as int + 256 * buffer[buffer.Length - 1] as int == buffer.Length - realSize
    ensures forall k :: 0 <= k < buffer.Length - 2 ==> buffer[k] == old(buffer[k])
  {
    var diff := buffer.Length - realSize;
    buffer[buffer.Length - 2] := diff % 256;
    buffer[buffer.Length - 1] := diff / 256;
  }

  function WithMarker(b: seq<Byte>, realSize: nat): (r: seq<Byte>)
    requires METADATA_SIZE <= |b| && realSize <= |b| && |b| - realSize < MARKER_CAPACITY
  {
    var diff := |b| - realSize;
    b[|b| - 2 := diff % 256][|b| - 1 := diff / 256]
  }

  // GetFileInfo with eof_marker: the true size, read from the last block of the file.
  function TrueSize(b: seq<Byte>): int
    requires METADATA_SIZE <= |b|
  {
    var low: int, high: int := b[|b| - 2], b[|b| - 1];
    |b| - (low + 256 * high)
  }

  // The marker gives the payload size back and, when two bytes of padding are left for it,
  // does not touch the payload.
  lemma MarkerRoundTrip(b: seq<Byte>, realSize: nat)
    requires METADATA_SIZE <= |b| && realSize + METADATA_SIZE <= |b| && |b| - realSize < MARKER_CAPACITY
    ensures |WithMarker(b, realSize)| == |b|
    ensures WithMarker(b, realSize)[|b| - 2] as int + 256 * WithMarker(b, realSize)[|b| - 1] as int == |b| - realSize
    ensures WithMarker(b, realSize)[..realSize] == b[..realSize]
    ensures TrueSize(WithMarker(b, realSize)) == realSize
  {
    var diff := |b| - realSize;
    assert diff == diff % 256 + 256 * (diff / 256);
  }

  // ---- files that end in a marker --------------------------------------------------------

  // A bucket file of the given size holds the elements of part, padding and the marker.
  ghost predicate StoresPart<T>(layout: Layout<T>, f: File, fileSize: nat, part: seq<T>)
  {
    exists rest: seq<Byte> :: IsMarkedFile(layout, f, fileSize, part, rest)
  }

  ghost predicate IsMarkedFile<T>(layout: Layout<T>, f: File, fileSize: nat, part: seq<T>, rest: seq<Byte>)
  {
    var data := Encode(layout, part) + rest;
    HasContents(f, data) && |data| == fileSize && |rest| >= METADATA_SIZE && TrueSize(data) == |Encode(layout, part)|
  }

  // How a consumer finds the elements of a result file: by the marker at its end.
  method ReadPart<T(!new)>(layout: Layout<T>, f: File, fileSize: nat, ghost part: seq<T>) returns (r: seq<T>)
    requires IsLayout(layout) && StoresPart(layout, f, fileSize, part)
    ensures r == part
  {
    ghost var rest :| IsMarkedFile(layout, f, fileSize, part, rest);
    ContentsOf(layout, f, fileSize, part, rest);
    var data := ReadAll(f, fileSize);
    r := Decode(layout, data[..TrueSize(data)]);
  }

  lemma ContentsOf<T(!new)>(layout: Layout<T>, f: File, fileSize: nat, part: seq<T>, rest: seq<Byte>)
    requires IsLayout(layout) && IsMarkedFile(layout, f, fileSize, part, rest)
    ensures forall k: nat :: k < fileSize ==> k in f
    ensures var data := ReadAll(f, fileSize);
            |data| >= METADATA_SIZE && 0 <= TrueSize(data) <= |data| && Decode(layout, data[..TrueSize(data)]) == part
  {
    var code := Encode(layout, part);
    assert ReadAll(f, fileSize) == code + rest;
    PrefixOf(code, rest);
    DecodeEncode(layout, part, []);
  }

  lemma PrefixOf<X>(a: seq<X>, b: seq<X>)
    ensures (a + b)[..|a|] == a == a + []
  {
  }
}
