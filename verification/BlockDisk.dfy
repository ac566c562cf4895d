// Files to which blocks are appended at offsets drawn from one counter per file, and whose
// writes complete in any order.
module BlockDisk {
  import opened ExternalSequence

  // Blocks that are queued, and blocks that are written.
  datatype Disk<T> = Disk(offsets: seq<nat>, writes: Store<T>, store: Store<T>)

  // What the files hold once every queued write has completed.
  function Content<T>(d: Disk<T>): Store<T>
  {
    d.store + d.writes
  }

  // Every block ends below the counter of its file, and no two overlap.
  ghost predicate Valid<T>(d: Disk<T>, blockBytes: nat)
  {
    && blockBytes > 0
    && (forall a :: a in Content(d) ==> a.0 < |d.offsets| && a.1 + blockBytes <= d.offsets[a.0])
    && (forall a, b :: a in Content(d) && b in Content(d) && a != b ==> Separate(a, b, blockBytes))
  }

  function Empty<T>(files: nat): Disk<T>
  {
    Disk(seq(files, _ => 0), map[], map[])
  }

  // fetch_add on the counter of file f, and the push of the block to the writer.
  function Append<T>(d: Disk<T>, f: nat, data: seq<T>, blockBytes: nat): Disk<T>
    requires f < |d.offsets|
  {
    Disk(d.offsets[f := d.offsets[f] + blockBytes], d.writes[(f, d.offsets[f]) := data], d.store)
  }

  lemma AppendKeepsValid<T>(d: Disk<T>, f: nat, data: seq<T>, blockBytes: nat)
    requires Valid(d, blockBytes) && f < |d.offsets|
    ensures Valid(Append(d, f, data, blockBytes), blockBytes)
    ensures Content(Append(d, f, data, blockBytes)) == Content(d)[(f, d.offsets[f]) := data]
    ensures (f, d.offsets[f]) !in Content(d)
  {
    var e := Append(d, f, data, blockBytes);
    assert Content(e) == Content(d)[(f, d.offsets[f]) := data];
  }

  lemma OneFewer<K, V>(m: map<K, V>, k: K)
    requires k in m
    ensures |m - {k}| < |m|
  {
    assert (m - {k}).Keys == m.Keys - {k};
    assert |m.Keys - {k}| < |m.Keys|;
  }

  lemma MoveEntry<K, V>(low: map<K, V>, high: map<K, V>, k: K)
    requires k in high
    ensures low[k := high[k]] + (high - {k}) == low + high
  {
    var m := low[k := high[k]] + (high - {k});
    assert m.Keys == (low + high).Keys;
  }

  function Complete<T>(d: Disk<T>, a: (nat, nat)): Disk<T>
    requires a in d.writes
  {
    Disk(d.offsets, d.writes - {a}, d.store[a := d.writes[a]])
  }

  lemma CompleteKeepsContent<T>(d: Disk<T>, a: (nat, nat))
    requires a in d.writes
    ensures Content(Complete(d, a)) == Content(d) && |Complete(d, a).writes| < |d.writes|
  {
    OneFewer(d.writes, a);
    MoveEntry(d.store, d.writes, a);
  }

  // Any number of the queued writes complete, in any order.
  method CompleteSome<T>(start: Disk<T>) returns (d: Disk<T>)
    ensures Content(d) == Content(start) && d.offsets == start.offsets
  {
    d := start;
    var more: bool := *;
    while more && d.writes != map[]
      invariant Content(d) == Content(start) && d.offsets == start.offsets
      decreases |d.writes|
    {
      var a :| a in d.writes;
      CompleteKeepsContent(d, a);
      d := Complete(d, a);
      more := *;
    }
  }

  // All queued writes complete, in any order.
  method Wait<T>(start: Disk<T>) returns (d: Disk<T>)
    ensures Content(d) == Content(start) && d.writes == map[] && d.store == Content(start) && d.offsets == start.offsets
  {
    d := start;
    while d.writes != map[]
      invariant Content(d) == Content(start) && d.offsets == start.offsets
      decreases |d.writes|
    {
      var a :| a in d.writes;
      CompleteKeepsContent(d, a);
      d := Complete(d, a);
    }
    assert d.store + map[] == d.store;
  }

  // A header whose whole block is on disk.
  ghost predicate Located<T>(st: Store<T>, h: Header)
  {
    (h.file, h.base) in st && h.used <= |st[(h.file, h.base)]|
  }

  ghost predicate AllLocated<T>(st: Store<T>, hs: seq<Header>)
  {
    forall k :: 0 <= k < |hs| ==> Located(st, hs[k])
  }

  // A new block elsewhere does not change what located headers denote.
  lemma FrameItems<T>(st: Store<T>, a: (nat, nat), data: seq<T>, hs: seq<Header>)
    requires AllLocated(st, hs) && a !in st
    ensures AllLocated(st[a := data], hs) && Items(st[a := data], hs) == Items(st, hs)
  {
    forall k | 0 <= k < |hs| ensures Located(st[a := data], hs[k]) && Block(st[a := data], hs[k]) == Block(st, hs[k]) {
      assert Located(st, hs[k]);
    }
  }

  lemma {:induction false} TaggedLocated<T>(st: Store<T>, hs: seq<Header>, b: nat)
    requires AllLocated(st, hs)
    ensures AllLocated(st, Tagged(hs, b))
  {
    if hs != [] {
      var n := |hs| - 1;
      TaggedLocated(st, hs[..n], b);
      assert Located(st, hs[n]);
    }
  }
}
