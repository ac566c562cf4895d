// The bucketed writer of the scatter phase (utils/ordered_file_writer.h): many threads append
// blocks to many bucket files through a shared pool of vectored write requests, and the
// requests complete in any order.
module WriterState {
  import opened Sequences
  import opened Disk

  // size is current_size: the bytes gathered so far.
  datatype Request = Request(bucket: nat, offset: nat, vecs: seq<seq<Byte>>, size: nat)

  datatype Bucket = Bucket(request: nat, fileSize: nat, misaligned: seq<seq<Byte>>)

  // Where a pool request is: in the free queue, held by a bucket, in the hands of a thread that
  // has detached it from its bucket, in the pending queue or submitted to a ring.
  datatype Place = Free | Held | InHand | Pending | InRing

  datatype Config = Config(numBuckets: nat, align: nat, vectorSize: nat, threshold: nat)

  // numBuckets > 0 and the sizes come from Initialize and configs.h; the marker must be able
  // to express the largest padding.
  ghost predicate IsConfig(c: Config)
  {
    c.numBuckets > 0 && 0 < c.align < MARKER_CAPACITY - 1 && c.vectorSize > 0
  }

  // stream[b] is what has been accepted for file b, in file order; extents[b] lists the
  // (offset, size) of the requests submitted for it; open are the buckets holding a request.
  datatype State = State(cfg: Config, requests: seq<Request>, buckets: seq<Bucket>,
                         free: seq<nat>, inHand: set<nat>, pending: seq<nat>, ring: set<nat>, files: seq<File>,
                         open: set<nat>, place: seq<Place>,
                         stream: seq<seq<Byte>>, extents: seq<seq<(nat, nat)>>)

  // ---- invariant ---------------------------------------------------------------------------

  // The extents follow one another from 0 to size without gap or overlap.
  ghost predicate Tiles(ext: seq<(nat, nat)>, size: nat)
  {
    if ext == [] then size == 0
    else var (o, n) := ext[|ext| - 1]; o + n == size && Tiles(ext[..|ext| - 1], o)
  }

  ghost predicate InFlight(s: State, id: nat)
  {
    id < |s.place| && (s.place[id] == InHand || s.place[id] == Pending || s.place[id] == InRing)
  }

  ghost predicate CoveredBy(s: State, id: nat, b: nat, k: nat)
  {
    && InFlight(s, id) && id < |s.requests| && s.requests[id].bucket == b
    && s.requests[id].offset <= k < s.requests[id].offset + s.requests[id].size
  }

  ghost predicate OnItsWay(s: State, b: nat, k: nat)
  {
    exists id: nat :: CoveredBy(s, id, b, k)
  }

  ghost predicate NoRepeats(q: seq<nat>)
  {
    forall i, j :: 0 <= i < j < |q| ==> q[i] != q[j]
  }

  // Every pool request is in exactly one place.
  ghost predicate PoolInv(s: State)
  {
    && |s.place| == |s.requests|
    && (forall id :: id in s.free <==> 0 <= id < |s.place| && s.place[id] == Free)
    && (forall id :: id in s.inHand <==> 0 <= id < |s.place| && s.place[id] == InHand)
    && (forall id :: id in s.pending <==> 0 <= id < |s.place| && s.place[id] == Pending)
    && (forall id :: id in s.ring <==> 0 <= id < |s.place| && s.place[id] == InRing)
    && NoRepeats(s.free) && NoRepeats(s.pending)
    && (forall id :: 0 <= id < |s.place| && s.place[id] == Held ==>
          s.requests[id].bucket in s.open && s.requests[id].bucket < |s.buckets|
              && s.buckets[s.requests[id].bucket].request == id)
  }

  // A held request will be written right after what has been submitted for its bucket.
  ghost predicate HeldInv(s: State, b: nat)
    requires b < |s.buckets| && b < |s.stream| && s.cfg.align > 0
  {
    var id := s.buckets[b].request;
    && id < |s.requests| && id < |s.place| && s.place[id] == Held
    && var r := s.requests[id];
    && r.bucket == b && r.offset == s.buckets[b].fileSize
    && r.size == |Concat(r.vecs)| && r.size % s.cfg.align == 0 && |r.vecs| <= s.cfg.vectorSize
    && |s.stream[b]| == r.offset + r.size && s.stream[b][r.offset..] == Concat(r.vecs)
  }

  // The bytes submitted for a bucket are on disk or in a request that is on its way.
  ghost predicate BucketInv(s: State, b: nat)
    requires b < |s.buckets| && b < |s.stream| && b < |s.files| && b < |s.extents| && s.cfg.align > 0
  {
    var size := s.buckets[b].fileSize;
    && size <= |s.stream[b]| && size % s.cfg.align == 0
    && (if b in s.open then HeldInv(s, b) else |s.stream[b]| == size)
    && (forall k :: k in s.files[b] ==> k < size && s.files[b][k] == s.stream[b][k])
    && (forall k: nat :: k < size ==> k in s.files[b] || OnItsWay(s, b, k))
    && Tiles(s.extents[b], size)
  }

  ghost predicate FlightInv(s: State, id: nat)
    requires id < |s.requests| && |s.stream| == |s.buckets| == |s.extents|
  {
    var r := s.requests[id];
    && r.bucket < |s.buckets| && |r.vecs| <= s.cfg.vectorSize
    && r.size == |Concat(r.vecs)| && r.offset + r.size <= s.buckets[r.bucket].fileSize <= |s.stream[r.bucket]|
    && s.stream[r.bucket][r.offset..r.offset + r.size] == Concat(r.vecs)
    && (r.offset, r.size) in s.extents[r.bucket]
  }

  ghost predicate Inv(s: State)
  {
    && IsConfig(s.cfg)
    && |s.buckets| == |s.files| == |s.stream| == |s.extents| == s.cfg.numBuckets
    && |s.requests| > s.cfg.numBuckets
    && PoolInv(s)
    && (forall b :: 0 <= b < s.cfg.numBuckets ==> BucketInv(s, b))
    && (forall id :: InFlight(s, id) ==> FlightInv(s, id))
  }

  // ---- atomic transitions ------------------------------------------------------------------

  // What BucketInv says of bucket c depends only on that bucket and on the requests in flight.
  lemma BucketFrame(s: State, t: State, c: nat)
    requires s.cfg.align > 0 && t.cfg == s.cfg && c < |s.buckets| == |t.buckets| && c < |s.stream| == |t.stream|
    requires c < |s.files| == |t.files| && c < |s.extents| == |t.extents|
    requires s.buckets[c].request == t.buckets[c].request && s.buckets[c].fileSize == t.buckets[c].fileSize
    requires s.stream[c] == t.stream[c] && s.files[c] == t.files[c] && s.extents[c] == t.extents[c]
    requires c in s.open <==> c in t.open
    requires c in s.open && HeldInv(s, c) ==> HeldInv(t, c)
    requires KeepsFlight(s, t)
    requires BucketInv(s, c)
    ensures BucketInv(t, c)
  {
    KeepCover(s, t, c);
  }

  ghost predicate KeepsFlight(s: State, t: State)
  {
    forall id: nat :: InFlight(s, id) && id < |s.requests| ==>
        InFlight(t, id) && id < |t.requests| && t.requests[id] == s.requests[id]
  }

  lemma KeepCover(s: State, t: State, b: nat)
    requires KeepsFlight(s, t)
    ensures forall k: nat :: OnItsWay(s, b, k) ==> OnItsWay(t, b, k)
  {
    forall k: nat | OnItsWay(s, b, k) ensures OnItsWay(t, b, k) {
      var id: nat :| CoveredBy(s, id, b, k);
      assert CoveredBy(t, id, b, k);
    }
  }

  // AddPointer on the request held by bucket b.
  function Add(s: State, b: nat, data: seq<Byte>): State
    requires b < |s.buckets| && s.buckets[b].request < |s.requests| && b < |s.stream|
  {
    var id := s.buckets[b].request;
    var r := s.requests[id];
    s.(requests := s.requests[id := r.(vecs := r.vecs + [data], size := r.size + |data|)],
       stream := s.stream[b := s.stream[b] + data])
  }

  lemma AddKeepsInv(s: State, b: nat, data: seq<Byte>)
    requires Inv(s) && b in s.open && b < s.cfg.numBuckets && |data| % s.cfg.align == 0
    requires BucketInv(s, b) && |s.requests[s.buckets[b].request].vecs| < s.cfg.vectorSize
    ensures Inv(Add(s, b, data))
  {
    var t := Add(s, b, data);
    AddToBucket(s, b, data);
    forall c | 0 <= c < s.cfg.numBuckets && c != b ensures BucketInv(t, c) {
      assert BucketInv(s, c);
      BucketFrame(s, t, c);
    }
    forall i | InFlight(t, i) ensures FlightInv(t, i) {
      AddKeepsFlight(s, b, data, i);
    }
  }

  lemma AddKeepsFlight(s: State, b: nat, data: seq<Byte>, i: nat)
    requires OpenBucket(s, b) && i < |s.requests| && InFlight(s, i) && FlightInv(s, i)
    ensures FlightInv(Add(s, b, data), i)
  {
  }

  lemma AddToBucket(s: State, b: nat, data: seq<Byte>)
    requires IsConfig(s.cfg) && b in s.open && b < |s.buckets| == |s.stream| == |s.files| == |s.extents|
    requires |data| % s.cfg.align == 0
    requires BucketInv(s, b) && |s.requests[s.buckets[b].request].vecs| < s.cfg.vectorSize
    ensures BucketInv(Add(s, b, data), b)
  {
    var t := Add(s, b, data);
    var r := s.requests[s.buckets[b].request];
    ConcatSnoc(r.vecs, data);
    AddMod(r.size, |data|, s.cfg.align);
    assert t.stream[b][r.offset..] == s.stream[b][r.offset..] + data;
    KeepCover(s, t, b);
  }

  // The request held by bucket b is detached from it; it is submitted once the bucket's lock is
  // released.
  function Detach(s: State, b: nat): State
    requires b < |s.buckets| == |s.extents| && s.buckets[b].request < |s.requests| == |s.place|
  {
    var id := s.buckets[b].request;
    var r := s.requests[id];
    s.(buckets := s.buckets[b := s.buckets[b].(fileSize := s.buckets[b].fileSize + r.size)],
       inHand := s.inHand + {id}, place := s.place[id := InHand], open := s.open - {b},
       extents := s.extents[b := s.extents[b] + [(r.offset, r.size)]])
  }

  lemma DetachPool(s: State, b: nat)
    requires PoolInv(s) && b < |s.buckets| == |s.extents| && s.buckets[b].request < |s.requests|
    requires s.place[s.buckets[b].request] == Held && s.requests[s.buckets[b].request].bucket == b
    ensures PoolInv(Detach(s, b))
  {
  }

  lemma DetachKeepsInv(s: State, b: nat)
    requires Inv(s) && b in s.open && b < s.cfg.numBuckets && BucketInv(s, b)
    ensures Inv(Detach(s, b))
  {
    var t := Detach(s, b);
    DetachPool(s, b);
    DetachedBucket(s, b);
    forall c | 0 <= c < s.cfg.numBuckets && c != b ensures BucketInv(t, c) {
      assert BucketInv(s, c);
      BucketFrame(s, t, c);
    }
    forall i | InFlight(t, i) ensures FlightInv(t, i) {
      if i == s.buckets[b].request {
        DetachedFlight(s, b);
      } else {
        assert FlightInv(s, i);
      }
    }
  }

  // The state has an open bucket b.
  ghost predicate OpenBucket(s: State, b: nat)
  {
    && IsConfig(s.cfg) && |s.place| == |s.requests|
    && b in s.open && b < |s.buckets| == |s.stream| == |s.files| == |s.extents| && BucketInv(s, b)
  }

  lemma DetachedBucket(s: State, b: nat)
    requires OpenBucket(s, b)
    ensures BucketInv(Detach(s, b), b)
  {
    var t := Detach(s, b);
    var id := s.buckets[b].request;
    AddMod(s.buckets[b].fileSize, s.requests[id].size, s.cfg.align);
    assert t.extents[b][..|t.extents[b]| - 1] == s.extents[b];
    KeepCover(s, t, b);
    forall k: nat | k < t.buckets[b].fileSize ensures k in t.files[b] || OnItsWay(t, b, k) {
      if k >= s.buckets[b].fileSize {
        assert CoveredBy(t, id, b, k);
      }
    }
  }

  lemma DetachedFlight(s: State, b: nat)
    requires OpenBucket(s, b)
    ensures FlightInv(Detach(s, b), s.buckets[b].request)
  {
    var r := s.requests[s.buckets[b].request];
    assert s.stream[b][r.offset..r.offset + r.size] == s.stream[b][r.offset..];
  }

  // NewRequest: bucket b takes the first free request for what comes next in its file.
  function NewRequest(s: State, b: nat): State
    requires s.free != [] && s.free[0] < |s.requests| == |s.place| && b < |s.buckets|
  {
    var id := s.free[0];
    s.(requests := s.requests[id := Request(b, s.buckets[b].fileSize, [], 0)],
       buckets := s.buckets[b := s.buckets[b].(request := id)],
       free := s.free[1..], place := s.place[id := Held], open := s.open + {b})
  }

  lemma NewRequestPool(s: State, b: nat)
    requires PoolInv(s) && b < |s.buckets| && b !in s.open && s.free != [] && s.free[0] in s.free
    ensures PoolInv(NewRequest(s, b))
  {
    assert forall x :: x in s.free <==> x == s.free[0] || x in s.free[1..];
  }

  lemma NewRequestKeepsInv(s: State, b: nat)
    requires Inv(s) && b !in s.open && b < s.cfg.numBuckets && s.free != []
    ensures s.free[0] < |s.requests| && Inv(NewRequest(s, b))
  {
    var id := s.free[0];
    assert id in s.free;
    var t := NewRequest(s, b);
    NewRequestPool(s, b);
    assert BucketInv(s, b);
    RenewedBucket(s, b);
    forall c | 0 <= c < s.cfg.numBuckets && c != b ensures BucketInv(t, c) {
      assert BucketInv(s, c);
      BucketFrame(s, t, c);
    }
    forall i | InFlight(t, i) ensures FlightInv(t, i) {
      assert FlightInv(s, i);
    }
  }

  lemma RenewedBucket(s: State, b: nat)
    requires IsConfig(s.cfg) && |s.place| == |s.requests| && s.free != [] && s.free[0] < |s.requests|
    requires b !in s.open && b < |s.buckets| == |s.stream| == |s.files| == |s.extents| && BucketInv(s, b)
    requires s.place[s.free[0]] == Free
    ensures BucketInv(NewRequest(s, b), b)
  {
    KeepCover(s, NewRequest(s, b), b);
  }

  ghost predicate CanRenew(s: State, b: nat)
  {
    && b < |s.buckets| == |s.extents| && s.buckets[b].request < |s.requests| == |s.place|
    && s.free != [] && s.free[0] < |s.requests|
  }

  // The full request of bucket b is detached and replaced by a free one.
  ghost function Renew(s: State, b: nat): State
    requires CanRenew(s, b)
  {
    NewRequest(Detach(s, b), b)
  }

  lemma RenewKeepsInv(s: State, b: nat)
    requires Inv(s) && b in s.open && b < s.cfg.numBuckets && s.free != []
    ensures CanRenew(s, b) && Inv(Renew(s, b))
  {
    assert BucketInv(s, b);
    DetachKeepsInv(s, b);
    NewRequestKeepsInv(Detach(s, b), b);
  }

  lemma CloseKeepsInv(s: State, b: nat, tail: seq<Byte>)
    requires Inv(s) && b in s.open && b < s.cfg.numBuckets && HasRoom(s, b) && |tail| % s.cfg.align == 0
    ensures |s.extents| == |s.buckets| && |s.requests| == |s.place|
    ensures Inv(Detach(Add(s, b, tail), b))
  {
    assert BucketInv(s, b);
    AddKeepsInv(s, b, tail);
    assert BucketInv(Add(s, b, tail), b);
    DetachKeepsInv(Add(s, b, tail), b);
  }

  // The request of bucket b, if it holds one, has room for another pointer.
  ghost predicate HasRoom(s: State, b: nat)
  {
    b in s.open ==>
      b < |s.buckets| && s.buckets[b].request < |s.requests|
      && |s.requests[s.buckets[b].request].vecs| < s.cfg.vectorSize
  }

  lemma AddKeepsRoom(s: State, b: nat, data: seq<Byte>)
    requires Inv(s) && b in s.open && b < s.cfg.numBuckets && s.buckets[b].request < |s.requests|
    ensures forall c: nat :: c != b && c < s.cfg.numBuckets && HasRoom(s, c) ==> HasRoom(Add(s, b, data), c)
  {
    forall c: nat | c != b && c < s.cfg.numBuckets && c in s.open ensures s.buckets[c].request != s.buckets[b].request {
      assert BucketInv(s, c) && BucketInv(s, b);
    }
  }

  lemma RenewKeepsRoom(s: State, b: nat)
    requires Inv(s) && b in s.open && b < s.cfg.numBuckets && CanRenew(s, b)
    ensures HasRoom(Renew(s, b), b)
    ensures forall c: nat :: c != b && c < s.cfg.numBuckets && HasRoom(s, c) ==> HasRoom(Renew(s, b), c)
  {
    assert s.free[0] in s.free;
    forall c: nat | c != b && c < s.cfg.numBuckets && c in s.open ensures s.buckets[c].request != s.free[0] {
      assert BucketInv(s, c);
    }
  }

  lemma CompleteKeepsRoom(s: State, id: nat)
    requires id < |s.requests| == |s.place| && s.requests[id].bucket < |s.files| && s.cfg.vectorSize > 0
    ensures forall c: nat :: HasRoom(s, c) ==> HasRoom(Complete(s, id), c)
  {
  }

  // A block whose size is not a multiple of the alignment is put aside.
  function PutAside(s: State, b: nat, data: seq<Byte>): State
    requires b < |s.buckets|
  {
    s.(buckets := s.buckets[b := s.buckets[b].(misaligned := s.buckets[b].misaligned + [data])])
  }

  lemma PutAsideKeepsInv(s: State, b: nat, data: seq<Byte>)
    requires Inv(s) && b < s.cfg.numBuckets
    ensures Inv(PutAside(s, b, data))
  {
    var t := PutAside(s, b, data);
    forall c | 0 <= c < s.cfg.numBuckets ensures BucketInv(t, c) {
      assert BucketInv(s, c);
      BucketFrame(s, t, c);
    }
    forall i | InFlight(t, i) ensures FlightInv(t, i) {
      assert FlightInv(s, i);
    }
  }

  // SubmitRequest: a detached request goes to the pending queue.
  function Submit(s: State, id: nat): State
    requires id < |s.place|
  {
    s.(inHand := s.inHand - {id}, pending := s.pending + [id], place := s.place[id := Pending])
  }

  lemma SubmitPool(s: State, id: nat)
    requires PoolInv(s) && id in s.inHand
    ensures PoolInv(Submit(s, id))
  {
  }

  lemma SubmitKeepsInv(s: State, id: nat)
    requires Inv(s) && id in s.inHand
    ensures id < |s.place| && Inv(Submit(s, id))
  {
    var t := Submit(s, id);
    SubmitPool(s, id);
    forall c | 0 <= c < s.cfg.numBuckets ensures BucketInv(t, c) {
      assert BucketInv(s, c);
      BucketFrame(s, t, c);
    }
    forall i | InFlight(t, i) ensures FlightInv(t, i) {
      assert FlightInv(s, i);
    }
  }

  // An I/O thread polls the oldest pending request and submits it to its ring.
  function Issue(s: State): State
    requires s.pending != [] && s.pending[0] < |s.place|
  {
    s.(pending := s.pending[1..], ring := s.ring + {s.pending[0]}, place := s.place[s.pending[0] := InRing])
  }

  lemma IssuePool(s: State)
    requires PoolInv(s) && s.pending != [] && s.pending[0] in s.pending
    ensures PoolInv(Issue(s))
  {
    assert forall x :: x in s.pending <==> x == s.pending[0] || x in s.pending[1..];
  }

  lemma IssueKeepsInv(s: State)
    requires Inv(s) && s.pending != []
    ensures s.pending[0] < |s.place| && Inv(Issue(s))
  {
    var id := s.pending[0];
    assert id in s.pending;
    var t := Issue(s);
    IssuePool(s);
    forall c | 0 <= c < s.cfg.numBuckets ensures BucketInv(t, c) {
      assert BucketInv(s, c);
      BucketFrame(s, t, c);
    }
    forall i | InFlight(t, i) ensures FlightInv(t, i) {
      assert FlightInv(s, i);
    }
  }

  // A submitted write completes: its bytes are on disk and the request is free again.
  function Complete(s: State, id: nat): State
    requires id < |s.requests| == |s.place| && s.requests[id].bucket < |s.files|
  {
    var r := s.requests[id];
    s.(files := s.files[r.bucket := WriteAt(s.files[r.bucket], r.offset, Concat(r.vecs))],
       requests := s.requests[id := r.(vecs := [], size := 0)],
       ring := s.ring - {id}, free := s.free + [id], place := s.place[id := Free])
  }

  lemma CompletePool(s: State, id: nat)
    requires PoolInv(s) && id in s.ring && s.requests[id].bucket < |s.files|
    ensures PoolInv(Complete(s, id))
  {
  }

  lemma CompleteKeepsInv(s: State, id: nat)
    requires Inv(s) && id in s.ring
    ensures id < |s.requests| && s.requests[id].bucket < |s.files| && Inv(Complete(s, id))
  {
    assert InFlight(s, id) && FlightInv(s, id);
    var t := Complete(s, id);
    CompletePool(s, id);
    forall c | 0 <= c < s.cfg.numBuckets ensures BucketInv(t, c) {
      assert BucketInv(s, c);
      CompletedBucket(s, id, c);
    }
    forall i | InFlight(t, i) ensures FlightInv(t, i) {
      assert FlightInv(s, i);
    }
  }

  lemma CompletedBucket(s: State, id: nat, c: nat)
    requires IsConfig(s.cfg) && |s.place| == |s.requests| && InFlight(s, id)
    requires c < |s.buckets| == |s.stream| == |s.files| == |s.extents| && BucketInv(s, c) && FlightInv(s, id)
    ensures BucketInv(Complete(s, id), c)
  {
    var r := s.requests[id];
    CompletedOnDisk(s, id, c);
    if c == r.bucket {
      SliceOnDisk(s.stream[c], r.offset, r.size, Concat(r.vecs), s.files[c], s.buckets[c].fileSize);
    }
  }

  lemma SliceOnDisk(stream: seq<Byte>, off: nat, len: nat, data: seq<Byte>, f: File, size: nat)
    requires off + len <= size <= |stream| && stream[off..off + len] == data
    requires forall k :: k in f ==> k < size && f[k] == stream[k]
    ensures forall k :: k in WriteAt(f, off, data) ==> k < size && WriteAt(f, off, data)[k] == stream[k]
  {
    forall k | k in WriteAt(f, off, data) && off <= k < off + len ensures stream[k] == data[k - off] {
      assert stream[off..off + len][k - off] == stream[k];
    }
  }

  lemma CompletedOnDisk(s: State, id: nat, b: nat)
    requires id < |s.requests| == |s.place| && s.requests[id].bucket < |s.files| && b < |s.files|
    requires s.requests[id].size == |Concat(s.requests[id].vecs)|
    ensures forall k: nat :: k in s.files[b] || OnItsWay(s, b, k)
                        ==> k in Complete(s, id).files[b] || OnItsWay(Complete(s, id), b, k)
  {
    var t := Complete(s, id);
    forall k: nat | OnItsWay(s, b, k) ensures k in t.files[b] || OnItsWay(t, b, k) {
      var i: nat :| CoveredBy(s, i, b, k);
      if i != id {
        assert CoveredBy(t, i, b, k);
      }
    }
  }

  // ---- consequences ------------------------------------------------------------------------

  // Start of Initialize: the whole pool is free and no bucket has written anything.
  function Start(c: Config): State
  {
    var pool := 10 * c.numBuckets;
    State(c, seq(pool, _ => Request(0, 0, [], 0)), seq(c.numBuckets, _ => Bucket(0, 0, [])),
          seq(pool, i => i), {}, [], {}, seq(c.numBuckets, _ => map[]), {}, seq(pool, _ => Free),
          seq(c.numBuckets, _ => []), seq(c.numBuckets, _ => []))
  }

  lemma StartInv(c: Config)
    requires IsConfig(c)
    ensures Inv(Start(c))
  {
    var s := Start(c);
    assert forall id :: id in s.free <==> 0 <= id < |s.place| by {
      forall id | 0 <= id < |s.place| ensures id in s.free {
        assert s.free[id] == id;
      }
    }
  }

  // When nothing is on its way a free request is available: a writer that waits for one is
  // always woken up.
  lemma NeverStuck(s: State)
    requires Inv(s) && s.inHand == {} && s.pending == [] && s.ring == {}
    ensures s.free != []
  {
    if s.free == [] {
      forall i | 0 <= i < |s.requests|
        ensures 0 <= s.requests[i].bucket < s.cfg.numBuckets && s.buckets[s.requests[i].bucket].request == i
      {
        assert i !in s.free && i !in s.inHand && i !in s.pending && i !in s.ring;
      }
      Pigeonhole(seq(|s.requests|, i requires 0 <= i < |s.requests| => s.requests[i].bucket), s.cfg.numBuckets);
      assert false;
    }
  }

  lemma {:induction false} Pigeonhole(f: seq<nat>, n: nat)
    requires forall i :: 0 <= i < |f| ==> f[i] < n
    requires NoRepeats(f)
    ensures |f| <= n
  {
    assert f != [] ==> f[0] < n;
    if n > 0 && exists i :: 0 <= i < |f| && f[i] == n - 1 {
      var i :| 0 <= i < |f| && f[i] == n - 1;
      var g := f[..i] + f[i + 1..];
      assert NoRepeats(g) by {
        assert forall j :: 0 <= j < |g| ==> g[j] == f[if j < i then j else j + 1];
      }
      Pigeonhole(g, n - 1);
    } else if n > 0 {
      Pigeonhole(f, n - 1);
    }
  }

  // Once a bucket is closed and nothing is on its way, its file is exactly what was accepted.
  lemma DrainedContents(s: State, b: nat)
    requires Inv(s) && s.inHand == {} && s.pending == [] && s.ring == {} && b < s.cfg.numBuckets && b !in s.open
    ensures HasContents(s.files[b], s.stream[b])
  {
    assert BucketInv(s, b);
    forall id: nat ensures !InFlight(s, id) {
      assert id !in s.inHand && id !in s.pending && id !in s.ring;
    }
  }

  ghost predicate InExtent(ext: seq<(nat, nat)>, i: nat, k: nat)
  {
    i < |ext| && ext[i].0 <= k < ext[i].0 + ext[i].1
  }

  // Tiling: a byte is below size exactly when it lies in some extent, and then in only one.
  lemma {:induction false} TilesExactly(ext: seq<(nat, nat)>, size: nat, k: nat)
    requires Tiles(ext, size)
    ensures k < size <==> exists i: nat :: InExtent(ext, i, k)
    ensures forall i: nat, j: nat :: InExtent(ext, i, k) && InExtent(ext, j, k) ==> i == j
  {
    if ext != [] {
      var n := |ext| - 1;
      var rest := ext[..n];
      TilesExactly(rest, ext[n].0, k);
      assert forall i: nat :: InExtent(ext, i, k) <==> InExtent(rest, i, k) || (i == n && ext[n].0 <= k < size);
      if k < ext[n].0 {
        var i: nat :| InExtent(rest, i, k);
        assert InExtent(ext, i, k);
      } else if k < size {
        assert InExtent(ext, n, k);
      }
    }
  }

  // The requests of a bucket tile what has been submitted for it, without gap or overlap, and
  // none has more vectors than the limit, not even the one with the tail.
  lemma RequestsTile(s: State, b: nat, k: nat)
    requires Inv(s) && b < s.cfg.numBuckets
    ensures k < s.buckets[b].fileSize <==> exists i: nat :: InExtent(s.extents[b], i, k)
    ensures forall i: nat, j: nat :: InExtent(s.extents[b], i, k) && InExtent(s.extents[b], j, k) ==> i == j
    ensures forall id: nat :: InFlight(s, id) && id < |s.requests| && s.requests[id].bucket == b ==>
              (s.requests[id].offset, s.requests[id].size) in s.extents[b] && |s.requests[id].vecs| <= s.cfg.vectorSize
  {
    assert BucketInv(s, b);
    TilesExactly(s.extents[b], s.buckets[b].fileSize, k);
    forall id: nat | InFlight(s, id) && id < |s.requests| && s.requests[id].bucket == b
      ensures (s.requests[id].offset, s.requests[id].size) in s.extents[b] && |s.requests[id].vecs| <= s.cfg.vectorSize
    {
      assert FlightInv(s, id);
    }
  }

  // Free, held, detached, pending and submitted requests are the whole pool, each request once.
  lemma PoolPartition(s: State, id: nat)
    requires Inv(s) && id < |s.requests|
    ensures (if id in s.free then 1 else 0) + (if id in s.inHand then 1 else 0) + (if id in s.pending then 1 else 0)
            + (if id in s.ring then 1 else 0)
          + (if exists b :: 0 <= b < s.cfg.numBuckets && b in s.open && s.buckets[b].request == id then 1 else 0) == 1
  {
    forall b | 0 <= b < s.cfg.numBuckets && b in s.open
      ensures s.buckets[b].request < |s.place| && s.place[s.buckets[b].request] == Held
    {
      assert BucketInv(s, b) && HeldInv(s, b);
    }
    if s.place[id] == Held {
      assert s.requests[id].bucket in s.open;
    }
  }
}
