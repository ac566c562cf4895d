// The writer object: its methods are the atomic steps of producers, of CleanUp and of the I/O
// threads (utils/ordered_file_writer.h).
module OrderedFileWriter {
  import opened Sequences
  import opened Disk
  import opened WriterState

  // A well-formed end of a bucket file: the misaligned payload, padding and the marker.
  ghost predicate IsTail(tail: seq<Byte>, payload: seq<Byte>, align: nat)
    requires align > 0
  {
    && |tail| % align == 0
    && |payload| + METADATA_SIZE <= |tail| <= |payload| + align + 1
    && tail[..|payload|] == payload
    && TrueSize(tail) == |payload|
  }

  // GatherMisalignedPointers: copies the blocks that were put aside into one buffer whose
  // size is rounded up with room for the marker. The padding is whatever the buffer held.
  method GatherMisaligned(aside: seq<seq<Byte>>, align: nat) returns (tail: seq<Byte>, writeSize: nat)
    requires 0 < align < MARKER_CAPACITY - 1
    ensures IsTail(tail, Concat(aside), align) && writeSize == |Concat(aside)|
  {
    writeSize := TotalSize(aside);
    var target := (writeSize / align + 1) * align;
    if target - writeSize < METADATA_SIZE {
      target := target + align;
    }
    TargetSize(writeSize, align);
    var buffer := new Byte[target];
    CopyAside(aside, buffer, writeSize);
    MarkerRoundTrip(buffer[..], writeSize);
    assert buffer[..][..writeSize] == buffer[..writeSize];
    MakeFileEndMarker(buffer, writeSize);
    tail := buffer[..];
  }

  method TotalSize(aside: seq<seq<Byte>>) returns (writeSize: nat)
    ensures writeSize == |Concat(aside)|
  {
    writeSize := 0;
    for i := 0 to |aside|
      invariant writeSize == |Concat(aside[..i])|
    {
      assert aside[..i + 1] == aside[..i] + [aside[i]];
      ConcatSnoc(aside[..i], aside[i]);
      writeSize := writeSize + |aside[i]|;
    }
    assert aside[..|aside|] == aside;
  }

  // The blocks are copied to the front of the buffer, one after the other.
  method CopyAside(aside: seq<seq<Byte>>, buffer: array<Byte>, ghost writeSize: nat)
    requires writeSize == |Concat(aside)| <= buffer.Length
    modifies buffer
    ensures buffer[..writeSize] == Concat(aside)
  {
    var position := 0;
    for i := 0 to |aside|
      invariant position == |Concat(aside[..i])| <= writeSize
      invariant buffer[..position] == Concat(aside[..i])
    {
      assert aside[..i + 1] == aside[..i] + [aside[i]];
      ConcatSnoc(aside[..i], aside[i]);
      ConcatSplit(aside, i + 1);
      var piece := aside[i];
      forall k | 0 <= k < |piece| {
        buffer[position + k] := piece[k];
      }
      assert buffer[..position + |piece|] == Concat(aside[..i]) + piece;
      position := position + |piece|;
    }
    assert aside[..|aside|] == aside;
  }

  // The size computed is aligned and the least that leaves room for the marker.
  lemma TargetSize(n: nat, align: nat)
    requires align > 0
    ensures var t := (n / align + 1) * align;
            var target := if t - n < METADATA_SIZE then t + align else t;
            && target % align == 0 && n + METADATA_SIZE <= target < n + METADATA_SIZE + align
  {
    assert n == n / align * align + n % align;
    assert (n / align + 1) * align == n / align * align + align;
    MulMod(n / align + 1, align);
    MulMod(n / align + 2, align);
    assert (n / align + 2) * align == (n / align + 1) * align + align;
  }

  // The first n buckets hold an empty request out of ten per bucket, and nothing has been written.
  ghost predicate Opened(s: State, n: nat)
  {
    && Inv(s) && n <= s.cfg.numBuckets
    && (forall b: nat :: b in s.open <==> b < n)
    && |s.requests| == 10 * s.cfg.numBuckets && s.files == seq(s.cfg.numBuckets, _ => map[])
    && s.inHand == {} && s.pending == [] && s.ring == {} && s.stream == seq(s.cfg.numBuckets, _ => [])
    && (forall b :: 0 <= b < s.cfg.numBuckets ==> s.buckets[b].misaligned == [])
    && (forall b :: 0 <= b < n ==> s.buckets[b].request < |s.requests| && s.requests[s.buckets[b].request].vecs == [])
  }

  lemma OpenNext(s: State, b: nat)
    requires Opened(s, b) && b < s.cfg.numBuckets
    ensures s.free != [] && s.free[0] < |s.requests| && Opened(NewRequest(s, b), b + 1)
  {
    NeverStuck(s);
    NewRequestKeepsInv(s, b);
    var t := NewRequest(s, b);
    forall x | 0 <= x < b ensures t.buckets[x].request < |t.requests| && t.requests[t.buckets[x].request].vecs == [] {
      assert BucketInv(s, x);
      StaysEmpty(s, b, x);
    }
  }

  lemma StaysEmpty(s: State, b: nat, x: nat)
    requires s.free != [] && s.free[0] < |s.requests| == |s.place| && x != b && b < |s.buckets| && x < |s.buckets|
    requires s.buckets[x].request < |s.requests| && s.requests[s.buckets[x].request].vecs == []
    ensures var t := NewRequest(s, b);
            t.buckets[x].request < |t.requests| && t.requests[t.buckets[x].request].vecs == []
  {
  }

  // Initialize: every bucket takes a request from the pool.
  method Initialize(cfg: Config) returns (s: State)
    requires IsConfig(cfg)
    ensures Opened(s, cfg.numBuckets) && s.cfg == cfg
  {
    s := Start(cfg);
    StartInv(cfg);
    for b := 0 to cfg.numBuckets
      invariant Opened(s, b) && s.cfg == cfg
    {
      OpenNext(s, b);
      s := NewRequest(s, b);
    }
  }

  datatype Result = Unknown | Sizes(fileSize: nat, trueSize: nat)

  // How bucket b relates to what the producers handed over and to the recorded sizes.
  ghost predicate Accepted(s: State, b: nat, appended: seq<Byte>, aside: seq<seq<Byte>>, result: Result)
  {
    && b < |s.buckets| && b < |s.stream| && s.cfg.align > 0
    && s.buckets[b].misaligned == aside && HasRoom(s, b)
    && if b in s.open then
         s.stream[b] == appended && result.Unknown?
       else
         && appended <= s.stream[b] && IsTail(s.stream[b][|appended|..], Concat(aside), s.cfg.align)
         && result == Sizes(|s.stream[b]|, |appended| + |Concat(aside)|)
  }

  ghost predicate AllAccepted(s: State, appended: seq<seq<Byte>>, aside: seq<seq<seq<Byte>>>, results: seq<Result>)
  {
    && |appended| == |aside| == |results| == s.cfg.numBuckets
    && (forall b {:trigger Accepted(s, b, appended[b], aside[b], results[b])} ::
          0 <= b < s.cfg.numBuckets ==> Accepted(s, b, appended[b], aside[b], results[b]))
  }

  lemma PutAsideAccepted(s: State, b: nat, data: seq<Byte>,
                         appended: seq<seq<Byte>>, aside: seq<seq<seq<Byte>>>, results: seq<Result>)
    requires AllAccepted(s, appended, aside, results) && b in s.open && b < s.cfg.numBuckets && b < |s.buckets|
    ensures AllAccepted(PutAside(s, b, data), appended, aside[b := aside[b] + [data]], results)
  {
    forall c | 0 <= c < s.cfg.numBuckets
      ensures Accepted(PutAside(s, b, data), c, appended[c], aside[b := aside[b] + [data]][c], results[c])
    {
      assert Accepted(s, c, appended[c], aside[c], results[c]);
    }
  }

  lemma AddAccepted(s: State, b: nat, data: seq<Byte>,
                    appended: seq<seq<Byte>>, aside: seq<seq<seq<Byte>>>, results: seq<Result>)
    requires Inv(s) && AllAccepted(s, appended, aside, results)
    requires b in s.open && b < s.cfg.numBuckets && s.buckets[b].request < |s.requests|
    ensures var t, app := Add(s, b, data), appended[b := appended[b] + data];
            && (HasRoom(t, b) ==> AllAccepted(t, app, aside, results))
            && (CanRenew(t, b) && Inv(t) ==> AllAccepted(Renew(t, b), app, aside, results))
  {
    var t, app := Add(s, b, data), appended[b := appended[b] + data];
    AddKeepsRoom(s, b, data);
    forall c | 0 <= c < s.cfg.numBuckets
      ensures c != b || HasRoom(t, b) ==> Accepted(t, c, app[c], aside[c], results[c])
    {
      assert Accepted(s, c, appended[c], aside[c], results[c]);
    }
    if CanRenew(t, b) && Inv(t) {
      RenewKeepsRoom(t, b);
      forall c | 0 <= c < s.cfg.numBuckets ensures Accepted(Renew(t, b), c, app[c], aside[c], results[c]) {
        assert Accepted(s, c, appended[c], aside[c], results[c]);
      }
    }
  }

  // An aligned block is added, and the request handed over if that leaves no room.
  lemma AddHolds(s: State, b: nat, data: seq<Byte>,
                 appended: seq<seq<Byte>>, aside: seq<seq<seq<Byte>>>, results: seq<Result>)
    requires Inv(s) && AllAccepted(s, appended, aside, results) && |data| % s.cfg.align == 0
    requires b in s.open && b < s.cfg.numBuckets && s.buckets[b].request < |s.requests| && HasRoom(s, b)
    ensures var t, app := Add(s, b, data), appended[b := appended[b] + data];
            && Inv(t) && (HasRoom(t, b) ==> AllAccepted(t, app, aside, results))
            && (s.free != [] ==> CanRenew(t, b) && Inv(Renew(t, b)) && AllAccepted(Renew(t, b), app, aside, results))
  {
    assert BucketInv(s, b);
    AddKeepsInv(s, b, data);
    AddAccepted(s, b, data, appended, aside, results);
    if s.free != [] {
      RenewKeepsInv(Add(s, b, data), b);
    }
  }

  // The I/O threads do not change what has been accepted.
  lemma StillAccepted(s: State, t: State, appended: seq<seq<Byte>>, aside: seq<seq<seq<Byte>>>, results: seq<Result>)
    requires AllAccepted(s, appended, aside, results)
    requires t.cfg == s.cfg && t.buckets == s.buckets && t.stream == s.stream && t.open == s.open
    requires forall b: nat :: HasRoom(s, b) ==> HasRoom(t, b)
    ensures AllAccepted(t, appended, aside, results)
  {
    forall b | 0 <= b < s.cfg.numBuckets ensures Accepted(t, b, appended[b], aside[b], results[b]) {
      assert Accepted(s, b, appended[b], aside[b], results[b]);
    }
  }

  lemma CloseAccepted(s: State, b: nat, tail: seq<Byte>,
                      appended: seq<seq<Byte>>, aside: seq<seq<seq<Byte>>>, results: seq<Result>)
    requires Inv(s) && AllAccepted(s, appended, aside, results)
    requires b in s.open && b < s.cfg.numBuckets && s.buckets[b].request < |s.requests|
    requires IsTail(tail, Concat(aside[b]), s.cfg.align)
    requires |s.extents| == |s.buckets| && |s.requests| == |s.place|
    ensures var t := Detach(Add(s, b, tail), b);
            && t.buckets[b].fileSize >= |tail|
            && AllAccepted(t, appended, aside,
                           results[b := Sizes(t.buckets[b].fileSize,
                                              t.buckets[b].fileSize - |tail| + |Concat(aside[b])|)])
  {
    var t := Detach(Add(s, b, tail), b);
    AddKeepsRoom(s, b, tail);
    forall c | 0 <= c < s.cfg.numBuckets && c != b ensures Accepted(t, c, appended[c], aside[c], results[c]) {
      assert Accepted(s, c, appended[c], aside[c], results[c]);
      assert HasRoom(Add(s, b, tail), c);
    }
    assert Accepted(s, b, appended[b], aside[b], results[b]);
    assert t.stream[b][|appended[b]|..] == tail;
    assert BucketInv(s, b);
  }

  // A file that ends in a tail.
  lemma TailAtEnd(all: seq<Byte>, appended: seq<Byte>, payload: seq<Byte>, align: nat)
    requires align > 0 && appended <= all && IsTail(all[|appended|..], payload, align)
    ensures |appended + payload| + METADATA_SIZE <= |all| && all[..|appended + payload|] == appended + payload
    ensures TrueSize(all) == |appended + payload|
  {
    var tail := all[|appended|..];
    assert all == appended + tail;
    assert all[..|appended + payload|] == appended + tail[..|payload|];
  }

  class OrderedFileWriter {
    const cfg: Config
    var requests: seq<Request>
    var buckets: seq<Bucket>
    var freeRequests: seq<nat>
    // Requests that a thread has detached from a bucket and not yet submitted.
    var inHand: set<nat>
    var pendingRequests: seq<nat>
    var ring: set<nat>
    var files: seq<File>
    var results: seq<Result>
    ghost var open: set<nat>
    ghost var place: seq<Place>
    ghost var stream: seq<seq<Byte>>
    ghost var extents: seq<seq<(nat, nat)>>
    // What the producers handed over for each bucket: in place, and put aside.
    ghost var appended: seq<seq<Byte>>
    ghost var aside: seq<seq<seq<Byte>>>

    ghost function View(): State
      reads this
    {
      State(cfg, requests, buckets, freeRequests, inHand, pendingRequests, ring, files, open, place, stream, extents)
    }

    ghost predicate Valid()
      reads this
    {
      && Inv(View()) && AllAccepted(View(), appended, aside, results)
      && forall b :: b in open ==> b < cfg.numBuckets
    }

    // What is still to be done with the detached and the submitted requests.
    function Backlog(): nat
      reads this
    {
      3 * |inHand| + 2 * |pendingRequests| + |ring|
    }

    constructor (cfg: Config)
      requires IsConfig(cfg)
      ensures Valid() && this.cfg == cfg && forall b: nat :: b in open <==> b < cfg.numBuckets
      ensures appended == seq(cfg.numBuckets, _ => []) && aside == seq(cfg.numBuckets, _ => [])
      ensures inHand == {} && pendingRequests == [] && ring == {}
    {
      var s := Initialize(cfg);
      this.cfg := cfg;
      requests, buckets, freeRequests, inHand, pendingRequests := s.requests, s.buckets, s.free, s.inHand, s.pending;
      ring, files, open, place, stream, extents := s.ring, s.files, s.open, s.place, s.stream, s.extents;
      results := seq(cfg.numBuckets, _ => Unknown);
      appended, aside := seq(cfg.numBuckets, _ => []), seq(cfg.numBuckets, _ => []);
    }

    // Whether adding n more bytes makes bucket b hand its request over.
    predicate Fills(b: nat, n: nat)
      requires b < |buckets| && buckets[b].request < |requests|
      reads this
    {
      var r := requests[buckets[b].request];
      r.size + n >= cfg.threshold || |r.vecs| + 1 >= cfg.vectorSize
    }

    // Write needs a free request when it hands one over, and waits for it.
    predicate CanWrite(b: nat, data: seq<Byte>)
      requires b < |buckets| && buckets[b].request < |requests| && cfg.align > 0
      reads this
    {
      |data| % cfg.align != 0 || !Fills(b, |data|) || freeRequests != []
    }

    lemma HoldsRequest(b: nat)
      requires Valid() && b in open
      ensures b < |buckets| && buckets[b].request < |requests|
    {
      assert Accepted(View(), b, appended[b], aside[b], results[b]);
    }

    method AddPointer(b: nat, data: seq<Byte>)
      requires b < |buckets| && buckets[b].request < |requests| && b < |stream|
      modifies this`requests, this`stream
      ensures View() == Add(old(View()), b, data)
    {
      var id := buckets[b].request;
      var r := requests[id];
      requests := requests[id := r.(vecs := r.vecs + [data], size := r.size + |data|)];
      stream := stream[b := stream[b] + data];
    }

    // The part of Write that detaches a full request, under the bucket's lock, and replaces it.
    method HandOver(b: nat)
      requires CanRenew(View(), b)
      modifies this`requests, this`buckets, this`freeRequests, this`inHand, this`open, this`place, this`extents
      ensures View() == Renew(old(View()), b)
    {
      var id, next := buckets[b].request, freeRequests[0];
      var r := requests[id];
      var fileSize := buckets[b].fileSize + r.size;
      buckets := buckets[b := buckets[b].(request := next, fileSize := fileSize)];
      requests := requests[next := Request(b, fileSize, [], 0)];
      freeRequests, inHand := freeRequests[1..], inHand + {id};
      place, open := place[id := InHand][next := Held], open - {b} + {b};
      extents := extents[b := extents[b] + [(r.offset, r.size)]];
    }

    method AddAside(b: nat, data: seq<Byte>)
      requires b < |buckets|
      modifies this`buckets
      ensures View() == PutAside(old(View()), b, data)
    {
      buckets := buckets[b := buckets[b].(misaligned := buckets[b].misaligned + [data])];
    }

    // With this block the bucket's request has enough bytes or enough blocks to be written.
    predicate FillsUp(b: nat, data: seq<Byte>)
      requires b < |buckets| && buckets[b].request < |requests|
      reads this
    {
      var r := requests[buckets[b].request];
      r.size + |data| >= cfg.threshold || |r.vecs| + 1 >= cfg.vectorSize
    }

    // Takes over one block for bucket b. The bucket's request is handed over exactly when the
    // block fills it up.
    method Write(b: nat, data: seq<Byte>)
      requires Valid() && b in open && b < |buckets| && buckets[b].request < |requests| && CanWrite(b, data)
      modifies this
      ensures Valid() && open == old(open) && results == old(results) && ring == old(ring)
      ensures if |data| % cfg.align == 0
              then appended == old(appended)[b := old(appended)[b] + data] && aside == old(aside)
              else appended == old(appended) && aside == old(aside)[b := old(aside)[b] + [data]]
      ensures inHand == if |data| % cfg.align == 0 && old(FillsUp(b, data))
                        then old(inHand) + {old(buckets[b].request)} else old(inHand)
    {
      if |data| % cfg.align != 0 {
        WriteAside(b, data);
      } else {
        WriteAligned(b, data);
      }
    }

    method WriteAside(b: nat, data: seq<Byte>)
      requires Valid() && b in open && |data| % cfg.align != 0
      modifies this`buckets, this`aside
      ensures Valid() && b < |old(aside)| && aside == old(aside)[b := old(aside)[b] + [data]]
    {
      assert Accepted(View(), b, appended[b], aside[b], results[b]);
      PutAsideKeepsInv(View(), b, data);
      PutAsideAccepted(View(), b, data, appended, aside, results);
      AddAside(b, data);
      aside := aside[b := aside[b] + [data]];
    }

    method WriteAligned(b: nat, data: seq<Byte>)
      requires Valid() && b in open && b < |buckets| && buckets[b].request < |requests| && CanWrite(b, data)
      requires |data| % cfg.align == 0
      modifies this
      ensures Valid() && open == old(open) && results == old(results) && ring == old(ring)
      ensures b < |old(appended)| && appended == old(appended)[b := old(appended)[b] + data] && aside == old(aside)
      ensures inHand == old(inHand) + (if old(FillsUp(b, data)) then {old(buckets[b].request)} else {})
    {
      assert Accepted(View(), b, appended[b], aside[b], results[b]);
      AddHolds(View(), b, data, appended, aside, results);
      AddPointer(b, data);
      appended := appended[b := appended[b] + data];
      var r := requests[buckets[b].request];
      if r.size >= cfg.threshold || |r.vecs| >= cfg.vectorSize {
        HandOver(b);
      }
    }

    // A thread that has released the bucket's lock submits the request it detached.
    method SubmitOne(id: nat)
      requires Valid() && id in inHand
      modifies this`inHand, this`pendingRequests, this`place
      ensures Valid() && Backlog() < old(Backlog())
      ensures id < |old(place)| && View() == Submit(old(View()), id)
    {
      ghost var s := View();
      SubmitKeepsInv(s, id);
      inHand := inHand - {id};
      pendingRequests := pendingRequests + [id];
      place := place[id := Pending];
      assert View() == Submit(s, id);
      StillAccepted(s, View(), appended, aside, results);
    }

    // An I/O thread takes the oldest pending request to its ring.
    method IssueNext()
      requires Valid() && pendingRequests != []
      modifies this`pendingRequests, this`ring, this`place
      ensures Valid() && Backlog() < old(Backlog())
      ensures old(pendingRequests)[0] < |old(place)| && View() == Issue(old(View()))
    {
      ghost var s := View();
      IssueKeepsInv(s);
      var id := pendingRequests[0];
      assert id in pendingRequests && id !in ring;
      ring := ring + {id};
      pendingRequests := pendingRequests[1..];
      place := place[id := InRing];
      assert View() == Issue(s);
      StillAccepted(s, View(), appended, aside, results);
    }

    // Any of the submitted writes completes.
    method CompleteOne(id: nat)
      requires Valid() && id in ring
      modifies this`requests, this`freeRequests, this`ring, this`files, this`place
      ensures Valid() && Backlog() < old(Backlog())
      ensures id < |old(requests)| == |old(place)| && old(requests)[id].bucket < |old(files)|
      ensures View() == Complete(old(View()), id)
    {
      ghost var s := View();
      CompleteKeepsInv(s, id);
      CompleteKeepsRoom(s, id);
      var r := requests[id];
      files := files[r.bucket := WriteAt(files[r.bucket], r.offset, Concat(r.vecs))];
      requests := requests[id := r.(vecs := [], size := 0)];
      ring, freeRequests := ring - {id}, freeRequests + [id];
      place := place[id := Free];
      assert View() == Complete(s, id);
      StillAccepted(s, View(), appended, aside, results);
    }

    method DetachHeld(b: nat)
      requires b < |buckets| == |extents| && buckets[b].request < |requests| == |place|
      modifies this`buckets, this`inHand, this`place, this`open, this`extents
      ensures View() == Detach(old(View()), b)
    {
      var id := buckets[b].request;
      var r := requests[id];
      buckets := buckets[b := buckets[b].(fileSize := buckets[b].fileSize + r.size)];
      inHand, place, open := inHand + {id}, place[id := InHand], open - {b};
      extents := extents[b := extents[b] + [(r.offset, r.size)]];
    }

    // A detached request is submitted, or an I/O thread issues a request or reaps a completion.
    method IOStep()
      requires Valid() && (inHand != {} || pendingRequests != [] || ring != {})
      modifies this`inHand, this`pendingRequests, this`ring, this`place, this`requests, this`freeRequests, this`files
      ensures Valid() && Backlog() < old(Backlog())
    {
      if {
        case inHand != {} =>
          var id :| id in inHand;
          SubmitOne(id);
        case pendingRequests != [] =>
          IssueNext();
        case ring != {} =>
          var id :| id in ring;
          CompleteOne(id);
      }
    }

    // CleanUp for one bucket: the tail goes out with what the request holds.
    method CloseBucket(b: nat)
      requires Valid() && b in open
      modifies this
      ensures Valid() && open == old(open) - {b} && appended == old(appended) && aside == old(aside)
    {
      assert BucketInv(View(), b) && Accepted(View(), b, appended[b], aside[b], results[b]);
      var tail, writeSize := GatherMisaligned(buckets[b].misaligned, cfg.align);
      SendTail(b, tail, writeSize);
    }

    // The tail is added to the bucket's request, which is then detached.
    method AddLast(b: nat, tail: seq<Byte>)
      requires b < |buckets| == |extents| && b < |stream| && buckets[b].request < |requests| == |place|
      modifies this`requests, this`stream, this`buckets, this`inHand, this`place, this`open, this`extents
      ensures View() == Detach(Add(old(View()), b, tail), b)
    {
      AddPointer(b, tail);
      DetachHeld(b);
    }

    method SendTail(b: nat, tail: seq<Byte>, writeSize: nat)
      requires Valid() && b in open && b < |aside| && b < |results| && b < |buckets| && buckets[b].request < |requests|
      requires HasRoom(View(), b) && |tail| % cfg.align == 0
      requires writeSize == |Concat(aside[b])| && IsTail(tail, Concat(aside[b]), cfg.align)
      modifies this
      ensures Valid() && open == old(open) - {b} && appended == old(appended) && aside == old(aside)
    {
      CloseKeepsInv(View(), b, tail);
      CloseAccepted(View(), b, tail, appended, aside, results);
      AddLast(b, tail);
      var fileSize := buckets[b].fileSize;
      results := results[b := Sizes(fileSize, fileSize - |tail| + writeSize)];
    }

    // After CleanUp and once the I/O threads have drained their queues, the recorded sizes are
    // those of the files, whose payload is what was written in place followed by what was put
    // aside, and the marker at the end gives the payload size.
    lemma Delivered(b: nat)
      requires Valid() && b < cfg.numBuckets && b !in open && inHand == {} && pendingRequests == [] && ring == {}
      ensures b < |files| && b < |stream| && b < |appended| == |aside| == |results| && HasContents(files[b], stream[b])
      ensures var payload := appended[b] + Concat(aside[b]);
              && results[b] == Sizes(|stream[b]|, |payload|)
              && |payload| + METADATA_SIZE <= |stream[b]| && stream[b][..|payload|] == payload
              && TrueSize(stream[b]) == |payload|
    {
      DrainedContents(View(), b);
      assert Accepted(View(), b, appended[b], aside[b], results[b]);
      TailAtEnd(stream[b], appended[b], Concat(aside[b]), cfg.align);
    }
  }
}
