// The priority queue that puts chunks read in any order back in order
// (sequence_algorithms/filter.h, Plaidlay/NaiveExternalScan.h).
module ReorderQueue {
  import opened Sequences

  lemma {:induction false} StartsIncrease<T>(blocks: seq<seq<T>>, a: nat, b: nat)
    requires a < b <= |blocks| && forall k :: 0 <= k < |blocks| ==> blocks[k] != []
    ensures StartOf(blocks, a) < StartOf(blocks, b)
    decreases b - a
  {
    StartStep(blocks, b - 1);
    if a < b - 1 {
      StartsIncrease(blocks, a, b - 1);
    }
  }

  lemma Least(s: set<nat>) returns (m: nat)
    requires s != {}
    ensures m in s && forall x :: x in s ==> m <= x
  {
    m :| m in s;
    if y :| y in s && y < m {
      var x := m;
      assert y in s - {x};
      m := Least(s - {x});
      forall z | z in s ensures m <= z {
        assert m <= y && (z == x || z in s - {x});
      }
    }
  }

  class Queue<T> {
    // The waiting chunks by index, and the index of the next chunk to process.
    var heap: map<nat, seq<T>>
    var nextIndex: nat
    // The blocks of the input; which have arrived and how many have been taken.
    ghost const blocks: seq<seq<T>>
    ghost var arrived: set<nat>
    ghost var taken: nat

    ghost predicate Waiting(k: nat)
      reads this
      requires k < |blocks|
    {
      if k in arrived && k >= taken then StartOf(blocks, k) in heap && heap[StartOf(blocks, k)] == blocks[k]
      else StartOf(blocks, k) !in heap
    }

    ghost predicate IsChunk(index: nat)
      reads this
    {
      exists k: nat :: k < |blocks| && StartOf(blocks, k) == index
    }

    ghost predicate Valid()
      reads this
    {
      && (forall k :: 0 <= k < |blocks| ==> blocks[k] != [])
      && taken <= |blocks| && nextIndex == StartOf(blocks, taken)
      && (forall k: nat {:trigger k in arrived} :: k < taken ==> k in arrived)
      && (forall k {:trigger Waiting(k)} :: 0 <= k < |blocks| ==> Waiting(k))
      && (forall index {:trigger IsChunk(index)} :: index in heap ==> IsChunk(index))
    }

    constructor (ghost blocks: seq<seq<T>>)
      requires forall k :: 0 <= k < |blocks| ==> blocks[k] != []
      ensures Valid() && this.blocks == blocks && arrived == {} && taken == 0
    {
      this.blocks := blocks;
      heap, nextIndex, arrived, taken := map[], 0, {}, 0;
    }

    // A chunk arrives.
    method Offer(index: nat, data: seq<T>, ghost k: nat)
      requires Valid() && k < |blocks| && k !in arrived && index == StartOf(blocks, k) && data == blocks[k]
      modifies this`heap, this`arrived
      ensures Valid() && arrived == old(arrived) + {k}
    {
      heap := heap[index := data];
      arrived := arrived + {k};
      forall j | 0 <= j < |blocks| ensures Waiting(j) {
        assert old(Waiting(j));
        if j < k {
          StartsIncrease(blocks, j, k);
        } else if k < j {
          StartsIncrease(blocks, k, j);
        }
      }
      forall i | i in heap ensures IsChunk(i) {
        assert i != index ==> old(IsChunk(i));
      }
    }

    // Whether the chunk with the least index is the next one.
    method Ready() returns (ready: bool)
      requires Valid()
      ensures ready <==> taken < |blocks| && taken in arrived
      ensures ready ==> nextIndex in heap
    {
      if heap == map[] {
        Head();
        return false;
      }
      ghost var least := Least(heap.Keys);
      var top :| top in heap && forall x :: x in heap ==> top <= x;
      ready := top == nextIndex;
      Head();
    }

    // No waiting chunk comes before the next one, so the least index is the next one exactly
    // when that chunk has arrived.
    lemma Head()
      requires Valid()
      ensures forall x :: x in heap ==> nextIndex <= x
      ensures nextIndex in heap <==> taken < |blocks| && taken in arrived
    {
      if taken < |blocks| {
        assert Waiting(taken);
      }
      forall x | x in heap ensures nextIndex <= x && (x == nextIndex ==> taken < |blocks| && taken in arrived) {
        assert IsChunk(x);
        var k: nat :| k < |blocks| && StartOf(blocks, k) == x;
        assert Waiting(k);
        if k > taken {
          StartsIncrease(blocks, taken, k);
        }
      }
    }

    method Take() returns (data: seq<T>)
      requires Valid() && taken < |blocks| && taken in arrived && nextIndex in heap
      modifies this`heap, this`taken, this`nextIndex
      ensures Valid() && taken == old(taken) + 1 && data == blocks[old(taken)]
    {
      assert Waiting(taken);
      data := heap[nextIndex];
      ghost var index := nextIndex;
      heap := heap - {nextIndex};
      StartStep(blocks, taken);
      nextIndex := nextIndex + |data|;
      taken := taken + 1;
      forall j | 0 <= j < |blocks| ensures Waiting(j) {
        assert old(Waiting(j));
        if j < taken - 1 {
          StartsIncrease(blocks, j, taken - 1);
        } else if taken - 1 < j {
          StartsIncrease(blocks, taken - 1, j);
        }
      }
      forall i | i in heap ensures IsChunk(i) {
        assert old(IsChunk(i));
      }
    }

    // Once every chunk has arrived and the next one is not waiting, all have been taken and
    // the heap is empty.
    lemma Drained()
      requires Valid() && !(taken < |blocks| && taken in arrived)
      requires forall k: nat :: k < |blocks| ==> k in arrived
      ensures taken == |blocks| && heap == map[]
    {
      forall x: nat ensures x !in heap {
        if IsChunk(x) {
          var k: nat :| k < |blocks| && StartOf(blocks, k) == x;
          assert Waiting(k);
        }
      }
    }
  }
}
