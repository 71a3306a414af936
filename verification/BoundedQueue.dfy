/**
 The ring of base/bounded_queue.h as its single-threaded callers see it: an array updated in place
 that behaves like a FIFO queue holding at most `size` elements.
 */
module BoundedQueueClass {
  import opened Wrappers
  import opened Modular
  import opened BoundedQueueProtocol

  class BoundedQueue<T(0)> {
    var head: nat
    var tail: nat
    var commit: nat
    var poolSize: nat
    var pool: array<T>

    ghost predicate Valid()
      reads this, pool
    {
      && 2 <= poolSize == pool.Length
      && head < commit == tail <= head + poolSize - 1
    }

    /** The stored elements, oldest first. */
    ghost function Contents(): (s: seq<T>)
      requires Valid()
      reads this, pool
      ensures |s| == tail - head - 1
    {
      seq(tail - head - 1, i requires 0 <= i < tail - head - 1 reads this, pool requires Valid() =>
        pool[(head + 1 + i) % poolSize])
    }

    constructor Init(size: nat)
      ensures Valid() && fresh(pool)
      ensures Contents() == [] && poolSize == size + 2
    {
      head, tail, commit := 0, 1, 1;
      poolSize := size + 2;
      pool := new T[size + 2];
    }

    /** compare_exchange_weak on the tail: returns whether it stored, and what the caller's copy becomes. */
    method CasTail(expected: nat, desired: nat, spurious: bool) returns (stored: bool, seen: nat)
      modifies this`tail
      ensures stored == (!spurious && old(tail) == expected)
      ensures tail == if stored then desired else old(tail)
      ensures seen == if stored then expected else old(tail)
    {
      stored := !spurious && tail == expected;
      seen := if stored then expected else tail;
      if stored { tail := desired; }
    }

    method CasHead(expected: nat, desired: nat, spurious: bool) returns (stored: bool, seen: nat)
      modifies this`head
      ensures stored == (!spurious && old(head) == expected)
      ensures head == if stored then desired else old(head)
      ensures seen == if stored then expected else old(head)
    {
      stored := !spurious && head == expected;
      seen := if stored then expected else head;
      if stored { head := desired; }
    }

    /** Appends `element` unless exactly `poolSize - 2` are stored; the weak CASes may fail any number of times. */
    method Enqueue(element: T, weakFailures: nat) returns (ok: bool)
      requires Valid()
      modifies this`tail, this`commit, pool
      ensures Valid()
      ensures ok == (|old(Contents())| < poolSize - 2)
      ensures Contents() == if ok then old(Contents()) + [element] else old(Contents())
    {
      ghost var before := Contents();
      var oldTail, newTail := tail, 0;
      var won, left := false, weakFailures;
      while !won
        invariant pool[..] == old(pool[..]) && commit == old(commit)
        invariant if won then oldTail == old(tail) && tail == newTail == oldTail + 1 <= head + poolSize - 1
                  else oldTail == tail == old(tail)
        decreases !won, left
      {
        newTail := oldTail + 1;
        if GetIndex(newTail, poolSize) == GetIndex(head, poolSize) {
          if newTail < head + poolSize { DistinctResidues(head, newTail, poolSize); }
          return false;
        }
        if newTail == head + poolSize { ShiftedResidue(head, 1, poolSize); }
        won, oldTail := CasTail(oldTail, newTail, left > 0);
        left := if left > 0 then left - 1 else 0;
      }
      pool[GetIndex(oldTail, poolSize)] := element;
      commit := newTail;
      forall i | 0 <= i < |before|
        ensures Contents()[i] == before[i]
      {
        DistinctResidues(head + 1 + i, oldTail, poolSize);
      }
      return true;
    }

    /** Removes and returns the oldest element, or answers None iff nothing is stored. */
    method Dequeue(weakFailures: nat) returns (element: Option<T>)
      requires Valid()
      modifies this`head
      ensures Valid()
      ensures element.None? <==> old(Contents()) == []
      ensures element.None? ==> Contents() == old(Contents())
      ensures element.Some? ==> old(Contents()) == [element.value] + Contents()
    {
      element := None;
      var oldHead, newHead := head, 0;
      var won, left := false, weakFailures;
      while !won
        invariant if won then oldHead == old(head) && head == newHead == oldHead + 1 < commit
                              && element == Some(pool[newHead % poolSize])
                  else oldHead == head == old(head)
        decreases !won, left
      {
        newHead := oldHead + 1;
        if newHead == commit {
          return None;
        }
        element := Some(pool[GetIndex(newHead, poolSize)]);
        won, oldHead := CasHead(oldHead, newHead, left > 0);
        left := if left > 0 then left - 1 else 0;
      }
    }

    method Size() returns (n: nat)
      requires Valid()
      ensures n == |Contents()|
    {
      n := tail - head - 1;
    }

    method Empty() returns (empty: bool)
      requires Valid()
      ensures empty <==> Contents() == []
    {
      var n := Size();
      empty := n == 0;
    }
  }
}
