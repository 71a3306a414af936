/** The values of the words that a segment's processes share. */
module SharedWords {
  const RW_LOCK_FREE := 0
  const WRITE_EXCLUSIVE := -1
  const MAX_TRY_LOCK_TIMES: nat := 5

  /** The allocation counter is a 32-bit word. */
  const WORD32: nat := 0x1_0000_0000
}

/**
 The block lock and the round-robin search for a writable block, as a single process sees them:
 transport/shm/core/block.cpp, transport/shm/core/segment.cpp and the counter of transport/shm/core/state.h.
 */
module SegmentModel {
  import opened Modular
  import opened ShmConfModel
  import opened SharedWords

  /** `writing` and `readers` record who holds the lock; the program only has `lockNum`. */
  class Block {
    var lockNum: int
    ghost var writing: bool
    ghost var readers: nat

    /** The lock is -1 under one writer and no reader, and else the number of readers. */
    ghost predicate Valid()
      reads this
    {
      && (writing ==> readers == 0)
      && lockNum == if writing then WRITE_EXCLUSIVE else RW_LOCK_FREE + readers
    }

    ghost predicate Free()
      reads this
    {
      !writing && readers == 0
    }

    constructor ()
      ensures Valid() && Free()
    {
      lockNum := RW_LOCK_FREE;
      writing, readers := false, 0;
    }

    /** Succeeds iff nobody holds the lock, unless the weak compare-exchange fails spuriously. */
    method TryLockForWrite(spurious: bool) returns (ok: bool)
      requires Valid()
      modifies this
      ensures Valid()
      ensures ok == (old(Free()) && !spurious)
      ensures if ok then writing else unchanged(this)
    {
      if spurious || lockNum != RW_LOCK_FREE {
        return false;
      }
      lockNum := WRITE_EXCLUSIVE;
      writing := true;
      return true;
    }

    /** Succeeds iff no writer holds the lock, given fewer than five spurious failures in a row. */
    method TryLockForRead(spuriousFailures: nat) returns (ok: bool)
      requires Valid()
      modifies this
      ensures Valid()
      ensures ok == (!old(writing) && spuriousFailures < MAX_TRY_LOCK_TIMES)
      ensures if ok then !writing && readers == old(readers) + 1 else unchanged(this)
    {
      var seen := lockNum;
      if seen < RW_LOCK_FREE {
        return false;
      }
      var tryTimes := 0;
      while spuriousFailures > tryTimes || lockNum != seen
        invariant 0 <= tryTimes <= spuriousFailures && tryTimes < MAX_TRY_LOCK_TIMES
        invariant lockNum == seen && unchanged(this)
        decreases spuriousFailures - tryTimes
      {
        tryTimes := tryTimes + 1;
        if tryTimes == MAX_TRY_LOCK_TIMES {
          return false;
        }
        seen := lockNum;
        if seen < RW_LOCK_FREE {
          return false;
        }
      }
      lockNum := seen + 1;
      readers := readers + 1;
      return true;
    }

    /** Gives one reader's hold back: the block stays with the other readers, and is free after the last one. */
    method ReleaseReadLock()
      requires Valid() && 0 < readers
      modifies this
      ensures Valid() && !writing && readers == old(readers) - 1
      ensures lockNum == RW_LOCK_FREE <==> old(readers) == 1
    {
      lockNum := lockNum - 1;
      readers := readers - 1;
    }

    /** Gives the writer's hold back: the block is free again, for readers and writers. */
    method ReleaseWriteLock()
      requires Valid() && writing
      modifies this
      ensures Valid() && Free() && lockNum == RW_LOCK_FREE
    {
      lockNum := lockNum + 1;
      writing := false;
    }
  }

  /** The block that the `i`-th FetchAddSeq after the counter stood at `seq` leads to. */
  function Candidate(counter: nat, i: nat, blockNum: nat): (b: nat)
    requires 0 < blockNum
    ensures b < blockNum
  {
    (counter + i) % WORD32 % blockNum
  }

  class Segment {
    var counter: nat
    const blocks: array<Block>

    ghost predicate Valid()
      reads this, blocks, set b | 0 <= b < blocks.Length :: blocks[b]
    {
      && counter < WORD32
      && 0 < blocks.Length && WORD32 % blocks.Length == 0
      && (forall i, j :: 0 <= i < j < blocks.Length ==> blocks[i] != blocks[j])
      && (forall b :: 0 <= b < blocks.Length ==> blocks[b].Valid())
    }

    ghost predicate Free(b: nat)
      requires b < blocks.Length
      reads this, blocks, blocks[b]
    {
      blocks[b].Free()
    }

    /** A segment whose configuration is that for messages of the given size. */
    constructor (realMsgSize: nat)
      ensures Valid() && fresh(blocks) && blocks.Length == ConfFor(realMsgSize).blockNum
      ensures counter == 0 && forall b :: 0 <= b < blocks.Length ==> fresh(blocks[b]) && Free(b)
    {
      BlockCounts(realMsgSize, 0);
      var n := ConfFor(realMsgSize).blockNum;
      var first := new Block();
      var all := new Block[n](i => first);
      for b := 1 to n
        invariant all[0] == first && fresh(all)
        invariant forall c :: 0 <= c < b ==> fresh(all[c]) && all[c].Valid() && all[c].Free()
        invariant forall c, d :: 0 <= c < d < b ==> all[c] != all[d]
      {
        all[b] := new Block();
      }
      counter, blocks := 0, all;
    }

    method FetchAddSeq(diff: nat) returns (before: nat)
      requires counter < WORD32
      modifies this`counter
      ensures before == old(counter) && counter == (old(counter) + diff) % WORD32
    {
      before := counter;
      counter := (counter + diff) % WORD32;
    }

    /**
     With nobody else at work and some block free, the search locks the first free block from the
     counter on, after at most as many probes as there are blocks.
     */
    method GetNextWritableBlockIndex() returns (index: nat, probes: nat)
      requires Valid() && exists b: nat :: b < blocks.Length && Free(b)
      modifies this`counter, set b | 0 <= b < blocks.Length :: blocks[b]
      ensures Valid()
      ensures 1 <= probes <= blocks.Length && index == Candidate(old(counter), probes - 1, blocks.Length)
      ensures old(Free(index)) && blocks[index].writing
      ensures forall i: nat :: i < probes - 1 ==> !old(Free(Candidate(counter, i, blocks.Length)))
      ensures forall b :: 0 <= b < blocks.Length && b != index ==> unchanged(blocks[b])
      ensures counter == (old(counter) + probes) % WORD32
    {
      ghost var start, n := counter, blocks.Length;
      ghost var free: nat :| free < n && Free(free);
      ghost var last := EveryBlockIsACandidate(start, n, free);
      probes := 0;
      while true
        invariant Valid() && counter == (start + probes) % WORD32 && probes <= last
        invariant forall i: nat :: i < probes ==> !old(Free(Candidate(counter, i, n)))
        invariant forall b :: 0 <= b < n ==> unchanged(blocks[b])
        decreases last - probes
      {
        var ticket := FetchAddSeq(1);
        NextTicket(start, probes);
        var tryIdx := ticket % blocks.Length;
        assert tryIdx == Candidate(start, probes, n);
        probes := probes + 1;
        var ok := blocks[tryIdx].TryLockForWrite(false);
        if ok {
          return tryIdx, probes;
        }
      }
    }
  }

  lemma NextTicket(start: nat, i: nat)
    ensures ((start + i) % WORD32 + 1) % WORD32 == (start + i + 1) % WORD32
  {}

  lemma CandidateIsResidue(start: nat, i: nat, blockNum: nat)
    requires 0 < blockNum && WORD32 % blockNum == 0
    ensures Candidate(start, i, blockNum) == (start + i) % blockNum
  {
    RemainderOfRemainder(start + i, WORD32, blockNum);
  }

  /** How many tickets after `start` block `b` is next in turn. */
  lemma NextTurn(start: nat, blockNum: nat, b: nat)
    requires 0 < blockNum && b < blockNum
    ensures (start + (b - start) % blockNum) % blockNum == b
  {
    var q := (b - start) / blockNum;
    assert start + (b - start) % blockNum == b + (-q) * blockNum;
    QuotientUnique(start + (b - start) % blockNum, -q, b, blockNum);
  }

  /** Any `blockNum` consecutive tickets lead to each block exactly once, across the wrap-around too. */
  lemma EveryBlockIsACandidate(start: nat, blockNum: nat, b: nat) returns (i: nat)
    requires 0 < blockNum && WORD32 % blockNum == 0 && b < blockNum
    ensures i < blockNum && Candidate(start, i, blockNum) == b
    ensures forall j: nat :: j < blockNum && Candidate(start, j, blockNum) == b ==> j == i
  {
    i := (b - start) % blockNum;
    NextTurn(start, blockNum, b);
    CandidateIsResidue(start, i, blockNum);
    forall j: nat | j < blockNum && j != i
      ensures Candidate(start, j, blockNum) != b
    {
      CandidateIsResidue(start, j, blockNum);
      if j < i {
        DistinctResidues(start + j, start + i, blockNum);
      } else {
        DistinctResidues(start + i, start + j, blockNum);
      }
    }
  }
}
