/** What every run of the shared-memory transport promises its readers. */
module TransportProperties {
  import opened Wrappers
  import opened Counting
  import opened ShmConfModel
  import opened TransportProtocol
  import opened TransportInvariant

  /** In every run each block lock is -1 with one writer and no reader, or counts the readers with no writer. */
  lemma BlockLockCounts(realMsgSize: nat, threads: nat, schedule: seq<Action>, b: nat)
    requires b < ConfFor(realMsgSize).blockNum
    ensures Inv(Init(ConfFor(realMsgSize), threads))
    ensures var s := Run(Init(ConfFor(realMsgSize), threads), schedule);
            && b < |s.blocks| && LockOk(s, b)
            && (s.blocks[b].lockNum < 0 <==> Writers(s, b) == 1)
            && (s.blocks[b].lockNum > 0 <==> Readers(s, b) >= 1)
  {
    InitInv(realMsgSize, threads);
    BlocksFixed(Init(ConfFor(realMsgSize), threads), schedule);
    assert LockOk(Run(Init(ConfFor(realMsgSize), threads), schedule), b);
  }

  lemma {:induction false} BlocksFixed(s: State, schedule: seq<Action>)
    requires Inv(s)
    ensures |Run(s, schedule).blocks| == |s.blocks|
    decreases |schedule|
  {
    if schedule != [] {
      var n := |schedule| - 1;
      BlocksFixed(s, schedule[..n]);
      StepFixesBlocks(Run(s, schedule[..n]), schedule[n].thread, schedule[n].event);
    }
  }

  lemma StepFixesBlocks(s: State, t: nat, e: Event)
    requires Inv(s)
    ensures |Step(s, t, e).blocks| == |s.blocks|
  {}

  /**
   Whatever the interleaving, what a reader ends up with is the payload, the ids and the sequence
   number of one single completed Transmit, never a mix, and that Transmit is the notified one or a
   later one to the same block.
   */
  lemma ReaderGetsOneWholeMessage(s0: State, schedule: seq<Action>, t: nat)
    requires Inv(s0)
    requires t < |Run(s0, schedule).threads| && Run(s0, schedule).threads[t].Received?
    ensures var s := Run(s0, schedule);
            var Received(n, r, header, payload) := s.threads[t];
            && n < |s.notes| && s.notes[n].release <= r < |s.released|
            && s.released[r].block == s.notes[n].block
            && (var m := s.released[r].message;
                && payload == m.payload && |header| == 3 * ID_SIZE
                && header[..ID_SIZE] == m.sender
                && header[ID_SIZE..2 * ID_SIZE] == m.spare
                && header[2 * ID_SIZE..] == m.seqNum)
  {
    var s := Run(s0, schedule);
    assert ThreadOk(s, t);
    assert Sendable(s.released[s.threads[t].r].message, s.ceiling);
  }

  /** A notification is only sent once the write it announces has been released. */
  lemma NotificationsAnnounceReleases(s0: State, schedule: seq<Action>, n: nat)
    requires Inv(s0) && n < |Run(s0, schedule).notes|
    ensures var s := Run(s0, schedule);
            s.notes[n].release < |s.released| && s.released[s.notes[n].release].block == s.notes[n].block
  {
    assert NoteOk(Run(s0, schedule), n);
  }

  // ----- while a reader holds its lock

  /** Nobody changes a block, or completes a write to it, in a step that begins while somebody reads it. */
  lemma StepSparesReadBlock(s: State, t: nat, b: nat, u: nat, e: Event)
    requires Inv(s) && t < |s.threads| && b < |s.blocks| && HoldsRead(s.threads[t], b)
    ensures var s' := Step(s, u, e);
            && b < |s'.blocks| == |s'.latest|
            && s'.latest[b] == s.latest[b]
            && s'.blocks[b] == s.blocks[b].(lockNum := s'.blocks[b].lockNum)
            && |s'.released| >= |s.released| && s'.released[..|s.released|] == s.released
  {
    ReaderMeansNoWriter(s, t, b);
    if u < |s.threads| {
      assert ThreadShape(s, s.threads[u]);
    }
  }

  /** Thread `t` has block `b` locked for reading at instant `m`. */
  predicate ReadsAt(run: seq<State>, t: nat, b: nat, m: nat)
    requires m < |run|
  {
    t < |run[m].threads| && b < |run[m].blocks| && HoldsRead(run[m].threads[t], b)
  }

  /**
   From the instant a reader has its lock to the instant it has released it, the block keeps its size
   and contents and the same release stays the block's latest.
   */
  lemma {:induction false} BlockFrozenWhileRead(run: seq<State>, schedule: seq<Action>, t: nat, b: nat, i: nat, j: nat)
    requires Execution(run, schedule) && i <= j < |run| && b < |run[i].blocks| == |run[i].latest|
    requires forall m :: i <= m < j ==> ReadsAt(run, t, b, m)
    ensures b < |run[j].blocks| == |run[j].latest| && run[j].latest[b] == run[i].latest[b]
    ensures run[j].blocks[b] == run[i].blocks[b].(lockNum := run[j].blocks[b].lockNum)
    decreases j
  {
    if i < j {
      BlockFrozenWhileRead(run, schedule, t, b, i, j - 1);
      StepAt(run, schedule, j - 1);
      assert ReadsAt(run, t, b, j - 1);
      StepSparesReadBlock(run[j - 1], t, b, schedule[j - 1].thread, schedule[j - 1].event);
    }
  }

  /** While a block is being read it holds, in full, the message of its latest release. */
  lemma ReadBlockHoldsLatest(s: State, t: nat, b: nat)
    requires Inv(s) && t < |s.threads| && b < |s.blocks| && HoldsRead(s.threads[t], b)
    ensures s.latest[b].Some? && s.latest[b].value < |s.released| && Holds(s.blocks[b], Current(s, b))
    ensures forall j :: s.latest[b].value < j < |s.released| ==> s.released[j].block != b
  {
    ReaderMeansNoWriter(s, t, b);
    assert LatestOk(s, b) && DataOk(s, b) && ThreadOk(s, t) && ThreadShape(s, s.threads[t]);
  }
}
