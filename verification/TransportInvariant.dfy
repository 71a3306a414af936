/** Every step of the shared-memory transport keeps the invariant. */
module TransportInvariant {
  import Runs
  import opened Bytes
  import opened Wrappers
  import opened Counting
  import opened ShmConfModel
  import opened TransportProtocol

  /** A writer in possession excludes everybody else from its block. */
  lemma WriterAlone(s: State, t: nat)
    requires Inv(s) && t < |s.threads| && IsWriter(s.threads[t]) && HoldsWrite(s.threads[t], s.threads[t].b)
    ensures var b := s.threads[t].b;
            && b < |s.blocks| && s.blocks[b].lockNum == -1
            && Writers(s, b) == 1 && Readers(s, b) == 0
            && (forall u :: 0 <= u < |s.threads| && u != t ==> !HoldsWrite(s.threads[u], b))
            && (forall u :: 0 <= u < |s.threads| ==> !HoldsRead(s.threads[u], b))
  {
    var b := s.threads[t].b;
    assert ThreadShape(s, s.threads[t]);
    assert LockOk(s, b);
    CountNone(s.threads, WriterOf(b));
    CountNone(s.threads, ReaderOf(b));
    forall u | 0 <= u < |s.threads|
      ensures !HoldsRead(s.threads[u], b)
    {
      assert !ReaderOf(b)(s.threads[u]);
    }
    forall u | 0 <= u < |s.threads| && u != t
      ensures !HoldsWrite(s.threads[u], b)
    {
      if HoldsWrite(s.threads[u], b) {
        if u < t { CountTwo(s.threads, WriterOf(b), u, t); } else { CountTwo(s.threads, WriterOf(b), t, u); }
      }
    }
  }

  /** While somebody reads a block nobody writes it. */
  lemma ReaderMeansNoWriter(s: State, t: nat, b: nat)
    requires Inv(s) && t < |s.threads| && b < |s.blocks| && HoldsRead(s.threads[t], b)
    ensures Writers(s, b) == 0 && s.blocks[b].lockNum == Readers(s, b) >= 1
    ensures forall u :: 0 <= u < |s.threads| ==> !HoldsWrite(s.threads[u], b)
  {
    assert LockOk(s, b);
    CountNone(s.threads, ReaderOf(b));
    CountNone(s.threads, WriterOf(b));
    assert ReaderOf(b)(s.threads[t]);
    forall u | 0 <= u < |s.threads|
      ensures !HoldsWrite(s.threads[u], b)
    {
      assert !WriterOf(b)(s.threads[u]);
    }
  }

  /** How the two counts of a block change when thread `t` moves on. */
  lemma CountsAfter(s: State, t: nat, l: Thread, b: nat)
    requires t < |s.threads|
    ensures Count(s.threads[t := l], WriterOf(b))
            == Writers(s, b) - B2N(HoldsWrite(s.threads[t], b)) + B2N(HoldsWrite(l, b))
    ensures Count(s.threads[t := l], ReaderOf(b))
            == Readers(s, b) - B2N(HoldsRead(s.threads[t], b)) + B2N(HoldsRead(l, b))
  {
    CountUpdate(s.threads, WriterOf(b), t, l);
    CountUpdate(s.threads, ReaderOf(b), t, l);
  }

  /**
   A step of thread `t` that changes no lock and no history, writes at most to a block that `t` has
   locked for writing, and takes or gives up no lock itself.
   */
  ghost predicate Quiet(s: State, s': State, t: nat)
    requires Shape(s) && t < |s.threads|
  {
    && s' == s.(blocks := s'.blocks, counter := s'.counter, threads := s'.threads)
    && |s'.threads| == |s.threads| && s'.threads == s.threads[t := s'.threads[t]]
    && |s'.blocks| == |s.blocks|
    && (forall b :: 0 <= b < |s.blocks| ==>
          && s'.blocks[b].lockNum == s.blocks[b].lockNum
          && |s'.blocks[b].buf| == |s.blocks[b].buf| && s'.blocks[b].msgSize <= s.ceiling
          && (s'.blocks[b] == s.blocks[b] || HoldsWrite(s.threads[t], b)))
    && (forall b :: 0 <= b < |s.blocks| ==>
          && HoldsWrite(s'.threads[t], b) == HoldsWrite(s.threads[t], b)
          && HoldsRead(s'.threads[t], b) == HoldsRead(s.threads[t], b))
  }

  lemma QuietKeepsShape(s: State, s': State, t: nat)
    requires Inv(s) && t < |s.threads| && Quiet(s, s', t) && ThreadShape(s', s'.threads[t])
    ensures Shape(s')
  {
    forall u | 0 <= u < |s'.threads|
      ensures ThreadShape(s', s'.threads[u])
    {
      assert u != t ==> ThreadShape(s, s.threads[u]);
    }
  }

  lemma QuietKeepsBlocks(s: State, s': State, t: nat, b: nat)
    requires Inv(s) && t < |s.threads| && Quiet(s, s', t) && Shape(s') && b < |s.blocks|
    ensures LockOk(s', b) && LatestOk(s', b) && DataOk(s', b)
  {
    assert LockOk(s, b) && LatestOk(s, b) && DataOk(s, b);
    CountsAfter(s, t, s'.threads[t], b);
    CountNone(s.threads, WriterOf(b));
    assert WriterOf(b)(s.threads[t]) == HoldsWrite(s.threads[t], b);
  }

  lemma QuietKeepsOthers(s: State, s': State, t: nat, u: nat)
    requires Inv(s) && t < |s.threads| && Quiet(s, s', t) && Shape(s') && u < |s.threads| && u != t
    ensures ThreadOk(s', u)
  {
    assert ThreadOk(s, u) && ThreadShape(s, s.threads[u]) && ThreadShape(s, s.threads[t]);
    if IsWriter(s.threads[t]) && HoldsWrite(s.threads[t], s.threads[t].b) {
      WriterAlone(s, t);
    }
  }

  lemma QuietKeepsInv(s: State, s': State, t: nat)
    requires Inv(s) && t < |s.threads| && Quiet(s, s', t) && ThreadShape(s', s'.threads[t])
    requires Shape(s') ==> ThreadOk(s', t)
    ensures Inv(s')
  {
    QuietKeepsShape(s, s', t);
    forall b | 0 <= b < |s'.blocks|
      ensures LockOk(s', b) && LatestOk(s', b) && DataOk(s', b)
    {
      QuietKeepsBlocks(s, s', t, b);
    }
    forall u | 0 <= u < |s'.threads|
      ensures ThreadOk(s', u)
    {
      if u != t {
        QuietKeepsOthers(s, s', t, u);
      }
    }
    forall n | 0 <= n < |s'.notes|
      ensures NoteOk(s', n)
    {
      assert NoteOk(s, n);
    }
  }

  // ----- the writer's steps

  lemma FetchSeqKeepsInv(s: State, t: nat)
    requires Inv(s) && t < |s.threads| && s.threads[t].FetchSeq?
    ensures Inv(NextWriter(s, t, false))
  {
    assert ThreadShape(s, s.threads[t]);
    QuietKeepsInv(s, NextWriter(s, t, false), t);
  }

  lemma CopyPayloadKeepsInv(s: State, t: nat)
    requires Inv(s) && t < |s.threads| && s.threads[t].CopyPayload?
    ensures Inv(NextWriter(s, t, false))
  {
    assert ThreadOk(s, t) && ThreadShape(s, s.threads[t]);
    QuietKeepsInv(s, NextWriter(s, t, false), t);
  }

  lemma SetSizeKeepsInv(s: State, t: nat)
    requires Inv(s) && t < |s.threads| && s.threads[t].SetSize?
    ensures Inv(NextWriter(s, t, false))
  {
    assert ThreadOk(s, t) && ThreadShape(s, s.threads[t]);
    QuietKeepsInv(s, NextWriter(s, t, false), t);
  }

  lemma CopyHeaderByteKeepsInv(s: State, t: nat)
    requires Inv(s) && t < |s.threads| && s.threads[t].CopyHeader? && s.threads[t].done < HEADER_SIZE
    ensures Inv(NextWriter(s, t, false))
  {
    assert ThreadOk(s, t) && ThreadShape(s, s.threads[t]);
    var CopyHeader(m, b, done) := s.threads[t];
    HeaderByte(s.blocks[b], m, b, done);
    QuietKeepsInv(s, NextWriter(s, t, false), t);
  }

  lemma CopyHeaderEndKeepsInv(s: State, t: nat)
    requires Inv(s) && t < |s.threads| && s.threads[t].CopyHeader? && s.threads[t].done >= HEADER_SIZE
    ensures Inv(NextWriter(s, t, false))
  {
    assert ThreadOk(s, t) && ThreadShape(s, s.threads[t]);
    var CopyHeader(m, b, done) := s.threads[t];
    HeaderWhole(s.blocks[b], m, b, done);
    QuietKeepsInv(s, NextWriter(s, t, false), t);
  }

  lemma HeaderByte(block: Block, m: Message, b: nat, done: nat)
    requires WriteProgress(block, CopyHeader(m, b, done)) && done < |Header(m)|
    ensures WriteProgress(Poke(block, |m.payload| + done, Header(m)[done]), CopyHeader(m, b, done + 1))
  {
    var buf, p := block.buf, |m.payload|;
    var buf' := buf[p + done := Header(m)[done]];
    assert buf'[..p] == buf[..p];
    assert buf'[p..p + done + 1] == buf[p..p + done] + [Header(m)[done]];
  }

  lemma HeaderWhole(block: Block, m: Message, b: nat, done: nat)
    requires WriteProgress(block, CopyHeader(m, b, done)) && done == |Header(m)|
    ensures WriteProgress(block, SetInfoSize(m, b))
  {
    assert Header(m)[..done] == Header(m);
  }

  lemma SetInfoSizeKeepsInv(s: State, t: nat)
    requires Inv(s) && t < |s.threads| && s.threads[t].SetInfoSize?
    ensures Inv(NextWriter(s, t, false))
  {
    assert ThreadOk(s, t) && ThreadShape(s, s.threads[t]);
    QuietKeepsInv(s, NextWriter(s, t, false), t);
  }

  // ----- the reader's steps

  lemma ReaderQuietKeepsInv(s: State, t: nat, spurious: bool)
    requires Inv(s) && t < |s.threads| && !IsWriter(s.threads[t]) && !s.threads[t].FetchSeq?
    requires s.threads[t].LoadLock? || s.threads[t].ReloadLock?
             || s.threads[t].Received? || s.threads[t].Failed? || s.threads[t].Idle?
             || (s.threads[t].CasLock?
                 && (|| spurious
                     || (s.threads[t].b < |s.blocks| && s.blocks[s.threads[t].b].lockNum != s.threads[t].seen)))
    ensures Inv(NextReader(s, t, spurious))
  {
    assert ThreadOk(s, t) && ThreadShape(s, s.threads[t]);
    QuietKeepsInv(s, NextReader(s, t, spurious), t);
  }

  lemma ReadSizeKeepsInv(s: State, t: nat, spurious: bool)
    requires Inv(s) && t < |s.threads| && s.threads[t].ReadSize?
    ensures Inv(NextReader(s, t, spurious))
  {
    assert ThreadOk(s, t) && ThreadShape(s, s.threads[t]);
    var b := s.threads[t].b;
    ReaderMeansNoWriter(s, t, b);
    assert LatestOk(s, b) && DataOk(s, b);
    QuietKeepsInv(s, NextReader(s, t, spurious), t);
  }

  lemma ReadHeaderKeepsInv(s: State, t: nat)
    requires Inv(s) && t < |s.threads| && s.threads[t].ReadHeader?
    ensures Inv(NextReader(s, t, false)) && NextReader(s, t, true) == NextReader(s, t, false)
  {
    assert ThreadOk(s, t) && ThreadShape(s, s.threads[t]);
    var ReadHeader(n, b, size, header) := s.threads[t];
    ReaderMeansNoWriter(s, t, b);
    assert LatestOk(s, b) && DataOk(s, b);
    var m := Current(s, b);
    assert Sendable(s.released[s.latest[b].value].message, s.ceiling);
    if |header| < HEADER_SIZE {
      assert s.blocks[b].buf[size..size + |Header(m)|][|header|] == Header(m)[|header|];
    }
    QuietKeepsInv(s, NextReader(s, t, false), t);
  }

  lemma ReadPayloadSizeKeepsInv(s: State, t: nat)
    requires Inv(s) && t < |s.threads| && s.threads[t].ReadPayloadSize?
    ensures Inv(NextReader(s, t, false)) && NextReader(s, t, true) == NextReader(s, t, false)
  {
    assert ThreadOk(s, t) && ThreadShape(s, s.threads[t]);
    var b := s.threads[t].b;
    ReaderMeansNoWriter(s, t, b);
    assert LatestOk(s, b) && DataOk(s, b);
    QuietKeepsInv(s, NextReader(s, t, false), t);
  }

  lemma ReadPayloadKeepsInv(s: State, t: nat)
    requires Inv(s) && t < |s.threads| && s.threads[t].ReadPayload?
    ensures Inv(NextReader(s, t, false)) && NextReader(s, t, true) == NextReader(s, t, false)
  {
    assert ThreadOk(s, t) && ThreadShape(s, s.threads[t]);
    var b := s.threads[t].b;
    ReaderMeansNoWriter(s, t, b);
    assert LatestOk(s, b) && DataOk(s, b);
    var m := Current(s, b);
    if |s.threads[t].payload| < s.threads[t].size {
      PayloadByte(s.blocks[b], m, s.threads[t].payload);
    }
    QuietKeepsInv(s, NextReader(s, t, false), t);
  }

  lemma PayloadByte(block: Block, m: Message, payload: seq<Byte>)
    requires Holds(block, m) && payload <= m.payload && |payload| < |m.payload|
    ensures payload + [block.buf[|payload|]] <= m.payload
  {
    assert block.buf[..|m.payload|][|payload|] == m.payload[|payload|];
  }

  // ----- taking and giving up locks

  /** A step in which thread `t` takes or gives up a lock of block `b` and changes no data. */
  ghost predicate LockStep(s: State, s': State, t: nat, b: nat)
    requires t < |s.threads| && b < |s.blocks|
  {
    && s' == s.(blocks := s'.blocks, threads := s'.threads)
    && |s'.threads| == |s.threads| && s'.threads == s.threads[t := s'.threads[t]]
    && |s'.blocks| == |s.blocks|
    && s'.blocks == s.blocks[b := s.blocks[b].(lockNum := s'.blocks[b].lockNum)]
    && (forall c :: c != b ==>
          && HoldsWrite(s'.threads[t], c) == HoldsWrite(s.threads[t], c)
          && HoldsRead(s'.threads[t], c) == HoldsRead(s.threads[t], c))
  }

  lemma LockStepKeepsInv(s: State, s': State, t: nat, b: nat)
    requires Inv(s) && t < |s.threads| && b < |s.blocks|
    requires LockStep(s, s', t, b) && ThreadShape(s', s'.threads[t]) && LockOk(s', b)
    requires HoldsWrite(s.threads[t], b) ==> HoldsWrite(s'.threads[t], b)
    requires Shape(s') ==> ThreadOk(s', t)
    ensures Inv(s')
  {
    LockStepKeepsShape(s, s', t, b);
    forall c | 0 <= c < |s'.blocks|
      ensures LockOk(s', c) && LatestOk(s', c) && DataOk(s', c)
    {
      LockStepKeepsBlock(s, s', t, b, c);
    }
    forall u | 0 <= u < |s'.threads|
      ensures ThreadOk(s', u)
    {
      if u != t {
        LockStepKeepsOthers(s, s', t, b, u);
      }
    }
    forall n | 0 <= n < |s'.notes|
      ensures NoteOk(s', n)
    {
      assert NoteOk(s, n);
    }
  }

  lemma LockStepKeepsShape(s: State, s': State, t: nat, b: nat)
    requires Inv(s) && t < |s.threads| && b < |s.blocks|
    requires LockStep(s, s', t, b) && ThreadShape(s', s'.threads[t])
    ensures Shape(s')
  {
    forall u | 0 <= u < |s'.threads|
      ensures ThreadShape(s', s'.threads[u])
    {
      assert u != t ==> ThreadShape(s, s.threads[u]);
    }
  }

  lemma LockStepKeepsBlock(s: State, s': State, t: nat, b: nat, c: nat)
    requires Inv(s) && t < |s.threads| && b < |s.blocks| && LockStep(s, s', t, b) && LockOk(s', b)
    requires HoldsWrite(s.threads[t], b) ==> HoldsWrite(s'.threads[t], b)
    requires c < |s.blocks|
    ensures LockOk(s', c) && LatestOk(s', c) && DataOk(s', c)
  {
    assert LockOk(s, c) && LatestOk(s, c) && DataOk(s, c);
    CountsAfter(s, t, s'.threads[t], c);
  }

  lemma LockStepKeepsOthers(s: State, s': State, t: nat, b: nat, u: nat)
    requires Inv(s) && t < |s.threads| && b < |s.blocks| && LockStep(s, s', t, b) && Shape(s')
    requires u < |s.threads| && u != t
    ensures ThreadOk(s', u)
  {
    assert ThreadOk(s, u) && ThreadShape(s, s.threads[u]);
  }

  lemma TryLockKeepsInv(s: State, t: nat, spurious: bool)
    requires Inv(s) && t < |s.threads| && s.threads[t].TryLock?
    ensures Inv(NextWriter(s, t, spurious))
  {
    assert ThreadOk(s, t) && ThreadShape(s, s.threads[t]);
    var s', b := NextWriter(s, t, spurious), s.threads[t].b;
    if !spurious && s.blocks[b].lockNum == 0 {
      assert LockOk(s, b);
      CountsAfter(s, t, s'.threads[t], b);
      LockStepKeepsInv(s, s', t, b);
    } else {
      QuietKeepsInv(s, s', t);
    }
  }

  lemma CasLockKeepsInv(s: State, t: nat)
    requires Inv(s) && t < |s.threads| && s.threads[t].CasLock?
    requires s.threads[t].b < |s.blocks| && s.blocks[s.threads[t].b].lockNum == s.threads[t].seen
    ensures Inv(NextReader(s, t, false))
  {
    assert ThreadOk(s, t) && ThreadShape(s, s.threads[t]);
    var s', b, n := NextReader(s, t, false), s.threads[t].b, s.threads[t].n;
    assert LockOk(s, b) && LatestOk(s, b) && NoteOk(s, n);
    CountsAfter(s, t, s'.threads[t], b);
    LockStepKeepsInv(s, s', t, b);
  }

  lemma ReleaseReadKeepsInv(s: State, t: nat)
    requires Inv(s) && t < |s.threads| && s.threads[t].ReleaseRead?
    ensures Inv(NextReader(s, t, false)) && NextReader(s, t, true) == NextReader(s, t, false)
  {
    assert ThreadOk(s, t) && ThreadShape(s, s.threads[t]);
    var s', b := NextReader(s, t, false), s.threads[t].b;
    ReaderMeansNoWriter(s, t, b);
    CountsAfter(s, t, s'.threads[t], b);
    LockStepKeepsInv(s, s', t, b);
  }

  /** Releasing the write lock makes the written message the block's latest. */
  lemma ReleaseWriteKeepsInv(s: State, t: nat)
    requires Inv(s) && t < |s.threads| && s.threads[t].ReleaseWrite?
    ensures Inv(NextWriter(s, t, false))
  {
    assert ThreadOk(s, t) && ThreadShape(s, s.threads[t]);
    var ReleaseWrite(m, b) := s.threads[t];
    var s' := NextWriter(s, t, false);
    forall u | 0 <= u < |s'.threads|
      ensures ThreadShape(s', s'.threads[u])
    {
      assert u != t ==> ThreadShape(s, s.threads[u]);
    }
    assert Shape(s');
    forall c | 0 <= c < |s'.blocks|
      ensures LockOk(s', c) && LatestOk(s', c) && DataOk(s', c)
    {
      ReleaseWriteKeepsBlock(s, s', t, c);
    }
    forall u | 0 <= u < |s'.threads|
      ensures ThreadOk(s', u)
    {
      if u != t {
        ReleaseWriteKeepsOthers(s, s', t, u);
      }
    }
    forall n | 0 <= n < |s'.notes|
      ensures NoteOk(s', n)
    {
      assert NoteOk(s, n);
    }
  }

  lemma ReleaseWriteKeepsBlock(s: State, s': State, t: nat, c: nat)
    requires Inv(s) && t < |s.threads| && s.threads[t].ReleaseWrite? && s' == NextWriter(s, t, false)
    requires c < |s.blocks|
    ensures LockOk(s', c) && LatestOk(s', c) && DataOk(s', c)
  {
    assert ThreadOk(s, t) && ThreadShape(s, s.threads[t]);
    WriterAlone(s, t);
    assert LockOk(s, c) && LatestOk(s, c) && DataOk(s, c);
    CountsAfter(s, t, s'.threads[t], c);
  }

  lemma ReleaseWriteKeepsOthers(s: State, s': State, t: nat, u: nat)
    requires Inv(s) && t < |s.threads| && s.threads[t].ReleaseWrite? && s' == NextWriter(s, t, false) && Shape(s')
    requires u < |s.threads| && u != t
    ensures ThreadOk(s', u)
  {
    assert ThreadShape(s, s.threads[t]);
    WriterAlone(s, t);
    assert ThreadOk(s, u) && ThreadShape(s, s.threads[u]);
  }

  lemma NotifyKeepsInv(s: State, t: nat)
    requires Inv(s) && t < |s.threads| && s.threads[t].Notify?
    ensures Inv(NextWriter(s, t, false))
  {
    assert ThreadOk(s, t) && ThreadShape(s, s.threads[t]);
    var s' := NextWriter(s, t, false);
    forall u | 0 <= u < |s'.threads|
      ensures ThreadShape(s', s'.threads[u])
    {
      assert u != t ==> ThreadShape(s, s.threads[u]);
    }
    assert Shape(s');
    forall c | 0 <= c < |s'.blocks|
      ensures LockOk(s', c) && LatestOk(s', c) && DataOk(s', c)
    {
      NotifyKeepsBlock(s, s', t, c);
    }
    forall u | 0 <= u < |s'.threads|
      ensures ThreadOk(s', u)
    {
      assert u != t ==> ThreadOk(s, u) && ThreadShape(s, s.threads[u]);
    }
    forall n | 0 <= n < |s'.notes|
      ensures NoteOk(s', n)
    {
      assert n < |s.notes| ==> NoteOk(s, n);
    }
  }

  lemma NotifyKeepsBlock(s: State, s': State, t: nat, c: nat)
    requires Inv(s) && t < |s.threads| && s.threads[t].Notify? && s' == NextWriter(s, t, false)
    requires c < |s.blocks|
    ensures LockOk(s', c) && LatestOk(s', c) && DataOk(s', c)
  {
    assert ThreadShape(s, s.threads[t]);
    assert LockOk(s, c) && LatestOk(s, c) && DataOk(s, c);
    CountsAfter(s, t, s'.threads[t], c);
  }

  // ----- all steps

  lemma StepKeepsInv(s: State, t: nat, e: Event)
    requires Inv(s)
    ensures Inv(Step(s, t, e))
  {
    if t < |s.threads| {
      assert ThreadShape(s, s.threads[t]);
      match e
      case Transmit(_) => StartKeepsInv(s, t, e);
      case Read(_) => StartKeepsInv(s, t, e);
      case Advance(spurious) => AdvanceKeepsInv(s, t, spurious);
    }
  }

  lemma StartKeepsInv(s: State, t: nat, e: Event)
    requires Inv(s) && t < |s.threads| && !e.Advance?
    ensures Inv(Step(s, t, e))
  {
    var s' := Step(s, t, e);
    if s' != s {
      QuietKeepsInv(s, s', t);
    }
  }

  lemma AdvanceKeepsInv(s: State, t: nat, spurious: bool)
    requires Inv(s) && t < |s.threads|
    ensures Inv(Step(s, t, Advance(spurious)))
  {
    assert ThreadShape(s, s.threads[t]);
    match s.threads[t]
    case FetchSeq(_) => FetchSeqKeepsInv(s, t);
    case TryLock(_, _) => TryLockKeepsInv(s, t, spurious);
    case CopyPayload(_, _, _) => CopyPayloadKeepsInv(s, t);
    case SetSize(_, _) => SetSizeKeepsInv(s, t);
    case CopyHeader(_, _, done) =>
      if done < HEADER_SIZE { CopyHeaderByteKeepsInv(s, t); } else { CopyHeaderEndKeepsInv(s, t); }
    case SetInfoSize(_, _) => SetInfoSizeKeepsInv(s, t);
    case ReleaseWrite(_, _) => ReleaseWriteKeepsInv(s, t);
    case Notify(_, _, _) => NotifyKeepsInv(s, t);
    case CasLock(_, b, seen, _) =>
      if !spurious && s.blocks[b].lockNum == seen {
        CasLockKeepsInv(s, t);
      } else {
        ReaderQuietKeepsInv(s, t, spurious);
      }
    case ReadSize(_, _) => ReadSizeKeepsInv(s, t, spurious);
    case ReadHeader(_, _, _, _) => ReadHeaderKeepsInv(s, t);
    case ReadPayloadSize(_, _, _) => ReadPayloadSizeKeepsInv(s, t);
    case ReadPayload(_, _, _, _, _) => ReadPayloadKeepsInv(s, t);
    case ReleaseRead(_, _, _, _) => ReleaseReadKeepsInv(s, t);
    case _ => ReaderQuietKeepsInv(s, t, spurious);
  }

  lemma InitInv(realMsgSize: nat, threads: nat)
    ensures Inv(Init(ConfFor(realMsgSize), threads))
  {
    BlockCounts(realMsgSize, 0);
    var s := Init(ConfFor(realMsgSize), threads);
    forall b | 0 <= b < |s.blocks|
      ensures LockOk(s, b) && LatestOk(s, b) && DataOk(s, b)
    {
      CountNone(s.threads, WriterOf(b));
      CountNone(s.threads, ReaderOf(b));
    }
  }

  /** The state after a schedule. */
  function Run(s: State, schedule: seq<Action>): (s': State)
    requires Inv(s)
    ensures Inv(s')
    decreases |schedule|
  {
    if schedule == [] then s
    else
      var before := Run(s, schedule[..|schedule| - 1]);
      var last := schedule[|schedule| - 1];
      StepKeepsInv(before, last.thread, last.event);
      Step(before, last.thread, last.event)
  }

  ghost predicate Follows(s: State, a: Action, s': State) {
    Inv(s) && s' == Step(s, a.thread, a.event)
  }

  /**
   That the invariant holds at each instant of a run is no restriction: any schedule has such a run from any
   state with the invariant (EveryScheduleRuns).
   */
  ghost predicate Execution(run: seq<State>, schedule: seq<Action>) {
    Runs.Execution<State, Action>(Inv, Follows, run, schedule)
  }

  lemma InvAt(run: seq<State>, schedule: seq<Action>, i: nat)
    requires Execution(run, schedule) && i < |run|
    ensures Inv(run[i])
  {
    assert Runs.HoldsAt<State>(Inv, run, i);
  }

  lemma StepAt(run: seq<State>, schedule: seq<Action>, i: nat)
    requires Execution(run, schedule) && i < |schedule|
    ensures Inv(run[i]) && run[i + 1] == Step(run[i], schedule[i].thread, schedule[i].event)
  {
    assert Runs.StepsTo<State, Action>(Follows, run, schedule, i);
  }

  /** Every schedule can be run, from any state with the invariant, and never leaves it. */
  lemma EveryScheduleRuns(s: State, schedule: seq<Action>) returns (run: seq<State>)
    requires Inv(s)
    ensures Execution(run, schedule) && run[0] == s
  {
    forall s: State, a: Action | Inv(s)
      ensures Runs.CanStep<State, Action>(Inv, Follows, s, a)
    {
      StepKeepsInv(s, a.thread, a.event);
      assert Follows(s, a, Step(s, a.thread, a.event));
    }
    run := Runs.EveryScheduleRuns<State, Action>(Inv, Follows, s, schedule);
  }
}
