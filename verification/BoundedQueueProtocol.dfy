/**
 The ring of base/bounded_queue.h as a step system: any number of threads, each repeatedly
 calling Enqueue or Dequeue, one access to shared memory per step, in any order.

 An element is a sequence of `width` machine words, and an assignment between an element and a
 slot of the pool moves one word per step, so a copy that overlaps a write can come out torn.
 A weak compare-exchange may fail spuriously. Tickets are unbounded.
 */
module BoundedQueueProtocol {
  import opened Wrappers
  import opened Modular

  type Element = seq<int>

  /** Where a thread is in the code, with its local variables. */
  datatype Thread =
    | Idle
    | EnqLoadTail(v: Element)
    | EnqCheckFull(v: Element, oldTail: nat)
    | EnqCasTail(v: Element, oldTail: nat)
    | EnqWrite(v: Element, ticket: nat, written: nat)
    | EnqCasCommit(v: Element, ticket: nat)
    | EnqReturn(ok: bool)
    | DeqLoadHead
    | DeqLoadCommit(oldHead: nat)
    | DeqCopy(oldHead: nat, copy: Element)
    | DeqCasHead(oldHead: nat, copy: Element)
    | DeqReturn(result: Option<Element>)

  /**
   The shared fields and the thread table, and three histories nobody reads: the elements in the
   order in which tail CASes succeeded, the thread that won each, and the elements returned in the
   order in which head CASes succeeded.
   */
  datatype State = State(
    poolSize: nat, width: nat,
    head: nat, tail: nat, commit: nat, pool: seq<Element>,
    threads: seq<Thread>,
    enqueued: seq<Element>, producers: seq<nat>, dequeued: seq<Element>)

  /** What the scheduler lets a thread do next: start a call, or take one step of the current one. */
  datatype Event = CallEnqueue(v: Element) | CallDequeue | Advance(spurious: bool)

  datatype Action = Action(thread: nat, event: Event)

  /** The index computation of the source, a remainder without the remainder instruction. */
  function GetIndex(num: nat, poolSize: nat): (index: nat)
    requires 0 < poolSize
    ensures index == num % poolSize && index < poolSize
  {
    num - (num / poolSize) * poolSize
  }

  /** Init(size): one slot is kept free for the head and one for the tail. */
  function Init(size: nat, width: nat, threads: nat): (s: State)
    ensures Shape(s)
  {
    State(size + 2, width, 0, 1, 1, seq(size + 2, i => seq(width, j => 0)),
          seq(threads, i => Idle), [], [], [])
  }

  /** What makes every step well defined, whatever the scheduler does. */
  predicate Shape(s: State) {
    && 2 <= s.poolSize == |s.pool|
    && (forall j | 0 <= j < |s.pool| :: |s.pool[j]| == s.width)
    && (forall t | 0 <= t < |s.threads| :: ThreadShape(s.threads[t], s.width))
  }

  predicate ThreadShape(l: Thread, width: nat) {
    match l
    case EnqLoadTail(v) => |v| == width
    case EnqCheckFull(v, _) => |v| == width
    case EnqCasTail(v, _) => |v| == width
    case EnqWrite(v, _, i) => |v| == width && i <= width
    case EnqCasCommit(v, _) => |v| == width
    case DeqCopy(_, c) => |c| <= width
    case DeqCasHead(_, c) => |c| == width
    case _ => true
  }

  function Goto(s: State, t: nat, l: Thread): State
    requires t < |s.threads|
  {
    s.(threads := s.threads[t := l])
  }

  /** One step of thread `t`. An event the thread cannot take leaves everything as it is. */
  function Step(s: State, t: nat, e: Event): (s': State)
    requires Shape(s)
    ensures Shape(s')
  {
    if t >= |s.threads| then s else
    match e
    case CallEnqueue(v) =>
      if Resting(s.threads[t]) && |v| == s.width then Goto(s, t, EnqLoadTail(v)) else s
    case CallDequeue =>
      if Resting(s.threads[t]) then Goto(s, t, DeqLoadHead) else s
    case Advance(spurious) => Next(s, t, spurious)
  }

  predicate Resting(l: Thread) {
    l.Idle? || l.EnqReturn? || l.DeqReturn?
  }

  function Next(s: State, t: nat, spurious: bool): (s': State)
    requires Shape(s) && t < |s.threads|
    ensures Shape(s')
  {
    match s.threads[t]
    case Idle => s
    case EnqLoadTail(v) => Goto(s, t, EnqCheckFull(v, s.tail))
    case EnqCheckFull(v, oldTail) =>
      if GetIndex(oldTail + 1, s.poolSize) == GetIndex(s.head, s.poolSize)
      then Goto(s, t, EnqReturn(false))
      else Goto(s, t, EnqCasTail(v, oldTail))
    case EnqCasTail(v, oldTail) =>
      if !spurious && s.tail == oldTail
      then Goto(s, t, EnqWrite(v, oldTail, 0)).(
             tail := oldTail + 1, enqueued := s.enqueued + [v], producers := s.producers + [t])
      else Goto(s, t, EnqCheckFull(v, s.tail))
    case EnqWrite(v, k, i) =>
      if i < s.width
      then
        var slot := GetIndex(k, s.poolSize);
        Goto(s, t, EnqWrite(v, k, i + 1)).(pool := s.pool[slot := s.pool[slot][i := v[i]]])
      else Goto(s, t, EnqCasCommit(v, k))
    case EnqCasCommit(v, k) =>
      if !spurious && s.commit == k
      then Goto(s, t, EnqReturn(true)).(commit := k + 1)
      else s
    case EnqReturn(_) => Goto(s, t, Idle)
    case DeqLoadHead => Goto(s, t, DeqLoadCommit(s.head))
    case DeqLoadCommit(oldHead) =>
      if oldHead + 1 == s.commit
      then Goto(s, t, DeqReturn(None))
      else Goto(s, t, DeqCopy(oldHead, []))
    case DeqCopy(oldHead, copy) =>
      if |copy| < s.width
      then
        var slot := GetIndex(oldHead + 1, s.poolSize);
        Goto(s, t, DeqCopy(oldHead, copy + [s.pool[slot][|copy|]]))
      else Goto(s, t, DeqCasHead(oldHead, copy))
    case DeqCasHead(oldHead, copy) =>
      if !spurious && s.head == oldHead
      then Goto(s, t, DeqReturn(Some(copy))).(head := oldHead + 1, dequeued := s.dequeued + [copy])
      else Goto(s, t, DeqLoadCommit(s.head))
    case DeqReturn(_) => Goto(s, t, Idle)
  }

  /** The state after a schedule. */
  function Run(s: State, schedule: seq<Action>): (s': State)
    requires Shape(s)
    ensures Shape(s')
    decreases |schedule|, 1
  {
    if schedule == [] then s else LastStep(s, schedule)
  }

  function LastStep(s: State, schedule: seq<Action>): (s': State)
    requires Shape(s) && schedule != []
    ensures Shape(s')
    decreases |schedule|, 0
  {
    var last := schedule[|schedule| - 1];
    Step(Run(s, schedule[..|schedule| - 1]), last.thread, last.event)
  }

  // ----- the invariant

  ghost predicate Counters(s: State) {
    && s.head < s.commit <= s.tail <= s.head + s.poolSize - 1
    && |s.enqueued| == |s.producers| == s.tail - 1
  }

  /** The element of ticket `k`. */
  ghost function Item(s: State, k: nat): Element
    requires 1 <= k <= |s.enqueued|
  {
    s.enqueued[k - 1]
  }

  ghost function Slot(s: State, k: nat): Element
    requires Shape(s)
  {
    s.pool[k % s.poolSize]
  }

  /** A committed and not yet consumed ticket's slot holds that ticket's whole element. */
  ghost predicate CommittedSlots(s: State)
    requires Shape(s) && Counters(s)
  {
    forall k :: s.head < k < s.commit ==> Slot(s, k) == Item(s, k)
  }

  /** Thread `l` has won ticket `k` and has not committed it. */
  predicate Owns(l: Thread, k: nat) {
    (l.EnqWrite? || l.EnqCasCommit?) && l.ticket == k
  }

  /** Every ticket from commit to tail is in the hands of the thread that won it. */
  ghost predicate PendingOwned(s: State)
    requires Counters(s)
  {
    forall k :: s.commit <= k < s.tail ==> OwnedByWinner(s, k)
  }

  ghost predicate OwnedByWinner(s: State, k: nat)
    requires 1 <= k <= |s.producers|
  {
    s.producers[k - 1] < |s.threads| && Owns(s.threads[s.producers[k - 1]], k)
  }

  ghost predicate Pending(s: State, t: nat, v: Element, k: nat)
    requires Counters(s)
  {
    s.commit <= k < s.tail && s.producers[k - 1] == t && Item(s, k) == v
  }

  ghost predicate ThreadOk(s: State, t: nat)
    requires Shape(s) && Counters(s) && t < |s.threads|
  {
    match s.threads[t]
    case EnqCheckFull(v, oldTail) => 1 <= oldTail <= s.tail
    case EnqCasTail(v, oldTail) =>
      1 <= oldTail <= s.tail && (oldTail == s.tail ==> oldTail + 1 < s.head + s.poolSize)
    case EnqWrite(v, k, i) => Pending(s, t, v, k) && Slot(s, k)[..i] == v[..i]
    case EnqCasCommit(v, k) => Pending(s, t, v, k) && Slot(s, k) == v
    case DeqLoadCommit(oldHead) => oldHead <= s.head
    case DeqCopy(oldHead, copy) => CopyOk(s, oldHead, copy)
    case DeqCasHead(oldHead, copy) => CopyOk(s, oldHead, copy)
    case _ => true
  }

  /** What has been copied is right unless another consumer has moved the head meanwhile. */
  ghost predicate CopyOk(s: State, oldHead: nat, copy: Element)
    requires Shape(s) && Counters(s)
  {
    && oldHead <= s.head
    && oldHead + 1 < s.commit
    && (oldHead == s.head ==> |copy| <= |Item(s, oldHead + 1)| && copy == Item(s, oldHead + 1)[..|copy|])
  }

  ghost predicate Inv(s: State) {
    && Shape(s)
    && Counters(s)
    && (forall k :: 0 <= k < |s.enqueued| ==> |s.enqueued[k]| == s.width)
    && s.dequeued == s.enqueued[..s.head]
    && CommittedSlots(s)
    && PendingOwned(s)
    && (forall t :: 0 <= t < |s.threads| ==> ThreadOk(s, t))
  }

  // ----- every step keeps the invariant

  /** Tickets strictly between the head and the head plus the pool size have slots of their own. */
  lemma SlotsDistinct(s: State, j: nat, k: nat)
    requires Shape(s) && s.head < j < k <= s.head + s.poolSize
    ensures j % s.poolSize != k % s.poolSize
  {
    DistinctResidues(j, k, s.poolSize);
  }

  lemma InitInv(size: nat, width: nat, threads: nat)
    ensures Inv(Init(size, width, threads))
  {}

  /** The full check, made against a head that may be stale by the time the CAS succeeds. */
  lemma FullCheck(s: State, oldTail: nat)
    requires Shape(s) && Counters(s) && 1 <= oldTail <= s.tail
    requires GetIndex(oldTail + 1, s.poolSize) != GetIndex(s.head, s.poolSize)
    ensures oldTail == s.tail ==> oldTail + 1 < s.head + s.poolSize
  {
    if oldTail + 1 == s.head + s.poolSize {
      ShiftedResidue(s.head, 1, s.poolSize);
    }
  }

  lemma TailCasKeepsInv(s: State, t: nat)
    requires Inv(s) && t < |s.threads| && s.threads[t].EnqCasTail? && s.threads[t].oldTail == s.tail
    ensures Inv(Next(s, t, false))
  {
    var s' := Next(s, t, false);
    assert ThreadOk(s, t);
    forall u | 0 <= u < |s'.threads|
      ensures ThreadOk(s', u)
    {
      assert u != t ==> ThreadOk(s, u);
    }
    forall k | s'.commit <= k < s'.tail
      ensures OwnedByWinner(s', k)
    {
      assert k < s.tail ==> OwnedByWinner(s, k);
    }
    forall k | s'.head < k < s'.commit
      ensures Slot(s', k) == Item(s', k)
    {
      assert Slot(s, k) == Item(s, k);
    }
  }

  /** No other ticket in use shares the slot being written. */
  lemma OtherSlotsKept(s: State, t: nat, j: nat)
    requires Inv(s) && t < |s.threads| && s.threads[t].EnqWrite? && s.threads[t].written < s.width
    requires s.head < j < s.tail && j != s.threads[t].ticket
    ensures Slot(Next(s, t, false), j) == Slot(s, j)
  {
    assert ThreadOk(s, t);
    var k := s.threads[t].ticket;
    if j < k { SlotsDistinct(s, j, k); } else { SlotsDistinct(s, k, j); }
  }

  lemma WordWritten(s: State, t: nat)
    requires Inv(s) && t < |s.threads| && s.threads[t].EnqWrite? && s.threads[t].written < s.width
    ensures var EnqWrite(v, k, i) := s.threads[t];
            && i < |v| && i < |Slot(s, k)| == |Slot(Next(s, t, false), k)|
            && Slot(Next(s, t, false), k)[..i + 1] == v[..i + 1]
  {
    assert ThreadOk(s, t) && ThreadShape(s.threads[t], s.width);
    var EnqWrite(v, k, i) := s.threads[t];
    var before, after := Slot(s, k), Slot(Next(s, t, false), k);
    assert after == before[i := v[i]];
    assert before[..i] == v[..i];
    assert after[..i + 1] == before[..i] + [v[i]] && v[..i + 1] == v[..i] + [v[i]];
  }

  lemma WriteKeepsInv(s: State, t: nat)
    requires Inv(s) && t < |s.threads| && s.threads[t].EnqWrite? && s.threads[t].written < s.width
    ensures Inv(Next(s, t, false)) && Next(s, t, true) == Next(s, t, false)
  {
    var s' := Next(s, t, false);
    var EnqWrite(v, k, i) := s.threads[t];
    assert ThreadOk(s, t);
    forall j | s.head < j < s.tail && j != k
      ensures Slot(s', j) == Slot(s, j)
    {
      OtherSlotsKept(s, t, j);
    }
    forall j | s'.head < j < s'.commit
      ensures Slot(s', j) == Item(s', j)
    {
      assert Slot(s, j) == Item(s, j);
    }
    forall j | s'.commit <= j < s'.tail
      ensures OwnedByWinner(s', j)
    {
      assert OwnedByWinner(s, j);
    }
    WordWritten(s, t);
    forall u | 0 <= u < |s'.threads|
      ensures ThreadOk(s', u)
    {
      assert ThreadOk(s, u);
    }
  }

  lemma CommitKeepsInv(s: State, t: nat)
    requires Inv(s) && t < |s.threads| && s.threads[t].EnqCasCommit? && s.threads[t].ticket == s.commit
    ensures Inv(Next(s, t, false))
  {
    var s' := Next(s, t, false);
    assert ThreadOk(s, t);
    forall k | s'.head < k < s'.commit
      ensures Slot(s', k) == Item(s', k)
    {
      assert k < s.commit ==> Slot(s, k) == Item(s, k);
    }
    forall k | s'.commit <= k < s'.tail
      ensures OwnedByWinner(s', k)
    {
      assert OwnedByWinner(s, k);
    }
    forall u | 0 <= u < |s'.threads|
      ensures ThreadOk(s', u)
    {
      assert ThreadOk(s, u);
    }
  }

  lemma CopyKeepsInv(s: State, t: nat)
    requires Inv(s) && t < |s.threads| && s.threads[t].DeqCopy? && |s.threads[t].copy| < s.width
    ensures Inv(Next(s, t, false)) && Next(s, t, true) == Next(s, t, false)
  {
    var s' := Next(s, t, false);
    var DeqCopy(oldHead, copy) := s.threads[t];
    assert ThreadOk(s, t);
    if oldHead == s.head {
      assert Slot(s, oldHead + 1) == Item(s, oldHead + 1);
    }
    ThreadTableOnly(s, s', t);
  }

  lemma HeadCasKeepsInv(s: State, t: nat)
    requires Inv(s) && t < |s.threads| && s.threads[t].DeqCasHead? && s.threads[t].oldHead == s.head
    ensures Inv(Next(s, t, false))
  {
    var s' := Next(s, t, false);
    assert ThreadOk(s, t);
    var h := s.head;
    assert s.enqueued[..h + 1] == s.enqueued[..h] + [Item(s, h + 1)];
    assert s.threads[t].copy == Item(s, h + 1);
    forall k | s'.head < k < s'.commit
      ensures Slot(s', k) == Item(s', k)
    {
      assert Slot(s, k) == Item(s, k);
    }
    forall k | s'.commit <= k < s'.tail
      ensures OwnedByWinner(s', k)
    {
      assert OwnedByWinner(s, k);
    }
    forall u | 0 <= u < |s'.threads|
      ensures ThreadOk(s', u)
    {
      assert ThreadOk(s, u);
    }
  }

  /** A step that only moves thread `t`, which is in possession of no ticket, needs checking at `t` alone. */
  lemma ThreadTableOnly(s: State, s': State, t: nat)
    requires Inv(s) && Shape(s') && t < |s.threads|
    requires |s'.threads| == |s.threads| && s' == s.(threads := s.threads[t := s'.threads[t]])
    requires ThreadOk(s', t)
    requires forall k :: Owns(s.threads[t], k) ==> Owns(s'.threads[t], k)
    ensures Inv(s')
  {
    forall k | s'.head < k < s'.commit
      ensures Slot(s', k) == Item(s', k)
    {
      assert Slot(s, k) == Item(s, k);
    }
    forall k | s'.commit <= k < s'.tail
      ensures OwnedByWinner(s', k)
    {
      assert OwnedByWinner(s, k);
    }
    forall u | 0 <= u < |s'.threads|
      ensures ThreadOk(s', u)
    {
      assert u != t ==> ThreadOk(s, u);
    }
  }

  lemma CheckKeepsInv(s: State, t: nat, spurious: bool)
    requires Inv(s) && t < |s.threads| && s.threads[t].EnqCheckFull?
    ensures Inv(Next(s, t, spurious))
  {
    assert ThreadOk(s, t);
    var s' := Next(s, t, spurious);
    if !s'.threads[t].EnqReturn? {
      FullCheck(s, s.threads[t].oldTail);
    }
    ThreadTableOnly(s, s', t);
  }

  lemma EnqueueKeepsInv(s: State, t: nat, spurious: bool)
    requires Inv(s) && t < |s.threads|
    requires var l := s.threads[t]; l.EnqCheckFull? || l.EnqCasTail? || l.EnqWrite? || l.EnqCasCommit?
    ensures Inv(Next(s, t, spurious))
  {
    assert ThreadOk(s, t);
    var s' := Next(s, t, spurious);
    match s.threads[t]
    case EnqCheckFull(_, _) => CheckKeepsInv(s, t, spurious);
    case EnqCasTail(v, oldTail) =>
      if !spurious && s.tail == oldTail { TailCasKeepsInv(s, t); } else { ThreadTableOnly(s, s', t); }
    case EnqWrite(v, k, i) =>
      if i < s.width {
        WriteKeepsInv(s, t);
      } else {
        assert Slot(s, k)[..i] == Slot(s, k) && v[..i] == v;
        ThreadTableOnly(s, s', t);
      }
    case EnqCasCommit(v, k) =>
      if !spurious && s.commit == k { CommitKeepsInv(s, t); }
  }

  lemma DequeueKeepsInv(s: State, t: nat, spurious: bool)
    requires Inv(s) && t < |s.threads|
    requires s.threads[t].DeqLoadCommit? || s.threads[t].DeqCopy? || s.threads[t].DeqCasHead?
    ensures Inv(Next(s, t, spurious))
  {
    assert ThreadOk(s, t);
    var s' := Next(s, t, spurious);
    match s.threads[t]
    case DeqLoadCommit(oldHead) =>
      ThreadTableOnly(s, s', t);
    case DeqCopy(oldHead, copy) =>
      if |copy| < s.width { CopyKeepsInv(s, t); } else { ThreadTableOnly(s, s', t); }
    case DeqCasHead(oldHead, copy) =>
      if !spurious && s.head == oldHead { HeadCasKeepsInv(s, t); } else { ThreadTableOnly(s, s', t); }
  }

  lemma NextKeepsInv(s: State, t: nat, spurious: bool)
    requires Inv(s) && t < |s.threads|
    ensures Inv(Next(s, t, spurious))
  {
    var l := s.threads[t];
    if l.EnqCheckFull? || l.EnqCasTail? || l.EnqWrite? || l.EnqCasCommit? {
      EnqueueKeepsInv(s, t, spurious);
    } else if l.DeqLoadCommit? || l.DeqCopy? || l.DeqCasHead? {
      DequeueKeepsInv(s, t, spurious);
    } else if !l.Idle? {
      ThreadTableOnly(s, Next(s, t, spurious), t);
    }
  }

  lemma StepKeepsInv(s: State, t: nat, e: Event)
    requires Inv(s)
    ensures Inv(Step(s, t, e))
  {
    if t < |s.threads| {
      if e.Advance? {
        NextKeepsInv(s, t, e.spurious);
      } else if Step(s, t, e) != s {
        ThreadTableOnly(s, Step(s, t, e), t);
      }
    }
  }

  lemma {:induction false} RunKeepsInv(s: State, schedule: seq<Action>)
    requires Inv(s)
    ensures Inv(Run(s, schedule))
    decreases |schedule|
  {
    if schedule != [] {
      var n := |schedule| - 1;
      RunKeepsInv(s, schedule[..n]);
      StepKeepsInv(Run(s, schedule[..n]), schedule[n].thread, schedule[n].event);
    }
  }
}
