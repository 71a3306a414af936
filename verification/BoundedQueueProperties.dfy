/** What every run of the ring of base/bounded_queue.h promises its callers. */
module BoundedQueueProperties {
  import opened Wrappers
  import opened Modular
  import opened BoundedQueueProtocol

  // ----- first in, first out

  /** The elements a consumer can see: committed and not yet consumed. */
  ghost function Queue(s: State): seq<Element>
    requires Counters(s)
  {
    s.enqueued[s.head..s.commit - 1]
  }

  /**
   In every run the sequence of returned elements is a prefix of the sequence of accepted ones: the
   k-th successful head CAS returns the whole element of the k-th successful tail CAS.
   */
  lemma FirstInFirstOut(size: nat, width: nat, threads: nat, schedule: seq<Action>)
    ensures var s := Run(Init(size, width, threads), schedule);
            && s.dequeued <= s.enqueued
            && |s.dequeued| == s.head < s.commit <= s.tail == |s.enqueued| + 1 <= s.head + size + 1
  {
    InitInv(size, width, threads);
    RunKeepsInv(Init(size, width, threads), schedule);
    PoolSizeFixed(Init(size, width, threads), schedule);
  }

  lemma {:induction false} PoolSizeFixed(s: State, schedule: seq<Action>)
    requires Shape(s)
    ensures var s' := Run(s, schedule);
            s'.poolSize == s.poolSize && s'.width == s.width && |s'.threads| == |s.threads|
    decreases |schedule|
  {
    if schedule != [] {
      PoolSizeFixed(s, schedule[..|schedule| - 1]);
    }
  }

  ghost predicate FifoStep(s: State, s': State, before: Thread, after: Thread)
    requires Counters(s) && Counters(s')
  {
    if before.EnqCasCommit? && after.EnqReturn?
    then after.ok && Queue(s') == Queue(s) + [before.v]
    else if before.DeqCasHead? && after.DeqReturn?
    then after.result.Some? && Queue(s) == [after.result.value] + Queue(s')
    else if before.DeqLoadCommit? && after.DeqReturn?
    then after.result.None? && Queue(s) == [] == Queue(s')
    else Queue(s') == Queue(s)
  }

  lemma CommitPuts(s: State, t: nat)
    requires Inv(s) && t < |s.threads| && s.threads[t].EnqCasCommit? && s.threads[t].ticket == s.commit
    ensures Counters(Next(s, t, false)) && Queue(Next(s, t, false)) == Queue(s) + [s.threads[t].v]
  {
    assert ThreadOk(s, t);
    assert s.enqueued[s.head..s.commit] == s.enqueued[s.head..s.commit - 1] + [Item(s, s.commit)];
  }

  /** In a reachable state the head CAS can only succeed with the whole element of the ticket it takes. */
  lemma HeadCasTakesWholeElement(s: State, t: nat)
    requires Inv(s) && t < |s.threads| && s.threads[t].DeqCasHead? && s.threads[t].oldHead == s.head
    ensures s.head + 1 < s.commit
    ensures Next(s, t, false).threads[t] == DeqReturn(Some(Item(s, s.head + 1)))
    ensures |Item(s, s.head + 1)| == s.width
  {
    assert ThreadOk(s, t);
    assert |s.enqueued[s.head]| == s.width;
    assert ThreadShape(s.threads[t], s.width);
    var item := Item(s, s.head + 1);
    assert item[..s.width] == item;
  }

  lemma HeadCasTakes(s: State, t: nat)
    requires Inv(s) && t < |s.threads| && s.threads[t].DeqCasHead? && s.threads[t].oldHead == s.head
    ensures Counters(Next(s, t, false)) && Queue(s) == [s.threads[t].copy] + Queue(Next(s, t, false))
  {
    HeadCasTakesWholeElement(s, t);
    var h := s.head;
    assert s.enqueued[h..s.commit - 1] == [Item(s, h + 1)] + s.enqueued[h + 1..s.commit - 1];
  }

  lemma AdvanceRefinesFifo(s: State, t: nat, spurious: bool)
    requires Inv(s) && t < |s.threads| && Counters(Next(s, t, spurious))
    ensures FifoStep(s, Next(s, t, spurious), s.threads[t], Next(s, t, spurious).threads[t])
  {
    assert ThreadOk(s, t);
    var l := s.threads[t];
    if l.EnqCasCommit? && !spurious && l.ticket == s.commit {
      CommitPuts(s, t);
    } else if l.DeqCasHead? && !spurious && l.oldHead == s.head {
      HeadCasTakes(s, t);
    } else {
      VisibleQueueUnchanged(s, Next(s, t, spurious));
    }
  }

  lemma VisibleQueueUnchanged(s: State, s': State)
    requires Counters(s) && Counters(s')
    requires s'.head == s.head && s'.commit == s.commit && s.enqueued <= s'.enqueued
    ensures Queue(s') == Queue(s)
  {}

  /**
   Every step acts on the visible queue like a FIFO queue of capacity `poolSize - 2`: the commit CAS of
   an Enqueue puts its argument, a successful head CAS takes the first element and returns it,
   Dequeue answers empty only at an instant when the queue is empty, nothing else changes it.
   */
  lemma StepRefinesFifo(s: State, t: nat, e: Event)
    requires Inv(s) && t < |s.threads|
    ensures Inv(Step(s, t, e))
    ensures var s' := Step(s, t, e);
            && |Queue(s')| <= s'.poolSize - 2
            && FifoStep(s, s', s.threads[t], s'.threads[t])
  {
    StepKeepsInv(s, t, e);
    if e.Advance? {
      AdvanceRefinesFifo(s, t, e.spurious);
    }
  }

  // ----- copying before the CAS

  lemma {:induction false} CountersGrow(s: State, schedule: seq<Action>)
    requires Inv(s)
    ensures var s' := Run(s, schedule);
            && s.head <= s'.head && s.commit <= s'.commit && s.tail <= s'.tail
            && s.enqueued <= s'.enqueued
    decreases |schedule|
  {
    if schedule != [] {
      CountersGrow(s, schedule[..|schedule| - 1]);
    }
  }

  lemma RunSnoc(s: State, schedule: seq<Action>, a: Action)
    requires Shape(s)
    ensures Run(s, schedule + [a]) == Step(Run(s, schedule), a.thread, a.event)
  {
    var longer := schedule + [a];
    assert longer[..|longer| - 1] == schedule;
  }

  lemma {:induction false} RunAppend(s: State, first: seq<Action>, second: seq<Action>)
    requires Shape(s)
    ensures Run(s, first + second) == Run(Run(s, first), second)
    decreases |second|
  {
    if second == [] {
      assert first + second == first;
    } else {
      var all, n := first + second, |second| - 1;
      assert all[..|all| - 1] == first + second[..n] && all[|all| - 1] == second[n];
      RunAppend(s, first, second[..n]);
    }
  }

  /**
   A consumer that starts copying with `oldHead` and later finds the head still there has copied a
   committed slot that held the ticket's whole element all the time, and that no producer was
   writing, or could have been writing, at any instant in between.
   */
  lemma CopyUndisturbed(s: State, schedule: seq<Action>, t: nat, oldHead: nat, i: nat)
    requires Inv(s) && t < |s.threads| && s.threads[t] == DeqCopy(oldHead, [])
    requires Run(s, schedule).head == oldHead && i <= |schedule|
    ensures var mid := Run(s, schedule[..i]);
            && Inv(mid)
            && oldHead + 1 < mid.commit && oldHead + 1 < s.tail
            && Slot(mid, oldHead + 1) == Item(s, oldHead + 1)
            && forall u :: 0 <= u < |mid.threads| && mid.threads[u].EnqWrite?
                 ==> mid.threads[u].ticket % mid.poolSize != (oldHead + 1) % mid.poolSize
  {
    var mid := Run(s, schedule[..i]);
    RunKeepsInv(s, schedule[..i]);
    assert schedule == schedule[..i] + schedule[i..];
    RunAppend(s, schedule[..i], schedule[i..]);
    CountersGrow(s, schedule[..i]);
    CountersGrow(mid, schedule[i..]);
    SlotUndisturbed(s, mid, t, oldHead);
  }

  /** The same of one later state, knowing that the head has not moved on by then. */
  lemma SlotUndisturbed(s: State, mid: State, t: nat, oldHead: nat)
    requires Inv(s) && Inv(mid) && t < |s.threads| && s.threads[t] == DeqCopy(oldHead, [])
    requires s.head <= mid.head <= oldHead && s.commit <= mid.commit && s.enqueued <= mid.enqueued
    ensures oldHead + 1 < mid.commit && oldHead + 1 < s.tail
    ensures Slot(mid, oldHead + 1) == Item(s, oldHead + 1)
    ensures forall u :: 0 <= u < |mid.threads| && mid.threads[u].EnqWrite?
                 ==> mid.threads[u].ticket % mid.poolSize != (oldHead + 1) % mid.poolSize
  {
    assert ThreadOk(s, t);
    assert Slot(mid, oldHead + 1) == Item(mid, oldHead + 1);
    forall u | 0 <= u < |mid.threads| && mid.threads[u].EnqWrite?
      ensures mid.threads[u].ticket % mid.poolSize != (oldHead + 1) % mid.poolSize
    {
      assert ThreadOk(mid, u);
      SlotsDistinct(mid, oldHead + 1, mid.threads[u].ticket);
    }
  }

  // ----- answers

  /** Dequeue answers empty exactly when its head is current and head + 1 == commit as it loads commit. */
  lemma EmptyAnswer(s: State, t: nat, spurious: bool)
    requires Inv(s) && t < |s.threads| && s.threads[t].DeqLoadCommit?
    ensures Next(s, t, spurious).threads[t] == DeqReturn(None)
            <==> s.threads[t].oldHead == s.head && s.head + 1 == s.commit
  {
    assert ThreadOk(s, t);
  }

  /**
   Enqueue answers full exactly when the queue is full and its tail is current, or when its tail is
   stale by a whole number of laps behind the head.
   */
  lemma FullAnswer(s: State, t: nat, spurious: bool)
    requires Inv(s) && t < |s.threads| && s.threads[t].EnqCheckFull?
    ensures var oldTail := s.threads[t].oldTail;
            Next(s, t, spurious).threads[t] == EnqReturn(false)
            <==> || (oldTail == s.tail && s.tail - s.head - 1 == s.poolSize - 2)
                 || (oldTail + 1 <= s.head && (s.head - (oldTail + 1)) % s.poolSize == 0)
  {
    assert ThreadOk(s, t);
    SameIndex(s.threads[t].oldTail + 1, s.head, s.poolSize);
  }

  /** Two positions have the same index exactly when they are a whole number of laps apart. */
  lemma SameIndex(n: nat, h: nat, p: nat)
    requires 0 < p && n <= h + p
    ensures n % p == h % p <==> n == h + p || (n <= h && (h - n) % p == 0)
  {
    if n <= h {
      if n % p == h % p { EqualResidues(n, h, p); }
      if (h - n) % p == 0 { ShiftedResidue(n, (h - n) / p, p); }
    } else if n < h + p {
      DistinctResidues(h, n, p);
    } else {
      ShiftedResidue(h, 1, p);
    }
  }

  // ----- the hand-off of commit

  /** Every ticket between commit and tail is in the hands of exactly one thread. */
  lemma OneOwner(s: State, k: nat)
    requires Inv(s) && s.commit <= k < s.tail
    ensures exists t :: 0 <= t < |s.threads| && Owns(s.threads[t], k)
    ensures forall t, u | 0 <= t < |s.threads| && 0 <= u < |s.threads| ::
              Owns(s.threads[t], k) && Owns(s.threads[u], k) ==> t == u
  {
    assert OwnedByWinner(s, k);
    forall t | 0 <= t < |s.threads| && Owns(s.threads[t], k)
      ensures t == s.producers[k - 1]
    {
      assert ThreadOk(s, t);
    }
  }

  function Solo(t: nat, steps: nat): (schedule: seq<Action>)
    ensures |schedule| == steps
    ensures forall i :: 0 <= i < steps ==> schedule[i] == Action(t, Advance(false))
  {
    if steps == 0 then [] else [Action(t, Advance(false))] + Solo(t, steps - 1)
  }

  /** How many steps of its own separate a producer from committing its ticket. */
  function StepsToCommit(l: Thread, width: nat): nat
    requires ThreadShape(l, width)
  {
    match l
    case EnqWrite(_, _, i) => width - i + 2
    case _ => 1
  }

  /** The owner of ticket `commit` is never blocked: run alone it commits, whatever the others are doing. */
  lemma {:induction false} OwnerCommits(s: State, t: nat)
    requires Inv(s) && t < |s.threads| && Owns(s.threads[t], s.commit)
    ensures var steps := StepsToCommit(s.threads[t], s.width);
            var s' := Run(s, Solo(t, steps));
            && s' == s.(commit := s.commit + 1, pool := s'.pool, threads := s.threads[t := EnqReturn(true)])
    decreases StepsToCommit(s.threads[t], s.width)
  {
    FirstStepAlone(s, t, StepsToCommit(s.threads[t], s.width) - 1);
    OwnerAdvances(s, t);
    if s.threads[t].EnqWrite? {
      OwnerCommits(Next(s, t, false), t);
    }
  }

  /** A producer's next step takes it closer to its commit, or commits. */
  lemma OwnerAdvances(s: State, t: nat)
    requires Inv(s) && t < |s.threads| && Owns(s.threads[t], s.commit)
    ensures var s' := Next(s, t, false);
            && s' == s.(commit := s'.commit, pool := s'.pool, threads := s.threads[t := s'.threads[t]])
            && (if s.threads[t].EnqWrite?
                then && s'.commit == s.commit && Owns(s'.threads[t], s'.commit) && ThreadShape(s'.threads[t], s.width)
                     && StepsToCommit(s'.threads[t], s.width) == StepsToCommit(s.threads[t], s.width) - 1
                else s'.commit == s.commit + 1 && s'.threads[t] == EnqReturn(true))
  {
    assert ThreadOk(s, t) && ThreadShape(s.threads[t], s.width);
  }

  /** From every reachable state there is a continuation in which every pending Enqueue has committed. */
  lemma {:induction false} HandOffNeverDeadlocks(s: State) returns (schedule: seq<Action>)
    requires Inv(s)
    ensures var s' := Run(s, schedule);
            && Inv(s')
            && s'.commit == s'.tail == s.tail && s'.head == s.head && s'.enqueued == s.enqueued
    decreases s.tail - s.commit
  {
    if s.commit == s.tail {
      schedule := [];
    } else {
      var t := s.producers[s.commit - 1];
      assert OwnedByWinner(s, s.commit);
      var first := Solo(t, StepsToCommit(s.threads[t], s.width));
      OwnerCommits(s, t);
      RunKeepsInv(s, first);
      var rest := HandOffNeverDeadlocks(Run(s, first));
      RunAppend(s, first, rest);
      schedule := first + rest;
    }
  }

  // ----- calls that nothing interferes with

  lemma OneMore(s: State, schedule: seq<Action>, t: nat, e: Event) returns (longer: seq<Action>)
    requires Inv(s)
    ensures longer == schedule + [Action(t, e)]
    ensures Run(s, longer) == Step(Run(s, schedule), t, e) && Inv(Run(s, longer))
  {
    longer := schedule + [Action(t, e)];
    RunSnoc(s, schedule, Action(t, e));
    RunKeepsInv(s, longer);
  }

  function TicketWon(s: State, t: nat, v: Element): State
    requires t < |s.threads|
  {
    s.(tail := s.tail + 1, enqueued := s.enqueued + [v], producers := s.producers + [t],
       threads := s.threads[t := EnqWrite(v, s.tail, 0)])
  }

  lemma TailRead(s: State, t: nat, v: Element)
    requires Inv(s) && t < |s.threads| && Resting(s.threads[t]) && |v| == s.width
    ensures Step(Step(s, t, CallEnqueue(v)), t, Advance(false)) == Goto(s, t, EnqCheckFull(v, s.tail))
  {}

  lemma TailChecked(s: State, t: nat, v: Element)
    requires t < |s.threads| && Inv(Goto(s, t, EnqCheckFull(v, s.tail)))
    ensures Step(Goto(s, t, EnqCheckFull(v, s.tail)), t, Advance(false)) ==
            if s.tail - s.head - 1 < s.poolSize - 2
            then Goto(s, t, EnqCasTail(v, s.tail)) else Goto(s, t, EnqReturn(false))
  {
    FullAnswer(Goto(s, t, EnqCheckFull(v, s.tail)), t, false);
  }

  lemma TailTaken(s: State, t: nat, v: Element)
    requires t < |s.threads| && Shape(Goto(s, t, EnqCasTail(v, s.tail)))
    ensures Step(Goto(s, t, EnqCasTail(v, s.tail)), t, Advance(false)) == TicketWon(s, t, v)
  {}

  lemma TicketAlone(s: State, t: nat, v: Element) returns (schedule: seq<Action>)
    requires Inv(s) && t < |s.threads| && Resting(s.threads[t]) && |v| == s.width
    ensures Inv(Run(s, schedule))
    ensures Run(s, schedule) ==
            if s.tail - s.head - 1 < s.poolSize - 2 then TicketWon(s, t, v) else Goto(s, t, EnqReturn(false))
  {
    assert Run(s, []) == s;
    schedule := OneMore(s, [], t, CallEnqueue(v));
    schedule := OneMore(s, schedule, t, Advance(false));
    TailRead(s, t, v);
    schedule := OneMore(s, schedule, t, Advance(false));
    TailChecked(s, t, v);
    if s.tail - s.head - 1 < s.poolSize - 2 {
      schedule := OneMore(s, schedule, t, Advance(false));
      TailTaken(s, t, v);
    }
  }

  /**
   Run alone, with no other Enqueue in flight, Enqueue answers by exact fullness: it appends its
   argument and returns true iff fewer than `poolSize - 2` elements are stored.
   */
  lemma EnqueueAlone(s: State, t: nat, v: Element) returns (schedule: seq<Action>)
    requires Inv(s) && t < |s.threads| && Resting(s.threads[t]) && |v| == s.width && s.commit == s.tail
    ensures var s' := Run(s, schedule);
            && Inv(s')
            && (if s.tail - s.head - 1 < s.poolSize - 2
                then && s' == s.(tail := s.tail + 1, commit := s.commit + 1, pool := s'.pool,
                                 enqueued := s.enqueued + [v], producers := s.producers + [t],
                                 threads := s.threads[t := EnqReturn(true)])
                     && Queue(s') == Queue(s) + [v]
                else s' == s.(threads := s.threads[t := EnqReturn(false)]))
  {
    schedule := TicketAlone(s, t, v);
    if s.tail - s.head - 1 < s.poolSize - 2 {
      WinnerFinishes(s, t, v);
      RunAppend(s, schedule, Solo(t, s.width + 2));
      schedule := schedule + Solo(t, s.width + 2);
    }
  }

  lemma WinnerFinishes(s: State, t: nat, v: Element)
    requires Inv(s) && t < |s.threads| && |v| == s.width && s.commit == s.tail
    requires Inv(TicketWon(s, t, v))
    ensures var s' := Run(TicketWon(s, t, v), Solo(t, s.width + 2));
            && Inv(s')
            && s' == s.(tail := s.tail + 1, commit := s.commit + 1, pool := s'.pool,
                        enqueued := s.enqueued + [v], producers := s.producers + [t],
                        threads := s.threads[t := EnqReturn(true)])
            && Queue(s') == Queue(s) + [v]
  {
    var won := TicketWon(s, t, v);
    OwnerCommits(won, t);
    RunKeepsInv(won, Solo(t, s.width + 2));
    var all := s.enqueued + [v];
    assert all[s.head..|all|] == all[s.head..|all| - 1] + [v];
  }

  /** Run alone, Dequeue takes the first visible element, or answers empty iff there is none. */
  lemma DequeueAlone(s: State, t: nat) returns (schedule: seq<Action>)
    requires Inv(s) && t < |s.threads| && Resting(s.threads[t])
    ensures var s' := Run(s, schedule);
            && Inv(s')
            && (if s.head + 1 < s.commit
                then s' == s.(head := s.head + 1, dequeued := s.dequeued + [Queue(s)[0]],
                              threads := s.threads[t := DeqReturn(Some(Queue(s)[0]))])
                else s' == s.(threads := s.threads[t := DeqReturn(None)]))
  {
    schedule := LookAlone(s, t);
    if s.head + 1 < s.commit {
      var rest := TakeAlone(s, Run(s, schedule), t);
      RunAppend(s, schedule, rest);
      schedule := schedule + rest;
    }
  }

  lemma LookAlone(s: State, t: nat) returns (schedule: seq<Action>)
    requires Inv(s) && t < |s.threads| && Resting(s.threads[t])
    ensures Inv(Run(s, schedule))
    ensures Run(s, schedule) == Goto(s, t, if s.head + 1 < s.commit then DeqCopy(s.head, []) else DeqReturn(None))
  {
    schedule := OneMore(s, [], t, CallDequeue);
    assert Run(s, schedule) == Goto(s, t, DeqLoadHead);
    schedule := OneMore(s, schedule, t, Advance(false));
    assert Run(s, schedule) == Goto(s, t, DeqLoadCommit(s.head));
    schedule := OneMore(s, schedule, t, Advance(false));
  }

  lemma TakeAlone(s: State, copying: State, t: nat) returns (schedule: seq<Action>)
    requires Inv(s) && Inv(copying) && t < |s.threads| && s.head + 1 < s.commit
    requires copying == Goto(s, t, DeqCopy(s.head, []))
    ensures var s' := Run(copying, schedule);
            Inv(s') && s' == s.(head := s.head + 1, dequeued := s.dequeued + [Queue(s)[0]],
                                threads := s.threads[t := DeqReturn(Some(Queue(s)[0]))])
  {
    CopyAlone(copying, t);
    schedule := Solo(t, s.width + 1);
    RunKeepsInv(copying, schedule);
    var copied := Run(copying, schedule);
    assert copied == Goto(s, t, DeqCasHead(s.head, Item(s, s.head + 1)));
    HeadCasTakesWholeElement(copied, t);
    schedule := OneMore(copying, schedule, t, Advance(false));
  }

  lemma {:induction false} CopyAlone(s: State, t: nat)
    requires Inv(s) && t < |s.threads| && s.threads[t].DeqCopy? && s.threads[t].oldHead == s.head
    ensures s.head + 1 < s.commit
    ensures Run(s, Solo(t, s.width - |s.threads[t].copy| + 1))
            == Goto(s, t, DeqCasHead(s.head, Item(s, s.head + 1)))
    decreases s.width - |s.threads[t].copy|
  {
    assert ThreadOk(s, t) && ThreadShape(s.threads[t], s.width);
    var more := s.width - |s.threads[t].copy|;
    FirstStepAlone(s, t, more);
    if more > 0 {
      CopyWord(s, t);
      CopyAlone(Next(s, t, false), t);
      Settle(s, t, Next(s, t, false).threads[t], DeqCasHead(s.head, Item(s, s.head + 1)));
    } else {
      CopyDone(s, t);
    }
  }

  lemma Settle(s: State, t: nat, l: Thread, l': Thread)
    requires t < |s.threads|
    ensures Goto(Goto(s, t, l), t, l') == Goto(s, t, l')
  {}

  lemma CopyWord(s: State, t: nat)
    requires Inv(s) && t < |s.threads| && s.threads[t].DeqCopy? && |s.threads[t].copy| < s.width
    ensures var s' := Next(s, t, false);
            s' == Goto(s, t, s'.threads[t]) && s'.threads[t].DeqCopy?
            && s'.threads[t].oldHead == s.threads[t].oldHead
            && |s'.threads[t].copy| == |s.threads[t].copy| + 1
  {}

  lemma FirstStepAlone(s: State, t: nat, more: nat)
    requires Inv(s) && t < |s.threads|
    ensures Inv(Next(s, t, false))
    ensures Run(s, Solo(t, more + 1)) == Run(Next(s, t, false), Solo(t, more))
  {
    var a := Action(t, Advance(false));
    NextKeepsInv(s, t, false);
    assert [] + [a] == [a] && Run(s, []) == s;
    RunSnoc(s, [], a);
    RunAppend(s, [a], Solo(t, more));
  }

  lemma CopyDone(s: State, t: nat)
    requires Inv(s) && t < |s.threads| && s.threads[t].DeqCopy? && s.threads[t].oldHead == s.head
    requires |s.threads[t].copy| == s.width
    ensures s.head + 1 < s.commit
    ensures Next(s, t, false) == Goto(s, t, DeqCasHead(s.head, Item(s, s.head + 1)))
  {
    assert ThreadOk(s, t);
    assert |s.enqueued[s.head]| == s.width;
    var item := Item(s, s.head + 1);
    assert item[..s.width] == item;
  }

  /**
   Not so under concurrency: whatever the size, there is a run in which Enqueue answers full
   although the queue is empty and nothing is in flight. The producer read the tail, and before it
   looked at the head another thread moved the head to the slot after that tail.
   */
  lemma FullAnswerCanBeWrong(size: nat, v: Element) returns (schedule: seq<Action>)
    requires 1 <= size
    ensures var s := Run(Init(size, |v|, 2), schedule);
            && Inv(s) && |s.threads| == 2
            && s.threads[0] == EnqReturn(false)
            && Queue(s) == [] && s.head + 1 == s.commit == s.tail
  {
    var s0 := Init(size, |v|, 2);
    InitInv(size, |v|, 2);
    assert Run(s0, []) == s0;
    schedule := OneMore(s0, [], 0, CallEnqueue(v));
    schedule := OneMore(s0, schedule, 0, Advance(false));
    assert Run(s0, schedule).threads == [EnqCheckFull(v, 1), Idle];
    for i := 0 to 2
      invariant Inv(Run(s0, schedule))
      invariant var s := Run(s0, schedule);
                && s.width == |v| && s.poolSize == size + 2 && |s.threads| == 2
                && s.threads[0] == EnqCheckFull(v, 1) && Resting(s.threads[1])
                && s.head == i && s.tail == s.commit == i + 1
    {
      var s := Run(s0, schedule);
      var put := EnqueueAlone(s, 1, v);
      var take := DequeueAlone(Run(s, put), 1);
      RunAppend(s0, schedule, put);
      RunAppend(s0, schedule + put, take);
      schedule := schedule + put + take;
    }
    FullAnswer(Run(s0, schedule), 0, false);
    schedule := OneMore(s0, schedule, 0, Advance(false));
  }
}
