/** What a whole call of Enqueue or Dequeue on the ring of base/bounded_queue.h has done by the time it returns. */
module BoundedQueueCalls {
  import Runs
  import opened Wrappers
  import opened BoundedQueueProtocol
  import opened BoundedQueueProperties

  ghost predicate Follows(s: State, a: Action, s': State) {
    Inv(s) && s' == Step(s, a.thread, a.event)
  }

  /** A run. That the invariant holds at each instant of it is no restriction (EveryScheduleRuns). */
  ghost predicate Execution(run: seq<State>, schedule: seq<Action>) {
    Runs.Execution<State, Action>(Inv, Follows, run, schedule)
  }

  lemma InvAt(run: seq<State>, schedule: seq<Action>, i: nat)
    requires Execution(run, schedule) && i < |run|
    ensures Inv(run[i])
  {
    assert Runs.HoldsAt<State>(Inv, run, i);
  }

  lemma StepAt(run: seq<State>, schedule: seq<Action>, i: nat)
    requires Execution(run, schedule) && i < |schedule|
    ensures Inv(run[i]) && run[i + 1] == Step(run[i], schedule[i].thread, schedule[i].event)
  {
    assert Runs.StepsTo<State, Action>(Follows, run, schedule, i);
  }

  /** Every schedule can be run, from any state with the invariant, and never leaves it. */
  lemma EveryScheduleRuns(s: State, schedule: seq<Action>) returns (run: seq<State>)
    requires Inv(s)
    ensures Execution(run, schedule) && run[0] == s
  {
    forall s: State, a: Action | Inv(s)
      ensures Runs.CanStep<State, Action>(Inv, Follows, s, a)
    {
      StepKeepsInv(s, a.thread, a.event);
      assert Follows(s, a, Step(s, a.thread, a.event));
    }
    run := Runs.EveryScheduleRuns<State, Action>(Inv, Follows, s, schedule);
  }

  // ----- single steps

  /** A step leaves the other threads alone. */
  lemma OthersWait(s: State, a: Action, t: nat)
    requires Shape(s) && t < |s.threads|
    ensures var s' := Step(s, a.thread, a.event);
            && |s'.threads| == |s.threads| && s'.width == s.width && s'.poolSize == s.poolSize
            && (a.thread != t ==> s'.threads[t] == s.threads[t])
  {}

  /** The thread has won a ticket with this step. */
  predicate Appends(s: State, s': State, t: nat, v: Element) {
    && s'.enqueued == s.enqueued + [v] && s'.producers == s.producers + [t] && s'.tail == s.tail + 1
    && t < |s'.threads| && s'.threads[t].EnqWrite? && s'.threads[t].ticket == s.tail
  }

  /** The thread has taken an element with this step. */
  predicate Takes(s: State, s': State, t: nat, v: Element) {
    && s'.dequeued == s.dequeued + [v] && s'.head == s.head + 1
    && t < |s'.threads| && s'.threads[t] == DeqReturn(Some(v))
  }

  /** Neither history has grown. */
  predicate NothingDone(s: State, s': State) {
    && s'.enqueued == s.enqueued && s'.producers == s.producers && s'.tail == s.tail
    && s'.dequeued == s.dequeued && s'.head == s.head
  }

  /** Before it has won a ticket for `v`. */
  predicate Trying(l: Thread, v: Element) {
    (l.EnqLoadTail? || l.EnqCheckFull? || l.EnqCasTail?) && l.v == v
  }

  /** The index of the next ticket is that of the head. */
  predicate FindsFull(s: State, t: nat) {
    && 0 < s.poolSize && t < |s.threads| && s.threads[t].EnqCheckFull?
    && (s.threads[t].oldTail + 1) % s.poolSize == s.head % s.poolSize
  }

  /** A step of an Enqueue that has no ticket yet goes on trying, gives up at a full check, or wins a ticket. */
  lemma TryingStep(s: State, t: nat, e: Event, v: Element)
    requires Inv(s) && t < |s.threads| && Trying(s.threads[t], v)
    ensures var s' := Step(s, t, e);
            && t < |s'.threads|
            && if Resting(s'.threads[t]) then s'.threads[t] == EnqReturn(false) && FindsFull(s, t) && NothingDone(s, s')
               else if Trying(s'.threads[t], v) then NothingDone(s, s')
               else Appends(s, s', t, v) && s'.threads[t].v == v
  {}

  /** A step of one that has its ticket goes on writing, or commits and answers true. */
  lemma OwningStep(s: State, t: nat, e: Event, v: Element, k: nat)
    requires Inv(s) && t < |s.threads| && Owns(s.threads[t], k) && s.threads[t].v == v
    ensures var s' := Step(s, t, e);
            && t < |s'.threads| && NothingDone(s, s')
            && if Resting(s'.threads[t]) then s'.threads[t] == EnqReturn(true) && s.commit == k && s'.commit == k + 1
               else Owns(s'.threads[t], k) && s'.threads[t].v == v
  {}

  /** Looking for an element. */
  predicate Looking(l: Thread) {
    l.DeqLoadHead? || l.DeqLoadCommit? || l.DeqCopy? || l.DeqCasHead?
  }

  /** The head is current and there is no committed element. */
  ghost predicate FindsEmpty(s: State, t: nat) {
    && t < |s.threads| && s.threads[t] == DeqLoadCommit(s.head) && Counters(s) && Queue(s) == []
  }

  /** A step of a Dequeue goes on looking, gives up on an empty queue, or takes the first element. */
  lemma LookingStep(s: State, t: nat, e: Event)
    requires Inv(s) && t < |s.threads| && Looking(s.threads[t])
    ensures var s' := Step(s, t, e);
            && t < |s'.threads|
            && if !Resting(s'.threads[t]) then Looking(s'.threads[t]) && NothingDone(s, s')
               else && s'.threads[t].DeqReturn?
                    && match s'.threads[t].result
                       case None => FindsEmpty(s, t) && NothingDone(s, s')
                       case Some(v) => Takes(s, s', t, v) && Queue(s) != [] && v == Queue(s)[0]
  {
    assert ThreadOk(s, t);
    if s.threads[t].DeqCasHead? && s.threads[t].oldHead == s.head {
      HeadCasTakes(s, t);
    }
  }

  /** A compare-exchange succeeds exactly if it finds what it expects and does not fail spuriously. */
  lemma CasExact(s: State, t: nat, spurious: bool)
    requires Inv(s) && t < |s.threads|
    ensures var l, s' := s.threads[t], Next(s, t, spurious);
            && (l.EnqCasTail? ==>
                  s'.tail == if !spurious && s.tail == l.oldTail then s.tail + 1 else s.tail)
            && (l.EnqCasCommit? ==>
                  s'.commit == if !spurious && s.commit == l.ticket then s.commit + 1 else s.commit)
            && (l.DeqCasHead? ==>
                  s'.head == if !spurious && s.head == l.oldHead then s.head + 1 else s.head)
  {}

  // ----- whole calls

  /** Thread `t` takes up the call with step `i`, is busy with it after that, and rests again at instant `j`. */
  predicate CallBetween(run: seq<State>, schedule: seq<Action>, t: nat, call: Event, i: nat, j: nat) {
    && i < j <= |schedule| < |run| && schedule[i] == Action(t, call)
    && t < |run[i].threads| && Resting(run[i].threads[t]) && !call.Advance?
    && (call.CallEnqueue? ==> |call.v| == run[i].width)
    && (forall m :: i < m < j ==> t < |run[m].threads| && !Resting(run[m].threads[t]))
    && t < |run[j].threads| && Resting(run[j].threads[t])
  }

  /** In none of the steps from `i` to before `j` other than `n` has thread `t` won a ticket or taken an element. */
  predicate NothingElse(run: seq<State>, schedule: seq<Action>, t: nat, i: nat, j: nat, n: int)
    requires j <= |schedule| < |run|
  {
    forall m :: i <= m < j && m != n && schedule[m].thread == t ==> NothingDone(run[m], run[m + 1])
  }

  /** How far an Enqueue has got at instant `m`: it is trying, or it has won its one ticket with step `n`. */
  ghost predicate EnqueueAt(run: seq<State>, schedule: seq<Action>, t: nat, v: Element, i: nat, m: nat, n: int)
    requires i < m <= |schedule| < |run|
  {
    && t < |run[m].threads| && NothingElse(run, schedule, t, i, m, n)
    && if n < 0 then Trying(run[m].threads[t], v)
       else && i < n < m && schedule[n].thread == t && Appends(run[n], run[n + 1], t, v)
            && Owns(run[m].threads[t], run[n].tail) && run[m].threads[t].v == v
  }

  lemma EnqueueBegins(run: seq<State>, schedule: seq<Action>, t: nat, v: Element, i: nat, j: nat)
    requires Execution(run, schedule) && CallBetween(run, schedule, t, CallEnqueue(v), i, j)
    ensures EnqueueAt(run, schedule, t, v, i, i + 1, -1) && i + 1 < j
  {
    StepAt(run, schedule, i);
  }

  lemma EnqueueGoesOn(run: seq<State>, schedule: seq<Action>, t: nat, v: Element, i: nat, m: nat, n: int)
    returns (n': int)
    requires Execution(run, schedule) && i < m < |schedule| && EnqueueAt(run, schedule, t, v, i, m, n)
    requires t < |run[m + 1].threads| && !Resting(run[m + 1].threads[t])
    ensures EnqueueAt(run, schedule, t, v, i, m + 1, n')
  {
    n' := n;
    var a := schedule[m];
    StepAt(run, schedule, m);
    OthersWait(run[m], a, t);
    if a.thread == t {
      if n < 0 {
        TryingStep(run[m], t, a.event, v);
        if !Trying(run[m + 1].threads[t], v) {
          n' := m;
        }
      } else {
        OwningStep(run[m], t, a.event, v, run[n].tail);
      }
    }
  }

  /**
   An Enqueue that has returned answers true exactly if it has won one ticket, with its own element, and by then
   that ticket is committed; it answers false exactly if it has won none, after a check that found the index of
   the next ticket to be that of the head. Either way it has done nothing else to the queue.
   */
  lemma EnqueueOutcome(run: seq<State>, schedule: seq<Action>, t: nat, v: Element, i: nat, j: nat)
    returns (n: int)
    requires Execution(run, schedule) && CallBetween(run, schedule, t, CallEnqueue(v), i, j)
    ensures run[j].threads[t].EnqReturn? && NothingElse(run, schedule, t, i, j, n)
    ensures run[j].threads[t].ok ==>
              && i < n < j && schedule[n].thread == t && Appends(run[n], run[n + 1], t, v)
              && run[n].tail < run[j].commit
    ensures !run[j].threads[t].ok ==> n < 0 && schedule[j - 1].thread == t && FindsFull(run[j - 1], t)
  {
    EnqueueBegins(run, schedule, t, v, i, j);
    n := -1;
    var m := i + 1;
    while m < j - 1
      invariant i < m < j && EnqueueAt(run, schedule, t, v, i, m, n)
    {
      n := EnqueueGoesOn(run, schedule, t, v, i, m, n);
      m := m + 1;
    }
    var a := schedule[m];
    StepAt(run, schedule, m);
    OthersWait(run[m], a, t);
    if n < 0 {
      TryingStep(run[m], t, a.event, v);
    } else {
      OwningStep(run[m], t, a.event, v, run[n].tail);
    }
  }

  /** A Dequeue at instant `m` is looking, and has done nothing. */
  ghost predicate DequeueAt(run: seq<State>, schedule: seq<Action>, t: nat, i: nat, m: nat)
    requires i < m <= |schedule| < |run|
  {
    t < |run[m].threads| && NothingElse(run, schedule, t, i, m, -1) && Looking(run[m].threads[t])
  }

  lemma DequeueGoesOn(run: seq<State>, schedule: seq<Action>, t: nat, i: nat, m: nat)
    requires Execution(run, schedule) && i < m < |schedule| && DequeueAt(run, schedule, t, i, m)
    requires t < |run[m + 1].threads| && !Resting(run[m + 1].threads[t])
    ensures DequeueAt(run, schedule, t, i, m + 1)
  {
    StepAt(run, schedule, m);
    OthersWait(run[m], schedule[m], t);
    if schedule[m].thread == t {
      LookingStep(run[m], t, schedule[m].event);
    }
  }

  lemma DequeueReturns(run: seq<State>, schedule: seq<Action>, t: nat, m: nat)
    requires Execution(run, schedule) && m < |schedule| && t < |run[m].threads| && Looking(run[m].threads[t])
    requires t < |run[m + 1].threads| && Resting(run[m + 1].threads[t])
    ensures run[m + 1].threads[t].DeqReturn? && schedule[m].thread == t && Counters(run[m])
    ensures match run[m + 1].threads[t].result
            case Some(v) => Takes(run[m], run[m + 1], t, v) && Queue(run[m]) != [] && v == Queue(run[m])[0]
            case None => FindsEmpty(run[m], t) && NothingDone(run[m], run[m + 1])
  {
    StepAt(run, schedule, m);
    OthersWait(run[m], schedule[m], t);
    LookingStep(run[m], t, schedule[m].event);
  }

  /**
   A Dequeue that has returned an element has taken it, the first of the queue, with its last step; one that has
   answered empty has taken none, and its last step found the queue empty. It has done nothing else to the queue.
   */
  lemma DequeueOutcome(run: seq<State>, schedule: seq<Action>, t: nat, i: nat, j: nat)
    requires Execution(run, schedule) && CallBetween(run, schedule, t, CallDequeue, i, j)
    ensures run[j].threads[t].DeqReturn? && schedule[j - 1].thread == t
    ensures NothingElse(run, schedule, t, i, j, j - 1) && Counters(run[j - 1])
    ensures match run[j].threads[t].result
            case Some(v) => Takes(run[j - 1], run[j], t, v) && Queue(run[j - 1]) != [] && v == Queue(run[j - 1])[0]
            case None => FindsEmpty(run[j - 1], t) && NothingDone(run[j - 1], run[j])
  {
    StepAt(run, schedule, i);
    var m := i + 1;
    while m < j - 1
      invariant i < m < j && DequeueAt(run, schedule, t, i, m)
    {
      DequeueGoesOn(run, schedule, t, i, m);
      m := m + 1;
    }
    DequeueReturns(run, schedule, t, m);
  }

  // ----- calls left alone

  /** At most so many steps separate a call that is left alone from its return. */
  function Remaining(s: State, t: nat): nat
    requires Shape(s) && t < |s.threads|
  {
    var w := s.width;
    assert ThreadShape(s.threads[t], w);
    match s.threads[t]
    case EnqLoadTail(_) => w + 5
    case EnqCheckFull(_, oldTail) => if oldTail == s.tail then w + 4 else w + 6
    case EnqCasTail(_, oldTail) => if oldTail == s.tail then w + 3 else w + 5
    case EnqWrite(_, _, i) => w - i + 2
    case EnqCasCommit(_, _) => 1
    case DeqLoadHead => w + 4
    case DeqLoadCommit(oldHead) => if oldHead == s.head then w + 3 else 2 * w + 6
    case DeqCopy(oldHead, copy) => if oldHead == s.head then w - |copy| + 2 else 2 * w - |copy| + 5
    case DeqCasHead(oldHead, _) => if oldHead == s.head then 1 else w + 4
    case _ => 0
  }

  /** Nobody else holds a ticket that is not committed yet. */
  predicate OthersCommitted(s: State, t: nat) {
    forall u :: 0 <= u < |s.threads| && u != t ==> !s.threads[u].EnqWrite? && !s.threads[u].EnqCasCommit?
  }

  /** However stale what it has read, each step of its own takes a call closer to its return. */
  lemma StepCloser(s: State, t: nat)
    requires Inv(s) && t < |s.threads| && !Resting(s.threads[t])
    requires s.threads[t].EnqCasCommit? ==> s.threads[t].ticket == s.commit
    ensures var s' := Next(s, t, false);
            |s'.threads| == |s.threads| && !s'.threads[t].Idle? && Remaining(s', t) < Remaining(s, t)
  {
    assert ThreadOk(s, t);
  }

  /** The ticket of the only thread that holds one is the next to be committed. */
  lemma OnlyOwner(s: State, t: nat)
    requires Inv(s) && t < |s.threads| && OthersCommitted(s, t) && s.threads[t].EnqCasCommit?
    ensures s.threads[t].ticket == s.commit
  {
    assert ThreadOk(s, t);
    assert OwnedByWinner(s, s.commit);
  }

  lemma AdvanceAlone(s: State, t: nat)
    requires Inv(s) && t < |s.threads| && !Resting(s.threads[t]) && OthersCommitted(s, t)
    ensures var s' := Next(s, t, false);
            && Inv(s') && |s'.threads| == |s.threads| && s'.width == s.width && !s'.threads[t].Idle?
            && OthersCommitted(s', t) && Remaining(s', t) < Remaining(s, t)
  {
    if s.threads[t].EnqCasCommit? {
      OnlyOwner(s, t);
    }
    StepKeepsInv(s, t, Advance(false));
    StepCloser(s, t);
    forall u | 0 <= u < |s.threads|
      ensures u != t ==> Next(s, t, false).threads[u] == s.threads[u]
    {
      OthersWait(s, Action(t, Advance(false)), u);
    }
    OthersWait(s, Action(t, Advance(false)), t);
  }

  /** A run in which only thread `t` takes steps, none of which starts a call or fails spuriously. */
  ghost predicate Alone(run: seq<State>, schedule: seq<Action>, t: nat) {
    Execution(run, schedule) && forall i :: 0 <= i < |schedule| ==> schedule[i] == Action(t, Advance(false))
  }

  lemma Prepended(s: State, t: nat, run: seq<State>, schedule: seq<Action>)
    requires Inv(s) && t < |s.threads| && Alone(run, schedule, t) && run[0] == Next(s, t, false)
    ensures Alone([s] + run, [Action(t, Advance(false))] + schedule, t)
  {
    Runs.Prepend<State, Action>(Inv, Follows, s, Action(t, Advance(false)), run, schedule);
  }

  lemma Finished(s: State, t: nat)
    requires Inv(s)
    ensures Alone([s], [], t)
  {
    assert Runs.HoldsAt<State>(Inv, [s], 0);
  }

  lemma RemainingBounded(s: State, t: nat)
    requires Inv(s) && t < |s.threads|
    ensures Remaining(s, t) <= 2 * s.width + 6
  {
    assert ThreadShape(s.threads[t], s.width);
  }

  /**
   From every reachable state in which nobody else holds a ticket a call left alone returns, however stale what it
   has read, within a number of steps set by the width of an element.
   */
  lemma {:induction false} CallReturnsAlone(s: State, t: nat) returns (run: seq<State>, schedule: seq<Action>)
    requires Inv(s) && t < |s.threads| && !s.threads[t].Idle? && OthersCommitted(s, t)
    ensures Alone(run, schedule, t) && run[0] == s && |schedule| <= Remaining(s, t) <= 2 * s.width + 6
    ensures var s' := run[|schedule|];
            t < |s'.threads| && (s'.threads[t].EnqReturn? || s'.threads[t].DeqReturn?)
    decreases Remaining(s, t)
  {
    RemainingBounded(s, t);
    if Resting(s.threads[t]) {
      run, schedule := [s], [];
      Finished(s, t);
    } else {
      AdvanceAlone(s, t);
      run, schedule := CallReturnsAlone(Next(s, t, false), t);
      Prepended(s, t, run, schedule);
      run, schedule := [s] + run, [Action(t, Advance(false))] + schedule;
    }
  }
}
