/** What a whole call of Enqueue or Dequeue on the linked queue of base/unbounded_queue.h has done when it returns. */
module UnboundedQueueCalls {
  import Runs
  import opened Wrappers
  import opened UnboundedQueueProtocol
  import opened UnboundedQueueProperties

  // ----- single steps

  /** A step leaves the other threads alone. */
  lemma OthersWait(s: State, a: Action, t: nat)
    requires Shape(s) && t < |s.threads|
    ensures var s' := Step(s, a);
            |s'.threads| == |s.threads| && (a.thread != t ==> s'.threads[t] == s.threads[t])
  {}

  /** The node of `v` has been appended by this step. */
  predicate Appends(s: State, s': State, t: nat, v: Element) {
    && s.order != [] && s'.enqueued == s.enqueued + [v] && s'.producers == s.producers + [t]
    && |s'.order| == |s.order| + 1 && s'.received == s.received && s'.size == s.size
  }

  /** The first element has gone to thread `t` with this step. */
  predicate Takes(s: State, s': State, t: nat) {
    && s'.enqueued == s.enqueued && s'.consumers == s.consumers + [t] && s'.received == s.received + [None]
    && s'.size == s.size
  }

  /** Neither end of the queue has moved. */
  predicate EndsStay(s: State, s': State) {
    && s'.enqueued == s.enqueued && s'.producers == s.producers && s'.order == s.order && s'.tail == s.tail
    && s'.consumers == s.consumers && |s'.received| == |s.received| && s'.head == s.head
  }

  /** Before the tail CAS: the node is not in the queue yet. */
  ghost predicate Trying(s: State, t: nat, v: Element) {
    && t < |s.threads| && Private(s.threads[t])
    && s.threads[t].node < |s.nodes| && s.nodes[s.threads[t].node].data == v
  }

  /** After the tail CAS: with the link to write from position `at`, or with that link written and the count left. */
  ghost predicate Appended(s: State, t: nat, at: nat) {
    && t < |s.threads| && at < |s.order| && s.order[at] < |s.nodes|
    && if s.threads[t].EnqLink? then s.threads[t].at == at else s.threads[t].EnqCount? && Linked(s, at)
  }

  lemma EnqueueBegins(s: State, t: nat, v: Element)
    requires Inv(s) && t < |s.threads| && Resting(s.threads[t])
    ensures Trying(Step(s, Action(t, CallEnqueue(v))), t, v)
  {}

  /** An Enqueue does not return before it has won the tail CAS, with a node that carries its own element. */
  lemma TryingStep(s: State, t: nat, e: Event, v: Element)
    requires Inv(s) && Trying(s, t, v)
    ensures var s' := Step(s, Action(t, e));
            && t < |s'.threads| && !Resting(s'.threads[t])
            && (if WinsTail(s, Action(t, e)) then Appends(s, s', t, v) && Appended(s', t, |s.order| - 1)
                else Trying(s', t, v) && EndsStay(s, s') && s'.size == s.size)
  {
    assert ThreadOk(s, t);
  }

  /** Nor before it has written its link and counted its element. */
  lemma AppendedStep(s: State, t: nat, e: Event, at: nat)
    requires Inv(s) && Appended(s, t, at)
    ensures var s' := Step(s, Action(t, e));
            && t < |s'.threads| && EndsStay(s, s')
            && (if Resting(s'.threads[t])
                then s'.threads[t] == Idle && s'.size == s.size + 1 && s.threads[t].EnqCount? && Linked(s, at)
                else Appended(s', t, at) && s'.size == s.size)
  {
    assert ThreadOk(s, t);
  }

  /** A link that has been written stays, and so does what an enqueuer is looking at. */
  lemma OthersKeep(s: State, a: Action, t: nat, v: Element, at: nat)
    requires Inv(s) && a.thread != t
    ensures Trying(s, t, v) ==> Trying(Step(s, a), t, v)
    ensures Appended(s, t, at) ==> Appended(Step(s, a), t, at)
  {
    if t < |s.threads| {
      OthersWait(s, a, t);
      NodesStay(s, a);
    }
  }

  lemma NodesStay(s: State, a: Action)
    requires Inv(s)
    ensures var s' := Step(s, a);
            && s.order <= s'.order && |s.nodes| <= |s'.nodes|
            && forall i :: 0 <= i < |s.nodes| ==>
                 s'.nodes[i].data == s.nodes[i].data && (s.nodes[i].next.Some? ==> s'.nodes[i].next.Some?)
  {}

  /** Before the head CAS. */
  predicate Looking(x: Thread) {
    x.DeqLoadHead? || x.DeqReadNext? || x.DeqCasHead?
  }

  /** After the head CAS: about to copy the element of `ticket`, or with the copy made and the count left. */
  ghost predicate Taken(s: State, t: nat, ticket: nat) {
    && t < |s.threads| && 1 <= ticket <= |s.received| <= |s.enqueued|
    && if s.threads[t].DeqCopy? then s.threads[t].ticket == ticket
       else s.threads[t] == DeqCount(s.enqueued[ticket - 1]) && s.received[ticket - 1] == Some(s.enqueued[ticket - 1])
  }

  /** The link out of the current head is missing. */
  ghost predicate FindsNoLink(s: State, t: nat) {
    && t < |s.threads| && s.threads[t].DeqReadNext? && s.threads[t].oldHead == s.head < |s.nodes|
    && s.nodes[s.head].next == None
  }

  /** A Dequeue returns before its head CAS only at a missing link, and with nothing. */
  lemma LookingStep(s: State, t: nat, e: Event)
    requires Inv(s) && t < |s.threads| && Looking(s.threads[t])
    ensures var s' := Step(s, Action(t, e));
            && t < |s'.threads|
            && (if WinsHead(s, Action(t, e)) then Takes(s, s', t) && Taken(s', t, |s'.received|)
                else EndsStay(s, s') && s'.size == s.size
                     && if Resting(s'.threads[t]) then s'.threads[t] == DeqReturn(None) && FindsNoLink(s, t)
                        else Looking(s'.threads[t]))
  {
    assert ThreadOk(s, t);
    if WinsHead(s, Action(t, e)) {
      HeadPosition(s, t);
    } else if s.threads[t].DeqReadNext? {
      EmptyAnswer(s, t);
    }
  }

  /** After it, it returns with the element of its ticket, copied and counted. */
  lemma TakenStep(s: State, t: nat, e: Event, ticket: nat)
    requires Inv(s) && Taken(s, t, ticket)
    ensures var s' := Step(s, Action(t, e));
            && t < |s'.threads| && EndsStay(s, s')
            && (if Resting(s'.threads[t])
                then && s'.threads[t] == DeqReturn(Some(s.enqueued[ticket - 1])) && s'.size == s.size - 1
                     && s'.received[ticket - 1] == Some(s.enqueued[ticket - 1])
                else Taken(s', t, ticket) && s'.size == s.size)
  {
    ConsumerReturnsItsElement(s, t);
    assert ThreadOk(s, t);
  }

  /** What has been copied out for a ticket stays recorded. */
  lemma ReceivedStay(s: State, a: Action)
    requires Inv(s)
    ensures var s' := Step(s, a);
            && s.enqueued <= s'.enqueued && |s.received| <= |s'.received| <= |s'.enqueued|
            && forall k :: 0 <= k < |s.received| && s.received[k].Some? ==> s'.received[k] == s.received[k]
  {
    if a.thread < |s.threads| {
      assert ThreadOk(s, a.thread);
      if WinsHead(s, a) {
        HeadPosition(s, a.thread);
      }
    }
  }

  lemma OthersKeepTaken(s: State, a: Action, t: nat, ticket: nat)
    requires Inv(s) && a.thread != t && Taken(s, t, ticket)
    ensures Taken(Step(s, a), t, ticket)
  {
    OthersWait(s, a, t);
    ReceivedStay(s, a);
  }

  // ----- whole calls

  lemma StepAt(run: seq<State>, schedule: seq<Action>, i: nat)
    requires Execution(run, schedule) && Inv(run[0]) && i < |schedule|
    ensures Inv(run[i]) && Inv(run[i + 1]) && run[i + 1] == Step(run[i], schedule[i])
  {
    InvAt(run, schedule, i);
    InvAt(run, schedule, i + 1);
    assert Runs.StepsTo<State, Action>(Follows, run, schedule, i);
  }

  /** Thread `t` takes up the call with step `i`, is busy with it after that, and rests again at instant `j`. */
  predicate CallBetween(run: seq<State>, schedule: seq<Action>, t: nat, call: Event, i: nat, j: nat) {
    && i < j <= |schedule| < |run| && schedule[i] == Action(t, call) && !call.Advance?
    && t < |run[i].threads| && Resting(run[i].threads[t])
    && (forall m :: i < m < j ==> t < |run[m].threads| && !Resting(run[m].threads[t]))
    && t < |run[j].threads| && Resting(run[j].threads[t])
  }

  /** In none of the steps from `i` to before `j` other than `n` has thread `t` moved an end of the queue. */
  predicate NothingElse(run: seq<State>, schedule: seq<Action>, t: nat, i: nat, j: nat, n: int)
    requires j <= |schedule| < |run|
  {
    forall m :: i <= m < j && m != n && schedule[m].thread == t ==> EndsStay(run[m], run[m + 1])
  }

  /** Step `n` is the tail CAS of thread `t` that appends `v`. */
  ghost predicate AppendsAt(run: seq<State>, schedule: seq<Action>, t: nat, v: Element, n: nat)
    requires n < |schedule| < |run|
  {
    schedule[n].thread == t && WinsTail(run[n], schedule[n]) && Appends(run[n], run[n + 1], t, v)
  }

  ghost predicate EnqueueAt(run: seq<State>, schedule: seq<Action>, t: nat, v: Element, i: nat, m: nat, n: int)
    requires i < m <= |schedule| < |run|
  {
    && NothingElse(run, schedule, t, i, m, n)
    && if n < 0 then Trying(run[m], t, v)
       else i < n < m && AppendsAt(run, schedule, t, v, n) && Appended(run[m], t, |run[n].order| - 1)
  }

  lemma EnqueueGoesOn(run: seq<State>, schedule: seq<Action>, t: nat, v: Element, i: nat, m: nat, n: int)
    returns (n': int)
    requires Execution(run, schedule) && Inv(run[0])
    requires i < m < |schedule| && EnqueueAt(run, schedule, t, v, i, m, n)
    requires t < |run[m + 1].threads| && !Resting(run[m + 1].threads[t])
    ensures EnqueueAt(run, schedule, t, v, i, m + 1, n')
  {
    n' := n;
    var a := schedule[m];
    StepAt(run, schedule, m);
    if a.thread != t {
      OthersKeep(run[m], a, t, v, if n < 0 then 0 else |run[n].order| - 1);
    } else if n < 0 {
      TryingStep(run[m], t, a.event, v);
      if WinsTail(run[m], a) {
        n' := m;
      }
    } else {
      AppendedStep(run[m], t, a.event, |run[n].order| - 1);
    }
  }

  lemma EnqueueReturns(run: seq<State>, schedule: seq<Action>, t: nat, v: Element, i: nat, m: nat, n: int)
    requires Execution(run, schedule) && Inv(run[0])
    requires i < m < |schedule| && EnqueueAt(run, schedule, t, v, i, m, n)
    requires t < |run[m + 1].threads| && Resting(run[m + 1].threads[t])
    ensures i < n < m && AppendsAt(run, schedule, t, v, n) && NothingElse(run, schedule, t, i, m + 1, n)
    ensures schedule[m].thread == t && run[m + 1].threads[t] == Idle && run[m + 1].size == run[m].size + 1
    ensures var at := |run[n].order| - 1;
            at < |run[m].order| && run[m].order[at] < |run[m].nodes| && Linked(run[m], at)
  {
    var a := schedule[m];
    StepAt(run, schedule, m);
    OthersWait(run[m], a, t);
    if n < 0 {
      if a.thread == t { TryingStep(run[m], t, a.event, v); }
    } else if a.thread == t {
      AppendedStep(run[m], t, a.event, |run[n].order| - 1);
    }
  }

  /**
   An Enqueue that has returned has won the tail CAS once, with a node that carries its own element, has linked
   that node to the one before, and has counted it with its last step; it has done nothing else to the queue.
   */
  lemma EnqueueOutcome(run: seq<State>, schedule: seq<Action>, t: nat, v: Element, i: nat, j: nat) returns (n: nat)
    requires Execution(run, schedule) && Inv(run[0]) && CallBetween(run, schedule, t, CallEnqueue(v), i, j)
    ensures i < n < j - 1 && AppendsAt(run, schedule, t, v, n) && NothingElse(run, schedule, t, i, j, n)
    ensures var at := |run[n].order| - 1;
            at < |run[j - 1].order| && run[j - 1].order[at] < |run[j - 1].nodes| && Linked(run[j - 1], at)
    ensures schedule[j - 1].thread == t && run[j].threads[t] == Idle && run[j].size == run[j - 1].size + 1
  {
    StepAt(run, schedule, i);
    EnqueueBegins(run[i], t, v);
    var m, won := i + 1, -1;
    while m < j - 1
      invariant i < m < j && EnqueueAt(run, schedule, t, v, i, m, won)
    {
      won := EnqueueGoesOn(run, schedule, t, v, i, m, won);
      m := m + 1;
    }
    EnqueueReturns(run, schedule, t, v, i, m, won);
    n := won;
  }

  /** Step `n` is the head CAS of thread `t`. */
  ghost predicate TakesAt(run: seq<State>, schedule: seq<Action>, t: nat, n: nat)
    requires n < |schedule| < |run|
  {
    schedule[n].thread == t && WinsHead(run[n], schedule[n]) && Takes(run[n], run[n + 1], t)
  }

  ghost predicate DequeueAt(run: seq<State>, schedule: seq<Action>, t: nat, i: nat, m: nat, n: int)
    requires i < m <= |schedule| < |run|
  {
    && t < |run[m].threads| && NothingElse(run, schedule, t, i, m, n)
    && if n < 0 then Looking(run[m].threads[t])
       else i < n < m && TakesAt(run, schedule, t, n) && Taken(run[m], t, |run[n].received| + 1)
  }

  lemma DequeueGoesOn(run: seq<State>, schedule: seq<Action>, t: nat, i: nat, m: nat, n: int) returns (n': int)
    requires Execution(run, schedule) && Inv(run[0])
    requires i < m < |schedule| && DequeueAt(run, schedule, t, i, m, n)
    requires t < |run[m + 1].threads| && !Resting(run[m + 1].threads[t])
    ensures DequeueAt(run, schedule, t, i, m + 1, n')
  {
    n' := n;
    var a := schedule[m];
    StepAt(run, schedule, m);
    if a.thread != t {
      OthersWait(run[m], a, t);
      if n >= 0 { OthersKeepTaken(run[m], a, t, |run[n].received| + 1); }
    } else if n < 0 {
      LookingStep(run[m], t, a.event);
      if WinsHead(run[m], a) {
        n' := m;
      }
    } else {
      TakenStep(run[m], t, a.event, |run[n].received| + 1);
    }
  }

  lemma DequeueReturns(run: seq<State>, schedule: seq<Action>, t: nat, i: nat, m: nat, n: int)
    requires Execution(run, schedule) && Inv(run[0])
    requires i < m < |schedule| && DequeueAt(run, schedule, t, i, m, n)
    requires t < |run[m + 1].threads| && Resting(run[m + 1].threads[t])
    ensures schedule[m].thread == t && run[m + 1].threads[t].DeqReturn? && NothingElse(run, schedule, t, i, m + 1, n)
    ensures n >= 0 ==> && i < n < m && TakesAt(run, schedule, t, n)
                       && run[m + 1].size == run[m].size - 1 && |run[n].received| < |run[m].enqueued|
                       && run[m + 1].threads[t].result == Some(run[m].enqueued[|run[n].received|])
    ensures n < 0 ==> run[m + 1].threads[t].result == None && FindsNoLink(run[m], t) && run[m + 1].size == run[m].size
  {
    var a := schedule[m];
    StepAt(run, schedule, m);
    OthersWait(run[m], a, t);
    if n < 0 {
      LookingStep(run[m], t, a.event);
    } else {
      TakenStep(run[m], t, a.event, |run[n].received| + 1);
    }
  }

  /** An element keeps its place among those enqueued. */
  lemma {:induction false} EnqueuedStays(run: seq<State>, schedule: seq<Action>, i: nat, j: nat)
    requires Execution(run, schedule) && Inv(run[0]) && i <= j < |run|
    ensures run[i].enqueued <= run[j].enqueued
    decreases j
  {
    if i < j {
      EnqueuedStays(run, schedule, i, j - 1);
      EnqueuedStep(run, schedule, j - 1);
    }
  }

  lemma EnqueuedStep(run: seq<State>, schedule: seq<Action>, i: nat)
    requires Execution(run, schedule) && Inv(run[0]) && i < |schedule|
    ensures run[i].enqueued <= run[i + 1].enqueued
  {
    StepAt(run, schedule, i);
    ReceivedStay(run[i], schedule[i]);
  }

  /**
   A Dequeue that has returned an element has won the head CAS once and returns the element that was the first of
   the queue then; one that has returned none has won none, and its last step found the link out of the current
   head missing. It has done nothing else to the queue, and has counted what it took.
   */
  lemma DequeueOutcome(run: seq<State>, schedule: seq<Action>, t: nat, i: nat, j: nat) returns (n: int)
    requires Execution(run, schedule) && Inv(run[0]) && CallBetween(run, schedule, t, CallDequeue, i, j)
    ensures run[j].threads[t].DeqReturn? && schedule[j - 1].thread == t && NothingElse(run, schedule, t, i, j, n)
    ensures match run[j].threads[t].result
            case Some(v) => && i < n < j - 1 && TakesAt(run, schedule, t, n) && run[j].size == run[j - 1].size - 1
                            && |run[n].received| < |run[n].enqueued| && v == Queue(run[n])[0]
            case None => n < 0 && FindsNoLink(run[j - 1], t) && run[j].size == run[j - 1].size
  {
    StepAt(run, schedule, i);
    var m := i + 1;
    n := -1;
    while m < j - 1
      invariant i < m < j && DequeueAt(run, schedule, t, i, m, n)
    {
      n := DequeueGoesOn(run, schedule, t, i, m, n);
      m := m + 1;
    }
    DequeueReturns(run, schedule, t, i, m, n);
    if n >= 0 {
      StepAt(run, schedule, n);
      EnqueuedStays(run, schedule, n, m);
      FirstOfQueue(run[n], schedule[n]);
    }
  }

  lemma FirstOfQueue(s: State, a: Action)
    requires Inv(s) && WinsHead(s, a)
    ensures |s.received| < |s.enqueued| && Queue(s) != [] && Queue(s)[0] == s.enqueued[|s.received|]
  {
    StepRefinesFifo(s, a);
  }
}
