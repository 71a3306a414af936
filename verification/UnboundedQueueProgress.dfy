/** That calls on the linked queue of base/unbounded_queue.h get done, and what they do undisturbed. */
module UnboundedQueueProgress {
  import Runs
  import opened Wrappers
  import opened UnboundedQueueProtocol
  import opened UnboundedQueueProperties

  /** At most so many steps separate a call that is left alone from its return. */
  function Remaining(s: State, t: nat): nat
    requires t < |s.threads|
  {
    match s.threads[t]
    case EnqLoadTail(_) => 4
    case EnqCasTail(_, oldTail) => if oldTail == s.tail then 3 else 4
    case EnqLink(_, _, _) => 2
    case EnqCount => 1
    case DeqLoadHead => 5
    case DeqReadNext(oldHead, _) => if oldHead == s.head then 4 else 6
    case DeqCasHead(oldHead, _, _) => if oldHead == s.head then 3 else 5
    case DeqCopy(_, _) => 2
    case DeqCount(_) => 1
    case _ => 0
  }

  /** However stale what it has read, each step of its own takes a call closer to its return. */
  lemma StepCloser(s: State, t: nat)
    requires Inv(s) && t < |s.threads| && !Resting(s.threads[t])
    ensures var s' := ThreadStep(s, t);
            Inv(s') && |s'.threads| == |s.threads| && Remaining(s', t) < Remaining(s, t)
  {
    ThreadStepKeepsInv(s, t);
    if s.threads[t].DeqReadNext? {
      StaleHeadIsLinked(s, t);
    }
  }

  /** A head that others have moved on from has its link. */
  lemma StaleHeadIsLinked(s: State, t: nat)
    requires Inv(s) && t < |s.threads| && s.threads[t].DeqReadNext?
    ensures s.threads[t].oldHead < |s.nodes|
    ensures s.threads[t].oldHead != s.head ==> s.nodes[s.threads[t].oldHead].next.Some?
  {
    assert ThreadOk(s, t);
    assert PositionOk(s, s.threads[t].at);
  }

  /** A run in which only thread `t` takes steps, none of which starts a call. */
  ghost predicate Alone(run: seq<State>, schedule: seq<Action>, t: nat) {
    Execution(run, schedule) && forall i :: 0 <= i < |schedule| ==> schedule[i] == Action(t, Advance)
  }

  lemma Prepended(s: State, t: nat, run: seq<State>, schedule: seq<Action>)
    requires Shape(s) && t < |s.threads| && Alone(run, schedule, t) && run[0] == ThreadStep(s, t)
    ensures Alone([s] + run, [Action(t, Advance)] + schedule, t)
  {
    Runs.Prepend<State, Action>(Shape, Follows, s, Action(t, Advance), run, schedule);
  }

  lemma Finished(s: State, t: nat)
    requires Shape(s)
    ensures Alone([s], [], t)
  {
    assert Runs.HoldsAt<State>(Shape, [s], 0);
  }

  /** From every reachable state a call left alone returns within six steps, though others have stopped midway. */
  lemma {:induction false} CallReturnsAlone(s: State, t: nat) returns (run: seq<State>, schedule: seq<Action>)
    requires Inv(s) && t < |s.threads|
    ensures Alone(run, schedule, t) && run[0] == s && |schedule| <= Remaining(s, t) <= 6
    ensures t < |run[|schedule|].threads| && Resting(run[|schedule|].threads[t])
    decreases Remaining(s, t)
  {
    if Resting(s.threads[t]) {
      run, schedule := [s], [];
      Finished(s, t);
    } else {
      StepCloser(s, t);
      run, schedule := CallReturnsAlone(ThreadStep(s, t), t);
      Prepended(s, t, run, schedule);
      run, schedule := [s] + run, [Action(t, Advance)] + schedule;
    }
  }

  // ----- whole calls

  /** A run of thread `t` alone from one state to another. */
  ghost predicate Reaches(run: seq<State>, schedule: seq<Action>, t: nat, s: State, s': State) {
    Alone(run, schedule, t) && run[0] == s && run[|schedule|] == s'
  }

  lemma OneStep(s: State, t: nat, next: State, run: seq<State>, schedule: seq<Action>, s': State)
    returns (longer: seq<State>, more: seq<Action>)
    requires Inv(s) && t < |s.threads| && next == ThreadStep(s, t) && Reaches(run, schedule, t, next, s')
    ensures Reaches(longer, more, t, s, s')
  {
    Prepended(s, t, run, schedule);
    longer, more := [s] + run, [Action(t, Advance)] + schedule;
  }

  /** The end of an Enqueue whose node is linked. */
  function Counted(s: State, t: nat): State
    requires t < |s.threads|
  {
    Set(s, t, Idle).(size := s.size + 1)
  }

  lemma CountAlone(s: State, t: nat) returns (run: seq<State>, schedule: seq<Action>)
    requires Inv(s) && t < |s.threads| && s.threads[t].EnqCount?
    ensures Inv(Counted(s, t)) && Reaches(run, schedule, t, s, Counted(s, t))
  {
    ThreadStepKeepsInv(s, t);
    Finished(Counted(s, t), t);
    run, schedule := OneStep(s, t, Counted(s, t), [Counted(s, t)], [], Counted(s, t));
  }

  function WithLink(s: State, oldTail: nat, node: nat): State
    requires oldTail < |s.nodes|
  {
    s.(nodes := s.nodes[oldTail := s.nodes[oldTail].(next := Some(node))])
  }

  lemma LinkAlone(s: State, t: nat) returns (run: seq<State>, schedule: seq<Action>)
    requires Inv(s) && t < |s.threads| && s.threads[t].EnqLink? && s.threads[t].oldTail < |s.nodes|
    ensures var s' := Counted(WithLink(s, s.threads[t].oldTail, s.threads[t].node), t);
            Inv(s') && Reaches(run, schedule, t, s, s')
  {
    var EnqLink(node, oldTail, at) := s.threads[t];
    var next := Set(WithLink(s, oldTail, node), t, EnqCount);
    ThreadStepKeepsInv(s, t);
    run, schedule := CountAlone(next, t);
    assert next.threads[t := Idle] == s.threads[t := Idle];
    run, schedule := OneStep(s, t, next, run, schedule, Counted(WithLink(s, oldTail, node), t));
  }

  /** The queue after the node has been appended by thread `t`. */
  function Appended(s: State, t: nat, node: nat): State
    requires node < |s.nodes|
  {
    s.(tail := node, order := s.order + [node], producers := s.producers + [t],
       enqueued := s.enqueued + [s.nodes[node].data])
  }

  function Enqueued(s: State, t: nat, node: nat): State
    requires node < |s.nodes| && s.tail < |s.nodes| && t < |s.threads|
  {
    Counted(WithLink(Appended(s, t, node), s.tail, node), t)
  }

  lemma CasTailAlone(s: State, t: nat, node: nat) returns (run: seq<State>, schedule: seq<Action>)
    requires Inv(s) && t < |s.threads| && s.threads[t] == EnqCasTail(node, s.tail) && node < |s.nodes|
    ensures Inv(Enqueued(s, t, node)) && Reaches(run, schedule, t, s, Enqueued(s, t, node))
  {
    var next := Set(Appended(s, t, node), t, EnqLink(node, s.tail, |s.order| - 1));
    ThreadStepKeepsInv(s, t);
    run, schedule := LinkAlone(next, t);
    assert next.threads[t := Idle] == s.threads[t := Idle];
    run, schedule := OneStep(s, t, next, run, schedule, Enqueued(s, t, node));
  }

  lemma LoadTailAlone(s: State, t: nat, node: nat) returns (run: seq<State>, schedule: seq<Action>)
    requires Inv(s) && t < |s.threads| && s.threads[t] == EnqLoadTail(node) && node < |s.nodes|
    ensures Inv(Enqueued(s, t, node)) && Reaches(run, schedule, t, s, Enqueued(s, t, node))
  {
    var next := Set(s, t, EnqCasTail(node, s.tail));
    ThreadStepKeepsInv(s, t);
    run, schedule := CasTailAlone(next, t, node);
    assert next.threads[t := Idle] == s.threads[t := Idle];
    run, schedule := OneStep(s, t, next, run, schedule, Enqueued(s, t, node));
  }

  /** Undisturbed, Enqueue puts its element at the end of the queue, linked to the one before, and counts it. */
  lemma EnqueueAlone(s: State, t: nat, v: Element) returns (run: seq<State>, schedule: seq<Action>)
    requires Inv(s) && t < |s.threads| && Resting(s.threads[t])
    ensures run != [] && var s' := run[|run| - 1];
            && Reaches(run, schedule, t, Step(s, Action(t, CallEnqueue(v))), s') && Inv(s')
            && s'.threads == s.threads[t := Idle] && s'.size == s.size + 1
            && Queue(s') == Queue(s) + [v] && s'.received == s.received
            && |s.order| == |s'.order| - 1 && Linked(s', |s.order| - 1)
  {
    var node, s1 := |s.nodes|, StartEnqueue(s, t, v);
    StartEnqueueKeepsInv(s, t, v);
    run, schedule := LoadTailAlone(s1, t, node);
    assert s1.threads[t := Idle] == s.threads[t := Idle];
    assert s1.nodes[node] == Node(v, None) && s1.order == s.order;
  }

  // ----- Dequeue

  /** The end of a Dequeue that has copied its element. */
  function Discounted(s: State, t: nat, v: Element): State
    requires t < |s.threads|
  {
    Set(s, t, DeqReturn(Some(v))).(size := s.size - 1)
  }

  lemma DiscountAlone(s: State, t: nat, v: Element) returns (run: seq<State>, schedule: seq<Action>)
    requires Inv(s) && t < |s.threads| && s.threads[t] == DeqCount(v)
    ensures Inv(Discounted(s, t, v)) && Reaches(run, schedule, t, s, Discounted(s, t, v))
  {
    ThreadStepKeepsInv(s, t);
    Finished(Discounted(s, t, v), t);
    run, schedule := OneStep(s, t, Discounted(s, t, v), [Discounted(s, t, v)], [], Discounted(s, t, v));
  }

  function Received(s: State, k: nat, v: Element): State
    requires k < |s.received|
  {
    s.(received := s.received[k := Some(v)])
  }

  lemma CopyAlone(s: State, t: nat, next: nat, ticket: nat) returns (run: seq<State>, schedule: seq<Action>)
    requires Inv(s) && t < |s.threads| && s.threads[t] == DeqCopy(next, ticket)
    requires 1 <= ticket <= |s.received| && next < |s.nodes|
    ensures var v := s.nodes[next].data; var s' := Discounted(Received(s, ticket - 1, v), t, v);
            Inv(s') && Reaches(run, schedule, t, s, s')
  {
    var v := s.nodes[next].data;
    var s1 := Set(Received(s, ticket - 1, v), t, DeqCount(v));
    ThreadStepKeepsInv(s, t);
    run, schedule := DiscountAlone(s1, t, v);
    assert s1.threads[t := DeqReturn(Some(v))] == s.threads[t := DeqReturn(Some(v))];
    run, schedule := OneStep(s, t, s1, run, schedule, Discounted(Received(s, ticket - 1, v), t, v));
  }

  /** The queue after its first element has gone to thread `t`. */
  function Dequeued(s: State, t: nat, next: nat, v: Element): State
    requires t < |s.threads|
  {
    Discounted(s.(head := next, consumers := s.consumers + [t], received := s.received + [Some(v)]), t, v)
  }

  lemma CasHeadAlone(s: State, t: nat, next: nat, at: nat) returns (run: seq<State>, schedule: seq<Action>)
    requires Inv(s) && t < |s.threads| && s.threads[t] == DeqCasHead(s.head, next, at) && next < |s.nodes|
    ensures var s' := Dequeued(s, t, next, s.nodes[next].data); Inv(s') && Reaches(run, schedule, t, s, s')
  {
    var v, k := s.nodes[next].data, |s.received|;
    var s1 := Set(s, t, DeqCopy(next, k + 1)).(
      head := next, consumers := s.consumers + [t], received := s.received + [None]);
    ThreadStepKeepsInv(s, t);
    run, schedule := CopyAlone(s1, t, next, k + 1);
    assert s1.threads[t := DeqReturn(Some(v))] == s.threads[t := DeqReturn(Some(v))];
    assert s1.received[k := Some(v)] == s.received + [Some(v)];
    run, schedule := OneStep(s, t, s1, run, schedule, Dequeued(s, t, next, v));
  }

  /** What the first element is, if it can be reached. */
  lemma FirstElement(s: State)
    requires Inv(s)
    ensures |s.received| < |s.order| && |s.received| <= |s.enqueued|
    ensures Linked(s, |s.received|) ==>
              var next := s.nodes[s.head].next.value;
              Queue(s) != [] && next < |s.nodes| && s.nodes[next].data == Queue(s)[0]
  {
    assert PositionOk(s, |s.received|);
  }

  /** What a Dequeue left alone makes of the queue. */
  ghost predicate Taken(s: State, s': State, t: nat) {
    && Inv(s) && Inv(s') && t < |s.threads| == |s'.threads|
    && if Linked(s, |s.received|)
       then && Queue(s) != [] && s'.threads == s.threads[t := DeqReturn(Some(Queue(s)[0]))]
            && Queue(s') == Queue(s)[1..] && s'.enqueued == s.enqueued && s'.size == s.size - 1
       else s' == Set(s, t, DeqReturn(None))
  }

  lemma FollowAlone(s: State, t: nat, at: nat) returns (run: seq<State>, schedule: seq<Action>)
    requires Inv(s) && t < |s.threads| && s.threads[t] == DeqReadNext(s.head, at) && s.nodes[s.head].next.Some?
    ensures var next := s.nodes[s.head].next.value;
            && next < |s.nodes|
            && var s' := Dequeued(s, t, next, s.nodes[next].data);
               run != [] && run[|run| - 1] == s' && Inv(s') && Reaches(run, schedule, t, s, s')
  {
    var next := s.nodes[s.head].next.value;
    var v, s1 := s.nodes[next].data, Set(s, t, DeqCasHead(s.head, next, at));
    ThreadStepKeepsInv(s, t);
    run, schedule := CasHeadAlone(s1, t, next, at);
    assert s1.threads[t := DeqReturn(Some(v))] == s.threads[t := DeqReturn(Some(v))];
    run, schedule := OneStep(s, t, s1, run, schedule, Dequeued(s, t, next, v));
  }

  lemma ReadNextAlone(s: State, t: nat, at: nat) returns (run: seq<State>, schedule: seq<Action>)
    requires Inv(s) && t < |s.threads| && s.threads[t] == DeqReadNext(s.head, at)
    ensures run != [] && Reaches(run, schedule, t, s, run[|run| - 1]) && Taken(s, run[|run| - 1], t)
  {
    ThreadStepKeepsInv(s, t);
    FirstElement(s);
    if Linked(s, |s.received|) {
      run, schedule := FollowAlone(s, t, at);
      assert Queue(s) == [Queue(s)[0]] + Queue(s)[1..];
    } else {
      var s1 := Set(s, t, DeqReturn(None));
      Finished(s1, t);
      run, schedule := OneStep(s, t, s1, [s1], [], s1);
    }
  }

  /**
   Undisturbed, Dequeue takes the first element, and answers false exactly if it cannot be reached: if the queue
   is empty, or the enqueuer of its first element has stopped before linking it.
   */
  lemma DequeueAlone(s: State, t: nat) returns (run: seq<State>, schedule: seq<Action>)
    requires Inv(s) && t < |s.threads| && Resting(s.threads[t])
    ensures run != []
            && Reaches(run, schedule, t, Step(s, Action(t, CallDequeue)), run[|run| - 1]) && Taken(s, run[|run| - 1], t)
    ensures (forall u :: 0 <= u < |s.threads| ==> !s.threads[u].EnqLink?) ==>
              (run[|run| - 1].threads[t] == DeqReturn(None) <==> Queue(s) == [])
  {
    var s1 := Set(s, t, DeqLoadHead);
    StepKeepsInv(s, Action(t, CallDequeue));
    var s2 := Set(s1, t, DeqReadNext(s.head, |s.received|));
    ThreadStepKeepsInv(s1, t);
    run, schedule := ReadNextAlone(s2, t, |s.received|);
    TakenFrom(s, s2, run[|run| - 1], t);
    run, schedule := OneStep(s1, t, s2, run, schedule, run[|run| - 1]);
    NoGapAtHead(s);
  }

  lemma NoGapAtHead(s: State)
    requires Inv(s)
    ensures |s.received| < |s.order| && |s.received| <= |s.enqueued|
    ensures (forall u :: 0 <= u < |s.threads| ==> !s.threads[u].EnqLink?) ==>
              (Linked(s, |s.received|) <==> Queue(s) != [])
  {
    FirstElement(s);
    if Queue(s) != [] {
      GapHasOneOwner(s, |s.received|);
    }
  }

  lemma TakenFrom(s: State, s2: State, s': State, t: nat)
    requires Inv(s) && t < |s.threads| == |s2.threads| && s2 == Set(s, t, s2.threads[t]) && Taken(s2, s', t)
    ensures Taken(s, s', t)
  {}
}
