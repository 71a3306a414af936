/** What every run of the linked queue of base/unbounded_queue.h promises, and what it does not. */
module UnboundedQueueProperties {
  import Runs
  import opened Wrappers
  import opened Counting
  import opened UnboundedQueueProtocol

  /** What has been enqueued and not dequeued yet. */
  function Queue(s: State): seq<Element>
    requires |s.received| <= |s.enqueued|
  {
    s.enqueued[|s.received|..]
  }

  predicate WinsTail(s: State, a: Action) {
    && a.event.Advance? && a.thread < |s.threads|
    && s.threads[a.thread].EnqCasTail? && s.threads[a.thread].oldTail == s.tail
  }

  predicate WinsHead(s: State, a: Action) {
    && a.event.Advance? && a.thread < |s.threads|
    && s.threads[a.thread].DeqCasHead? && s.threads[a.thread].oldHead == s.head
  }

  /**
   Every step refines a first-in-first-out queue: winning the tail CAS appends the element of the winner's
   node, winning the head CAS removes the first element, whose node the winner then copies from, and no other
   step changes the queue.
   */
  lemma StepRefinesFifo(s: State, a: Action)
    requires Inv(s)
    ensures var s' := Step(s, a);
            && |s.received| <= |s.enqueued| && |s'.received| <= |s'.enqueued|
            && (WinsTail(s, a) ==>
                  var node := s.threads[a.thread].node;
                  node < |s.nodes| && Queue(s') == Queue(s) + [s.nodes[node].data])
            && (WinsHead(s, a) ==>
                  var next := s.threads[a.thread].next;
                  Queue(s) != [] && Queue(s') == Queue(s)[1..] && next < |s.nodes| && s.nodes[next].data == Queue(s)[0])
            && (!WinsTail(s, a) && !WinsHead(s, a) ==> Queue(s') == Queue(s))
  {
    StepKeepsInv(s, a);
    if WinsHead(s, a) {
      HeadPosition(s, a.thread);
      assert PositionOk(s, |s.received|);
    }
  }

  /** The winner of the `k`-th head CAS, counted from zero, holds the node of the `k`-th element. */
  predicate AboutToCopy(s: State, k: nat)
    requires k < |s.consumers| && k < |s.enqueued|
  {
    var c := s.consumers[k];
    c < |s.threads| && s.threads[c].DeqCopy? && s.threads[c].ticket == k + 1
    && s.threads[c].next < |s.nodes| && s.nodes[s.threads[c].next].data == s.enqueued[k]
  }

  /**
   In every run the k-th successful head CAS delivers the element of the k-th successful tail CAS: what has
   been copied out for it is that element, and as long as nothing has, its winner is about to copy it.
   */
  lemma FirstInFirstOut(threads: nat, schedule: seq<Action>, k: nat)
    ensures var s := Run(Init(threads), schedule);
            && |s.received| <= |s.enqueued|
            && (k < |s.received| ==>
                  && k < |s.consumers|
                  && if s.received[k].Some? then s.received[k].value == s.enqueued[k] else AboutToCopy(s, k))
  {
    InitInv(threads);
    RunKeepsInv(Init(threads), schedule);
    var s := Run(Init(threads), schedule);
    if k < |s.received| {
      assert PositionOk(s, k);
      if s.received[k].None? {
        assert ThreadOk(s, s.consumers[k]);
      }
    }
  }

  /** A consumer returns the very element it copied, and it copied that of its own ticket. */
  lemma ConsumerReturnsItsElement(s: State, t: nat)
    requires Inv(s) && t < |s.threads|
    ensures var s' := ThreadStep(s, t);
            && (s.threads[t].DeqCopy? ==>
                  var k := s.threads[t].ticket - 1;
                  && k < |s.received| <= |s.enqueued| && s.consumers[k] == t
                  && s'.threads[t] == DeqCount(s.enqueued[k])
                  && s'.received == s.received[k := Some(s.enqueued[k])])
            && (s.threads[t].DeqCount? ==>
                  s'.threads[t] == DeqReturn(Some(s.threads[t].copied)) && s'.received == s.received)
  {
    assert ThreadOk(s, t);
    if s.threads[t].DeqCopy? {
      assert PositionOk(s, s.threads[t].ticket - 1);
    }
  }

  /** The node `n` links on from a node. */
  function Follow(nodes: seq<Node>, from: nat, n: nat): Option<nat> {
    if n == 0 then Some(from)
    else
      match Follow(nodes, from, n - 1)
      case None => None
      case Some(id) => if id < |nodes| then nodes[id].next else None
  }

  /** There is no missing link among the `n` nodes from position `k` on. */
  predicate NoGap(s: State, k: nat, n: nat)
    requires OrderOk(s)
  {
    k + n < |s.order| && forall i :: k <= i < k + n ==> Linked(s, i)
  }

  /**
   Links from the head visit the nodes in tail order and stop at the first missing link: an unlinked gap only
   hides the nodes after it, and no node is met twice.
   */
  lemma {:induction false} LinksFollowOrder(s: State, n: nat)
    requires Inv(s)
    ensures var h := |s.received|;
            Follow(s.nodes, s.head, n) == if NoGap(s, h, n) then Some(s.order[h + n]) else None
  {
    var h := |s.received|;
    if n > 0 {
      LinksFollowOrder(s, n - 1);
      if NoGap(s, h, n - 1) {
        assert PositionOk(s, h + n - 1);
      }
    }
  }

  /** A missing link has exactly one owner, the enqueuer that won the tail CAS there and is about to write it. */
  lemma GapHasOneOwner(s: State, k: nat)
    requires Inv(s) && k < |s.producers|
    ensures !Linked(s, k) <==>
            s.producers[k] < |s.threads| && s.threads[s.producers[k]].EnqLink? && s.threads[s.producers[k]].at == k
    ensures forall t :: 0 <= t < |s.threads| && s.threads[t].EnqLink? && s.threads[t].at == k ==> t == s.producers[k]
  {
    assert PositionOk(s, k);
    forall t | 0 <= t < |s.threads| && s.threads[t].EnqLink? && s.threads[t].at == k
      ensures t == s.producers[k] && !Linked(s, k)
    {
      assert ThreadOk(s, t);
    }
  }

  /**
   size_ as an integer is the number of increments less that of decrements so far; it is the length of the
   queue exactly when as many enqueuers as dequeuers are between their CAS and their update of size_.
   */
  lemma SizeIsDifference(threads: nat, schedule: seq<Action>)
    ensures var s := Run(Init(threads), schedule);
            && |s.received| <= |s.enqueued|
            && s.size == (|s.enqueued| - Uncounteds(s)) - (|s.received| - Undiscounteds(s))
            && (s.size == |Queue(s)| <==> Uncounteds(s) == Undiscounteds(s))
            && ((forall t :: 0 <= t < |s.threads| ==> Resting(s.threads[t])) ==> s.size == |Queue(s)|)
  {
    InitInv(threads);
    RunKeepsInv(Init(threads), schedule);
    var s := Run(Init(threads), schedule);
    CountNone(s.threads, x => Uncounted(x));
    CountNone(s.threads, x => Undiscounted(x));
  }

  /**
   Dequeue answers false exactly if, when it reads the link, the node it read it from is still the head and
   that link is missing: the queue is empty or the enqueuer of its first element has not linked it yet.
   */
  lemma EmptyAnswer(s: State, t: nat)
    requires Inv(s) && t < |s.threads| && s.threads[t].DeqReadNext?
    ensures ThreadStep(s, t).threads[t] == DeqReturn(None) <==>
            s.threads[t].oldHead == s.head && !Linked(s, |s.received|)
    ensures !Linked(s, |s.received|) <==>
            || Queue(s) == []
            || exists u :: 0 <= u < |s.threads| && s.threads[u].EnqLink? && s.threads[u].at == |s.received|
  {
    assert ThreadOk(s, t);
    var h := |s.received|;
    assert PositionOk(s, h);
    OtherNodes(s, h);
    if s.threads[t].at < h {
      assert PositionOk(s, s.threads[t].at);
    }
    if Queue(s) != [] {
      GapHasOneOwner(s, h);
    }
  }

  // ----- two runs

  ghost predicate Follows(s: State, a: Action, s': State) {
    Shape(s) && s' == Step(s, a)
  }

  ghost predicate Execution(run: seq<State>, schedule: seq<Action>) {
    Runs.Execution<State, Action>(Shape, Follows, run, schedule)
  }

  lemma {:induction false} InvAt(run: seq<State>, schedule: seq<Action>, i: nat)
    requires Execution(run, schedule) && i < |run| && Inv(run[0])
    ensures Inv(run[i])
    decreases i
  {
    if i > 0 {
      InvAt(run, schedule, i - 1);
      assert Runs.StepsTo<State, Action>(Follows, run, schedule, i - 1);
      StepKeepsInv(run[i - 1], schedule[i - 1]);
    }
  }

  /** Winning the head CAS is the only way to move the head, and moves it on in the order of the tail CASes. */
  lemma HeadMoves(s: State, a: Action)
    requires Inv(s)
    ensures var s' := Step(s, a);
            && |s'.received| == |s.received| + B2N(WinsHead(s, a)) && s.order <= s'.order
            && (!WinsHead(s, a) ==> s'.head == s.head)
  {}

  lemma HeadMovesAt(run: seq<State>, schedule: seq<Action>, h: nat)
    requires Execution(run, schedule) && Inv(run[0]) && h < |schedule|
    ensures |run[h + 1].received| == |run[h].received| + B2N(WinsHead(run[h], schedule[h]))
    ensures run[h].order <= run[h + 1].order
    ensures !WinsHead(run[h], schedule[h]) ==> run[h + 1].head == run[h].head
    ensures WinsHead(run[h], schedule[h]) ==>
              var t := schedule[h].thread; t < |run[h + 1].threads| && run[h + 1].threads[t].DeqCopy?
  {
    InvAt(run, schedule, h);
    assert Runs.StepsTo<State, Action>(Follows, run, schedule, h);
    HeadMoves(run[h], schedule[h]);
  }

  /** Some head CAS has succeeded between the two instants, and not one of thread `t`. */
  predicate OvertakenBetween(run: seq<State>, schedule: seq<Action>, t: nat, i: nat, j: nat)
    requires i <= j <= |schedule| < |run|
  {
    exists k :: i <= k < j && WinsHead(run[k], schedule[k]) && schedule[k].thread != t
  }

  /** Thread `t` has read the head at instant `i` and has neither read it again nor taken it since. */
  predicate ReadHeadAt(run: seq<State>, t: nat, i: nat, j: nat)
    requires i <= j < |run|
  {
    forall k :: i <= k <= j ==>
      t < |run[k].threads| && (run[k].threads[t].DeqReadNext? || run[k].threads[t].DeqCasHead?)
      && run[k].threads[t].oldHead == run[i].head
  }

  lemma {:induction false} HeadSince(run: seq<State>, schedule: seq<Action>, t: nat, i: nat, j: nat)
    requires Execution(run, schedule) && Inv(run[0]) && i <= j < |run| && ReadHeadAt(run, t, i, j)
    ensures |run[i].received| <= |run[j].received| && run[i].order <= run[j].order
    ensures OvertakenBetween(run, schedule, t, i, j) <==> |run[i].received| < |run[j].received|
    ensures |run[i].received| == |run[j].received| ==> run[j].head == run[i].head
    decreases j
  {
    if i < j {
      var h := j - 1;
      HeadSince(run, schedule, t, i, h);
      HeadMovesAt(run, schedule, h);
      OvertakenStep(run, schedule, t, i, j);
      assert WinsHead(run[h], schedule[h]) ==> schedule[h].thread != t;
    }
  }

  lemma OvertakenStep(run: seq<State>, schedule: seq<Action>, t: nat, i: nat, j: nat)
    requires i < j <= |schedule| < |run|
    ensures OvertakenBetween(run, schedule, t, i, j) <==>
            || OvertakenBetween(run, schedule, t, i, j - 1)
            || (WinsHead(run[j - 1], schedule[j - 1]) && schedule[j - 1].thread != t)
  {}

  /** A head CAS is bound to fail exactly if another thread has dequeued since this one read the head. */
  lemma FailedHeadCasMeansProgress(run: seq<State>, schedule: seq<Action>, t: nat, i: nat, j: nat)
    requires Execution(run, schedule) && Inv(run[0]) && i <= j < |run| && ReadHeadAt(run, t, i, j)
    requires run[j].threads[t].DeqCasHead?
    ensures run[j].head != run[j].threads[t].oldHead <==> OvertakenBetween(run, schedule, t, i, j)
  {
    HeadSince(run, schedule, t, i, j);
    InvAt(run, schedule, i);
    InvAt(run, schedule, j);
    assert run[j].order[|run[i].received|] == run[i].head;
  }

  lemma {:induction false} ExecutionIsRun(run: seq<State>, schedule: seq<Action>)
    requires Execution(run, schedule)
    ensures Shape(run[0]) && run[|schedule|] == Run(run[0], schedule)
    decreases |schedule|
  {
    assert Runs.HoldsAt<State>(Shape, run, 0);
    if schedule != [] {
      var n := |schedule| - 1;
      assert Runs.StepsTo<State, Action>(Follows, run, schedule, n);
      Runs.Front<State, Action>(Shape, Follows, run, schedule, n);
      ExecutionIsRun(run[..n + 1], schedule[..n]);
    }
  }

  lemma Extend(run: seq<State>, schedule: seq<Action>, t: nat, e: Event, s: State, s': State)
    returns (longer: seq<State>, after: seq<Action>)
    requires Execution(run, schedule) && run[|schedule|] == s && Shape(s) && Step(s, Action(t, e)) == s'
    ensures Execution(longer, after) && longer[0] == run[0] && longer[|after|] == s'
  {
    Runs.Append<State, Action>(Shape, Follows, run, schedule, Action(t, e), s');
    longer, after := run + [s'], schedule + [Action(t, e)];
  }

  /** A queue of one element whose producer, thread 0, has linked it and not counted it. */
  function Uncounted1(v: Element, x: Thread): State {
    State([Node([], Some(1)), Node(v, None)], 0, 1, 0, [EnqCount, x], [0, 1], [0], [v], [], [])
  }

  lemma ProducerBeforeCounting(v: Element) returns (run: seq<State>, schedule: seq<Action>)
    ensures Execution(run, schedule) && run[0] == Init(2) && run[|schedule|] == Uncounted1(v, Idle)
  {
    var nodes := [Node([], None), Node(v, None)];
    var s0 := State([Node([], None)], 0, 0, 0, [Idle, Idle], [0], [], [], [], []);
    var s1 := State(nodes, 0, 0, 0, [EnqLoadTail(1), Idle], [0], [], [], [], []);
    var s2 := s1.(threads := [EnqCasTail(1, 0), Idle]);
    var s3 := State(nodes, 0, 1, 0, [EnqLink(1, 0, 0), Idle], [0, 1], [0], [v], [], []);
    assert s0 == Init(2);
    run, schedule := [s0], [];
    assert Runs.HoldsAt<State>(Shape, run, 0);
    run, schedule := Extend(run, schedule, 0, CallEnqueue(v), s0, s1);
    run, schedule := Extend(run, schedule, 0, Advance, s1, s2);
    run, schedule := Extend(run, schedule, 0, Advance, s2, s3);
    assert nodes[0 := nodes[0].(next := Some(1))] == [Node([], Some(1)), Node(v, None)];
    run, schedule := Extend(run, schedule, 0, Advance, s3, Uncounted1(v, Idle));
  }

  /**
   Size() can come out as -1, which is 2^64 - 1 in the source: a consumer may take an element and count it
   before the producer of the element has counted it.
   */
  lemma SizeCanBeNegative(v: Element) returns (schedule: seq<Action>)
    ensures Run(Init(2), schedule).size == -1
  {
    var run;
    run, schedule := ProducerBeforeCounting(v);
    run, schedule := ConsumerOvertakes(v, run, schedule);
    ExecutionIsRun(run, schedule);
  }

  lemma ConsumerOvertakes(v: Element, first: seq<State>, start: seq<Action>)
    returns (run: seq<State>, schedule: seq<Action>)
    requires Execution(first, start) && first[|start|] == Uncounted1(v, Idle)
    ensures Execution(run, schedule) && run[0] == first[0] && run[|schedule|].size == -1
  {
    var u0, u1, u2, u3 := Uncounted1(v, Idle), Uncounted1(v, DeqLoadHead),
                          Uncounted1(v, DeqReadNext(0, 0)), Uncounted1(v, DeqCasHead(0, 1, 0));
    var u4 := u3.(threads := [EnqCount, DeqCopy(1, 1)], head := 1, consumers := [1], received := [None]);
    var u5 := u4.(threads := [EnqCount, DeqCount(v)], received := [Some(v)]);
    run, schedule := Extend(first, start, 1, CallDequeue, u0, u1);
    run, schedule := Extend(run, schedule, 1, Advance, u1, u2);
    run, schedule := Extend(run, schedule, 1, Advance, u2, u3);
    run, schedule := Extend(run, schedule, 1, Advance, u3, u4);
    run, schedule := Extend(run, schedule, 1, Advance, u4, u5);
    run, schedule := Extend(run, schedule, 1, Advance, u5, u5.(threads := [EnqCount, DeqReturn(Some(v))], size := -1));
  }

  /** Thread 0 has won the tail CAS and not linked its node; the others have not begun. */
  function Unlinked(v: Element, nodes: seq<Node>, x: Thread): State {
    State([Node([], None), Node(v, None)] + nodes, 0, 1, 0, [EnqLink(1, 0, 0), x, Idle], [0, 1], [0], [v], [], [])
  }

  /** A second element behind the gap that the first one has left, counted or not. */
  function Behind(v: Element, w: Element, size: int, x: Thread, y: Thread): State {
    State([Node([], None), Node(v, Some(2)), Node(w, None)], 0, 2, size, [EnqLink(1, 0, 0), x, y],
          [0, 1, 2], [0, 1], [v, w], [], [])
  }

  lemma ProducerBeforeLinking(v: Element) returns (run: seq<State>, schedule: seq<Action>)
    ensures Execution(run, schedule) && run[0] == Init(3) && run[|schedule|] == Unlinked(v, [], Idle)
  {
    var nodes := [Node([], None), Node(v, None)];
    var s0 := State([Node([], None)], 0, 0, 0, [Idle, Idle, Idle], [0], [], [], [], []);
    var s1 := State(nodes, 0, 0, 0, [EnqLoadTail(1), Idle, Idle], [0], [], [], [], []);
    var s2 := s1.(threads := [EnqCasTail(1, 0), Idle, Idle]);
    assert s0 == Init(3);
    run, schedule := [s0], [];
    assert Runs.HoldsAt<State>(Shape, run, 0);
    run, schedule := Extend(run, schedule, 0, CallEnqueue(v), s0, s1);
    run, schedule := Extend(run, schedule, 0, Advance, s1, s2);
    run, schedule := Extend(run, schedule, 0, Advance, s2, Unlinked(v, [], Idle));
  }

  lemma EnqueueBehindGap(v: Element, w: Element, first: seq<State>, start: seq<Action>)
    returns (run: seq<State>, schedule: seq<Action>)
    requires Execution(first, start) && first[|start|] == Unlinked(v, [], Idle)
    ensures Execution(run, schedule) && run[0] == first[0] && run[|schedule|] == Behind(v, w, 1, Idle, Idle)
  {
    var node := [Node(w, None)];
    var u0, u1, u2 := Unlinked(v, [], Idle), Unlinked(v, node, EnqLoadTail(2)), Unlinked(v, node, EnqCasTail(2, 1));
    var u3 := Behind(v, w, 0, EnqLink(2, 1, 1), Idle).(nodes := u2.nodes);
    run, schedule := Extend(first, start, 1, CallEnqueue(w), u0, u1);
    run, schedule := Extend(run, schedule, 1, Advance, u1, u2);
    run, schedule := Extend(run, schedule, 1, Advance, u2, u3);
    run, schedule := Extend(run, schedule, 1, Advance, u3, Behind(v, w, 0, EnqCount, Idle));
    run, schedule := Extend(run, schedule, 1, Advance, Behind(v, w, 0, EnqCount, Idle), Behind(v, w, 1, Idle, Idle));
  }

  lemma DequeueBeforeGap(v: Element, w: Element, first: seq<State>, start: seq<Action>)
    returns (run: seq<State>, schedule: seq<Action>)
    requires Execution(first, start) && first[|start|] == Behind(v, w, 1, Idle, Idle)
    ensures Execution(run, schedule) && run[0] == first[0] && run[|schedule|] == Behind(v, w, 1, Idle, DeqReturn(None))
  {
    var u0, u1 := Behind(v, w, 1, Idle, Idle), Behind(v, w, 1, Idle, DeqLoadHead);
    var u2 := Behind(v, w, 1, Idle, DeqReadNext(0, 0));
    run, schedule := Extend(first, start, 2, CallDequeue, u0, u1);
    run, schedule := Extend(run, schedule, 2, Advance, u1, u2);
    run, schedule := Extend(run, schedule, 2, Advance, u2, Behind(v, w, 1, Idle, DeqReturn(None)));
  }

  /**
   Dequeue can answer false although an Enqueue has returned and nothing has been dequeued: a producer that has
   won the tail CAS and not linked its node yet hides everything behind it.
   */
  lemma EmptyAnswerCanBeWrong(v: Element, w: Element) returns (schedule: seq<Action>)
    ensures var s := Run(Init(3), schedule);
            && s.threads == [EnqLink(1, 0, 0), Idle, DeqReturn(None)]
            && s.producers == [0, 1] && s.enqueued == [v, w] && s.received == [] && s.size == 1
  {
    var run;
    run, schedule := ProducerBeforeLinking(v);
    run, schedule := EnqueueBehindGap(v, w, run, schedule);
    run, schedule := DequeueBeforeGap(v, w, run, schedule);
    ExecutionIsRun(run, schedule);
  }
}
