/**
 The linked queue of base/unbounded_queue.h as a step system: any number of threads, each repeatedly calling
 Enqueue or Dequeue, one access to shared memory per step, in any order. Nodes are never reclaimed, so the
 reference counts are left out.
 */
module UnboundedQueueProtocol {
  import opened Wrappers
  import opened Counting

  type Element = seq<int>

  datatype Node = Node(data: Element, next: Option<nat>)

  /**
   Where a thread is in the code, with its local variables. `at` is the position of a node in the order of
   tail CASes and `ticket` that of a dequeued element; the code does not know them.
   */
  datatype Thread =
    | Idle
    | EnqLoadTail(node: nat)
    | EnqCasTail(node: nat, oldTail: nat)
    | EnqLink(node: nat, oldTail: nat, at: nat)
    | EnqCount
    | DeqLoadHead
    | DeqReadNext(oldHead: nat, at: nat)
    | DeqCasHead(oldHead: nat, next: nat, at: nat)
    | DeqCopy(next: nat, ticket: nat)
    | DeqCount(copied: Element)
    | DeqReturn(result: Option<Element>)

  /**
   The heap of nodes, the shared fields and the thread table, and histories: the nodes in the order of tail
   CASes with the thread that won each, how many head CASes have succeeded with the thread that won each, and
   what those threads have copied out so far.
   */
  datatype State = State(
    nodes: seq<Node>, head: nat, tail: nat, size: int, threads: seq<Thread>,
    order: seq<nat>, producers: seq<nat>, enqueued: seq<Element>,
    consumers: seq<nat>, received: seq<Option<Element>>)

  datatype Event = CallEnqueue(v: Element) | CallDequeue | Advance

  datatype Action = Action(thread: nat, event: Event)

  /** Reset(): the first node is a dummy. */
  function Init(threads: nat): (s: State)
    ensures Shape(s)
  {
    State([Node([], None)], 0, 0, 0, seq(threads, i => Idle), [0], [], [], [], [])
  }

  function Resting(t: Thread): bool {
    t.Idle? || t.DeqReturn?
  }

  function Set(s: State, t: nat, x: Thread): State
    requires t < |s.threads|
  {
    s.(threads := s.threads[t := x])
  }

  /** The new node is the caller's own. */
  function StartEnqueue(s: State, t: nat, v: Element): State
    requires t < |s.threads|
  {
    Set(s, t, EnqLoadTail(|s.nodes|)).(nodes := s.nodes + [Node(v, None)])
  }

  /** What makes every step well defined, whatever the scheduler does: every pointer is one to a node. */
  predicate Shape(s: State) {
    && s.order != [] && s.head < |s.nodes| && s.tail < |s.nodes|
    && (forall i :: 0 <= i < |s.nodes| && s.nodes[i].next.Some? ==> s.nodes[i].next.value < |s.nodes|)
    && (forall t :: 0 <= t < |s.threads| ==> ThreadShape(s, s.threads[t]))
  }

  predicate ThreadShape(s: State, x: Thread) {
    match x
    case EnqLoadTail(node) => node < |s.nodes|
    case EnqCasTail(node, oldTail) => node < |s.nodes| && oldTail < |s.nodes|
    case EnqLink(node, oldTail, _) => node < |s.nodes| && oldTail < |s.nodes|
    case DeqReadNext(oldHead, _) => oldHead < |s.nodes|
    case DeqCasHead(_, next, _) => next < |s.nodes|
    case DeqCopy(next, ticket) => next < |s.nodes| && 1 <= ticket <= |s.received|
    case _ => true
  }

  /** One step. An action that cannot be taken leaves everything as it is. */
  function Step(s: State, a: Action): (s': State)
    requires Shape(s)
    ensures Shape(s')
  {
    if a.thread >= |s.threads| then s
    else
      match a.event
      case CallEnqueue(v) =>
        if Resting(s.threads[a.thread])
        then StartEnqueue(s, a.thread, v) else s
      case CallDequeue =>
        if Resting(s.threads[a.thread]) then Set(s, a.thread, DeqLoadHead) else s
      case Advance => ThreadStep(s, a.thread)
  }

  function ThreadStep(s: State, t: nat): (s': State)
    requires Shape(s) && t < |s.threads|
    ensures Shape(s')
  {
    match s.threads[t]
    case EnqLoadTail(node) => Set(s, t, EnqCasTail(node, s.tail))
    case EnqCasTail(node, oldTail) =>
      if s.tail == oldTail then
        Set(s, t, EnqLink(node, oldTail, |s.order| - 1)).(
          tail := node, order := s.order + [node], producers := s.producers + [t],
          enqueued := s.enqueued + [s.nodes[node].data])
      else Set(s, t, EnqCasTail(node, s.tail))
    case EnqLink(node, oldTail, _) =>
      Set(s, t, EnqCount).(nodes := s.nodes[oldTail := s.nodes[oldTail].(next := Some(node))])
    case EnqCount => Set(s, t, Idle).(size := s.size + 1)
    case DeqLoadHead => Set(s, t, DeqReadNext(s.head, |s.received|))
    case DeqReadNext(oldHead, at) =>
      (match s.nodes[oldHead].next
       case None => Set(s, t, DeqReturn(None))
       case Some(next) => Set(s, t, DeqCasHead(oldHead, next, at)))
    case DeqCasHead(oldHead, next, _) =>
      if s.head == oldHead then
        Set(s, t, DeqCopy(next, |s.received| + 1)).(
          head := next, consumers := s.consumers + [t], received := s.received + [None])
      else Set(s, t, DeqReadNext(s.head, |s.received|))
    case DeqCopy(next, ticket) =>
      Set(s, t, DeqCount(s.nodes[next].data)).(received := s.received[ticket - 1 := Some(s.nodes[next].data)])
    case DeqCount(copied) => Set(s, t, DeqReturn(Some(copied))).(size := s.size - 1)
    case _ => s
  }

  // ----- what holds in every run

  /** The part of an enqueuer between its tail CAS and the end of the call. */
  function Uncounted(x: Thread): bool {
    x.EnqLink? || x.EnqCount?
  }

  /** The part of a dequeuer between its head CAS and its decrement. */
  function Undiscounted(x: Thread): bool {
    x.DeqCopy? || x.DeqCount?
  }

  function Uncounteds(s: State): nat {
    Count(s.threads, x => Uncounted(x))
  }

  function Undiscounteds(s: State): nat {
    Count(s.threads, x => Undiscounted(x))
  }

  predicate Linked(s: State, k: nat)
    requires k < |s.order| && s.order[k] < |s.nodes|
  {
    s.nodes[s.order[k]].next.Some?
  }

  predicate OrderOk(s: State) {
    && s.order != [] && |s.producers| == |s.enqueued| == |s.order| - 1
    && |s.consumers| == |s.received| < |s.order|
    && (forall k :: 0 <= k < |s.order| ==> s.order[k] < |s.nodes|)
    && (forall j, k :: 0 <= j < k < |s.order| ==> s.order[j] != s.order[k])
    && s.head == s.order[|s.received|] && s.tail == s.order[|s.order| - 1]
  }

  /** The node's link leads to the next node in tail order or is still missing; before the head it is there. */
  predicate LinkOk(s: State, k: nat)
    requires OrderOk(s) && k < |s.order|
  {
    && (Linked(s, k) ==> k + 1 < |s.order| && s.nodes[s.order[k]].next == Some(s.order[k + 1]))
    && (k < |s.received| ==> Linked(s, k))
  }

  /** A missing link is about to be written by the thread that won the tail CAS there. */
  predicate GapOk(s: State, k: nat)
    requires OrderOk(s) && k < |s.producers|
  {
    !Linked(s, k) ==>
      var p := s.producers[k];
      p < |s.threads| && s.threads[p].EnqLink? && s.threads[p].at == k
  }

  predicate DataOk(s: State, k: nat)
    requires OrderOk(s) && k < |s.enqueued|
  {
    s.nodes[s.order[k + 1]].data == s.enqueued[k]
  }

  /** What a consumer has copied out is what was enqueued; what it has not, it is about to copy. */
  predicate ReceivedOk(s: State, k: nat)
    requires OrderOk(s) && k < |s.received|
  {
    match s.received[k]
    case Some(v) => v == s.enqueued[k]
    case None =>
      var c := s.consumers[k];
      c < |s.threads| && s.threads[c].DeqCopy? && s.threads[c].ticket == k + 1
  }

  /** A node that its enqueuer has not appended yet belongs to it alone. */
  predicate Private(x: Thread) {
    x.EnqLoadTail? || x.EnqCasTail?
  }

  predicate ThreadOk(s: State, t: nat)
    requires OrderOk(s) && t < |s.threads|
  {
    match s.threads[t]
    case EnqLoadTail(node) => PrivateOk(s, node)
    case EnqCasTail(node, _) => PrivateOk(s, node)
    case EnqLink(node, oldTail, at) =>
      && at < |s.producers| && s.producers[at] == t
      && s.order[at] == oldTail && s.order[at + 1] == node && !Linked(s, at)
    case DeqReadNext(oldHead, at) => at <= |s.received| && s.order[at] == oldHead
    case DeqCasHead(oldHead, next, at) =>
      at <= |s.received| && s.order[at] == oldHead && s.nodes[oldHead].next == Some(next)
    case DeqCopy(next, ticket) =>
      && 1 <= ticket <= |s.received| && s.consumers[ticket - 1] == t
      && s.order[ticket] == next && s.received[ticket - 1] == None
    case _ => true
  }

  predicate PrivateOk(s: State, node: nat) {
    node < |s.nodes| && node !in s.order && s.nodes[node].next == None
  }

  predicate Apart(s: State, t: nat, u: nat)
    requires t < |s.threads| && u < |s.threads|
  {
    t != u && Private(s.threads[t]) && Private(s.threads[u]) ==> s.threads[t].node != s.threads[u].node
  }

  predicate SizeOk(s: State) {
    s.size == |s.enqueued| - Uncounteds(s) - (|s.received| - Undiscounteds(s))
  }

  predicate PositionOk(s: State, k: nat)
    requires OrderOk(s) && k < |s.order|
  {
    && LinkOk(s, k) && (k < |s.producers| ==> GapOk(s, k) && DataOk(s, k)) && (k < |s.received| ==> ReceivedOk(s, k))
  }

  ghost predicate Inv(s: State) {
    && Shape(s) && OrderOk(s)
    && (forall k :: 0 <= k < |s.order| ==> PositionOk(s, k))
    && (forall t :: 0 <= t < |s.threads| ==> ThreadOk(s, t))
    && (forall t, u :: 0 <= t < |s.threads| && 0 <= u < |s.threads| ==> Apart(s, t, u))
    && SizeOk(s)
  }

  lemma InitInv(threads: nat)
    ensures Inv(Init(threads))
  {
    var s := Init(threads);
    CountNone(s.threads, x => Uncounted(x));
    CountNone(s.threads, x => Undiscounted(x));
  }

  /** A step of one thread changes the size and the counts of threads in step with the histories. */
  lemma SizeKept(s: State, s': State, t: nat)
    requires SizeOk(s) && t < |s.threads| == |s'.threads| && s'.threads == s.threads[t := s'.threads[t]]
    requires var x, x' := s.threads[t], s'.threads[t];
             s'.size - s.size == |s'.enqueued| - |s.enqueued| - (|s'.received| - |s.received|)
                                 + (if Uncounted(x) then 1 else 0) - (if Uncounted(x') then 1 else 0)
                                 - (if Undiscounted(x) then 1 else 0) + (if Undiscounted(x') then 1 else 0)
    ensures SizeOk(s')
  {
    CountUpdate(s.threads, x => Uncounted(x), t, s'.threads[t]);
    CountUpdate(s.threads, x => Undiscounted(x), t, s'.threads[t]);
  }

  /** A step that changes one thread and no more: its new state must be in order and have no new node. */
  lemma OneThread(s: State, s': State, t: nat)
    requires Inv(s) && Shape(s') && t < |s.threads| == |s'.threads| && s' == Set(s, t, s'.threads[t]).(size := s'.size)
    requires !s.threads[t].EnqLink? && !s.threads[t].DeqCopy? && !s'.threads[t].EnqLink? && !s'.threads[t].DeqCopy?
    requires Private(s'.threads[t]) ==> Private(s.threads[t]) && s'.threads[t].node == s.threads[t].node
    requires ThreadOk(s', t) && SizeOk(s')
    ensures Inv(s')
  {
    forall u | 0 <= u < |s'.threads|
      ensures ThreadOk(s', u)
    {
      assert ThreadOk(s, u);
    }
    forall u, v | 0 <= u < |s'.threads| && 0 <= v < |s'.threads|
      ensures Apart(s', u, v)
    {
      assert Apart(s, u, v);
    }
    forall k | 0 <= k < |s'.order|
      ensures PositionOk(s', k)
    {
      assert PositionOk(s, k);
    }
  }

  lemma StartEnqueueThread(s: State, t: nat, v: Element, u: nat)
    requires Inv(s) && t < |s.threads| && u < |s.threads| && Resting(s.threads[t])
    requires OrderOk(StartEnqueue(s, t, v))
    ensures ThreadOk(StartEnqueue(s, t, v), u)
  {
    assert ThreadOk(s, t) && ThreadOk(s, u) && Apart(s, t, u);
  }

  lemma StartEnqueuePosition(s: State, t: nat, v: Element, k: nat)
    requires Inv(s) && t < |s.threads| && Resting(s.threads[t])
    requires OrderOk(StartEnqueue(s, t, v)) && k < |(StartEnqueue(s, t, v)).order|
    ensures PositionOk(StartEnqueue(s, t, v), k)
  {
    assert ThreadOk(s, t);
    assert PositionOk(s, k);
  }

  lemma StartEnqueueKeepsInv(s: State, t: nat, v: Element)
    requires Inv(s) && t < |s.threads| && Resting(s.threads[t])
    ensures Inv(StartEnqueue(s, t, v))
  {
    var s' := StartEnqueue(s, t, v);
    assert OrderOk(s') && SizeOk(s') by {
      assert ThreadOk(s, t);
      SizeKept(s, s', t);
    }
    forall u | 0 <= u < |s'.threads|
      ensures ThreadOk(s', u)
    {
      StartEnqueueThread(s, t, v, u);
    }
    forall u, w | 0 <= u < |s'.threads| && 0 <= w < |s'.threads|
      ensures Apart(s', u, w)
    {
      assert Apart(s, u, w) && ThreadOk(s, u) && ThreadOk(s, w);
    }
    forall k | 0 <= k < |s'.order|
      ensures PositionOk(s', k)
    {
      StartEnqueuePosition(s, t, v, k);
    }
  }

  lemma CasTailThread(s: State, t: nat, u: nat)
    requires Inv(s) && t < |s.threads| && u < |s.threads| && s.threads[t].EnqCasTail? && s.tail == s.threads[t].oldTail
    requires OrderOk(ThreadStep(s, t))
    ensures ThreadOk(ThreadStep(s, t), u)
  {
    assert ThreadOk(s, t) && ThreadOk(s, u) && Apart(s, t, u);
    assert PositionOk(s, |s.order| - 1);
  }

  lemma CasTailPosition(s: State, t: nat, k: nat)
    requires Inv(s) && t < |s.threads| && s.threads[t].EnqCasTail? && s.tail == s.threads[t].oldTail
    requires OrderOk(ThreadStep(s, t)) && k < |(ThreadStep(s, t)).order|
    ensures PositionOk(ThreadStep(s, t), k)
  {
    assert ThreadOk(s, t);
    assert k < |s.order| ==> PositionOk(s, k);
    assert PositionOk(s, |s.order| - 1);
  }

  lemma CasTailKeepsInv(s: State, t: nat)
    requires Inv(s) && t < |s.threads| && s.threads[t].EnqCasTail? && s.tail == s.threads[t].oldTail
    ensures Inv(ThreadStep(s, t))
  {
    var s' := ThreadStep(s, t);
    assert OrderOk(s') && SizeOk(s') by {
      assert ThreadOk(s, t);
      SizeKept(s, s', t);
    }
    forall u | 0 <= u < |s'.threads|
      ensures ThreadOk(s', u)
    {
      CasTailThread(s, t, u);
    }
    forall u, w | 0 <= u < |s'.threads| && 0 <= w < |s'.threads|
      ensures Apart(s', u, w)
    {
      assert Apart(s, u, w) && ThreadOk(s, u) && ThreadOk(s, w);
    }
    forall k | 0 <= k < |s'.order|
      ensures PositionOk(s', k)
    {
      CasTailPosition(s, t, k);
    }
  }

  lemma OtherNodes(s: State, at: nat)
    requires OrderOk(s) && at < |s.order|
    ensures forall j :: 0 <= j < |s.order| && j != at ==> s.order[j] != s.order[at]
  {}

  lemma LinkThread(s: State, t: nat, u: nat)
    requires Inv(s) && t < |s.threads| && u < |s.threads| && s.threads[t].EnqLink?
    requires OrderOk(ThreadStep(s, t))
    ensures ThreadOk(ThreadStep(s, t), u)
  {
    assert ThreadOk(s, t) && ThreadOk(s, u) && Apart(s, t, u);
    OtherNodes(s, s.threads[t].at);
  }

  lemma LinkPosition(s: State, t: nat, k: nat)
    requires Inv(s) && t < |s.threads| && s.threads[t].EnqLink?
    requires OrderOk(ThreadStep(s, t)) && k < |(ThreadStep(s, t)).order|
    ensures PositionOk(ThreadStep(s, t), k)
  {
    assert ThreadOk(s, t);
    assert PositionOk(s, k);
    OtherNodes(s, s.threads[t].at);
  }

  lemma LinkKeepsInv(s: State, t: nat)
    requires Inv(s) && t < |s.threads| && s.threads[t].EnqLink?
    ensures Inv(ThreadStep(s, t))
  {
    var s' := ThreadStep(s, t);
    assert OrderOk(s') && SizeOk(s') by {
      assert ThreadOk(s, t);
      SizeKept(s, s', t);
    }
    forall u | 0 <= u < |s'.threads|
      ensures ThreadOk(s', u)
    {
      LinkThread(s, t, u);
    }
    forall u, w | 0 <= u < |s'.threads| && 0 <= w < |s'.threads|
      ensures Apart(s', u, w)
    {
      assert Apart(s, u, w) && ThreadOk(s, u) && ThreadOk(s, w);
    }
    forall k | 0 <= k < |s'.order|
      ensures PositionOk(s', k)
    {
      LinkPosition(s, t, k);
    }
  }

  /** The head that a successful compare-exchange finds is the node the thread has read the link of. */
  lemma HeadPosition(s: State, t: nat)
    requires Inv(s) && t < |s.threads| && s.threads[t].DeqCasHead? && s.head == s.threads[t].oldHead
    ensures s.threads[t].at == |s.received| && Linked(s, |s.received|)
    ensures |s.received| + 1 < |s.order| && s.threads[t].next == s.order[|s.received| + 1]
  {
    assert ThreadOk(s, t) && PositionOk(s, |s.received|);
    OtherNodes(s, |s.received|);
  }

  lemma CasHeadThread(s: State, t: nat, u: nat)
    requires Inv(s) && t < |s.threads| && u < |s.threads| && s.threads[t].DeqCasHead? && s.head == s.threads[t].oldHead
    requires OrderOk(ThreadStep(s, t))
    ensures ThreadOk(ThreadStep(s, t), u)
  {
    assert ThreadOk(s, t) && ThreadOk(s, u) && Apart(s, t, u);
    HeadPosition(s, t);
  }

  lemma CasHeadPosition(s: State, t: nat, k: nat)
    requires Inv(s) && t < |s.threads| && s.threads[t].DeqCasHead? && s.head == s.threads[t].oldHead
    requires OrderOk(ThreadStep(s, t)) && k < |(ThreadStep(s, t)).order|
    ensures PositionOk(ThreadStep(s, t), k)
  {
    assert ThreadOk(s, t);
    assert PositionOk(s, k);
    HeadPosition(s, t);
  }

  lemma CasHeadKeepsInv(s: State, t: nat)
    requires Inv(s) && t < |s.threads| && s.threads[t].DeqCasHead? && s.head == s.threads[t].oldHead
    ensures Inv(ThreadStep(s, t))
  {
    var s' := ThreadStep(s, t);
    assert OrderOk(s') && SizeOk(s') by {
      assert ThreadOk(s, t);
      HeadPosition(s, t);
      SizeKept(s, s', t);
    }
    forall u | 0 <= u < |s'.threads|
      ensures ThreadOk(s', u)
    {
      CasHeadThread(s, t, u);
    }
    forall u, w | 0 <= u < |s'.threads| && 0 <= w < |s'.threads|
      ensures Apart(s', u, w)
    {
      assert Apart(s, u, w) && ThreadOk(s, u) && ThreadOk(s, w);
    }
    forall k | 0 <= k < |s'.order|
      ensures PositionOk(s', k)
    {
      CasHeadPosition(s, t, k);
    }
  }

  lemma CopyThread(s: State, t: nat, u: nat)
    requires Inv(s) && t < |s.threads| && u < |s.threads| && s.threads[t].DeqCopy?
    requires OrderOk(ThreadStep(s, t))
    ensures ThreadOk(ThreadStep(s, t), u)
  {
    assert ThreadOk(s, t) && ThreadOk(s, u) && Apart(s, t, u);
  }

  lemma CopyPosition(s: State, t: nat, k: nat)
    requires Inv(s) && t < |s.threads| && s.threads[t].DeqCopy?
    requires OrderOk(ThreadStep(s, t)) && k < |(ThreadStep(s, t)).order|
    ensures PositionOk(ThreadStep(s, t), k)
  {
    assert ThreadOk(s, t);
    assert PositionOk(s, k);
    assert PositionOk(s, s.threads[t].ticket - 1);
  }

  lemma CopyKeepsInv(s: State, t: nat)
    requires Inv(s) && t < |s.threads| && s.threads[t].DeqCopy?
    ensures Inv(ThreadStep(s, t))
  {
    var s' := ThreadStep(s, t);
    assert OrderOk(s') && SizeOk(s') by {
      assert ThreadOk(s, t);
      SizeKept(s, s', t);
    }
    forall u | 0 <= u < |s'.threads|
      ensures ThreadOk(s', u)
    {
      CopyThread(s, t, u);
    }
    forall u, w | 0 <= u < |s'.threads| && 0 <= w < |s'.threads|
      ensures Apart(s', u, w)
    {
      assert Apart(s, u, w) && ThreadOk(s, u) && ThreadOk(s, w);
    }
    forall k | 0 <= k < |s'.order|
      ensures PositionOk(s', k)
    {
      CopyPosition(s, t, k);
    }
  }

  /** Steps that leave memory alone, failed compare-exchanges among them, and the counting steps. */
  lemma LocalStepKeepsInv(s: State, t: nat)
    requires Inv(s) && t < |s.threads| && !s.threads[t].EnqLink? && !s.threads[t].DeqCopy?
    requires s.threads[t].EnqCasTail? ==> s.tail != s.threads[t].oldTail
    requires s.threads[t].DeqCasHead? ==> s.head != s.threads[t].oldHead
    ensures Inv(ThreadStep(s, t))
  {
    var s' := ThreadStep(s, t);
    assert ThreadOk(s, t);
    SizeKept(s, s', t);
    OneThread(s, s', t);
  }

  lemma ThreadStepKeepsInv(s: State, t: nat)
    requires Inv(s) && t < |s.threads|
    ensures Inv(ThreadStep(s, t))
  {
    var x := s.threads[t];
    if x.EnqCasTail? && s.tail == x.oldTail {
      CasTailKeepsInv(s, t);
    } else if x.EnqLink? {
      LinkKeepsInv(s, t);
    } else if x.DeqCasHead? && s.head == x.oldHead {
      CasHeadKeepsInv(s, t);
    } else if x.DeqCopy? {
      CopyKeepsInv(s, t);
    } else {
      LocalStepKeepsInv(s, t);
    }
  }

  lemma StepKeepsInv(s: State, a: Action)
    requires Inv(s)
    ensures Inv(Step(s, a))
  {
    if a.thread < |s.threads| {
      match a.event
      case CallEnqueue(v) =>
        if Resting(s.threads[a.thread]) { StartEnqueueKeepsInv(s, a.thread, v); }
      case CallDequeue =>
        if Resting(s.threads[a.thread]) {
          SizeKept(s, Step(s, a), a.thread);
          OneThread(s, Step(s, a), a.thread);
        }
      case Advance => ThreadStepKeepsInv(s, a.thread);
    }
  }

  /** The state after a schedule. */
  function Run(s: State, schedule: seq<Action>): (s': State)
    requires Shape(s)
    ensures Shape(s')
    decreases |schedule|, 1
  {
    if schedule == [] then s else LastStep(s, schedule)
  }

  function LastStep(s: State, schedule: seq<Action>): (s': State)
    requires Shape(s) && schedule != []
    ensures Shape(s')
    decreases |schedule|, 0
  {
    Step(Run(s, schedule[..|schedule| - 1]), schedule[|schedule| - 1])
  }

  lemma {:induction false} RunKeepsInv(s: State, schedule: seq<Action>)
    requires Inv(s)
    ensures Inv(Run(s, schedule))
    decreases |schedule|
  {
    if schedule != [] {
      RunKeepsInv(s, schedule[..|schedule| - 1]);
      StepKeepsInv(Run(s, schedule[..|schedule| - 1]), schedule[|schedule| - 1]);
    }
  }
}
