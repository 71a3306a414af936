/**
 The broadcast ring of transport/shm/notifier/condition_notifier.cpp as a step system: any number of
 notifiers and listeners, one access to shared memory per step, in any order. A ReadableInfo is a sequence
 of words, copied one word per step. Tickets are unbounded.
 */
module NotifierProtocol {
  import opened Modular

  const BUF_LENGTH: nat := 4096

  /** The host id, the block index and the channel id. */
  const INFO_WORDS: nat := 3

  type Info = seq<nat>

  datatype Notifier =
    | Idle
    | FetchTicket(info: Info)
    | WriteInfo(info: Info, ticket: nat, done: nat)
    | WriteSeq(info: Info, ticket: nat)

  datatype Delivery = Delivery(ticket: nat, info: Info)

  /** A listener between polls, about to look at its slot, or copying the slot's info. */
  datatype Listening = Absent | Waiting | ReadSlot | ReadInfo(copy: Info)

  /** A listener keeps its cursor between calls; `origin` and `delivered` record where it began and what it got. */
  datatype Listener = Listener(cursor: nat, at: Listening, origin: nat, delivered: seq<Delivery>)

  /** The shared Indicator, the processes, and for each ticket the info and the notifier that drew it. */
  datatype State = State(
    nextSeq: nat, infos: seq<Info>, seqs: seq<nat>,
    notifiers: seq<Notifier>, listeners: seq<Listener>,
    announced: seq<Info>, owners: seq<nat>)

  datatype Action =
    | Notify(t: nat, info: Info)
    | AdvanceNotifier(t: nat)
    | Join(l: nat)
    | AdvanceListener(l: nat)

  function Init(notifiers: nat, listeners: nat): State {
    State(0, seq(BUF_LENGTH, i => [0, 0, 0]), seq(BUF_LENGTH, i => 0),
          seq(notifiers, i => Idle), seq(listeners, i => Listener(0, Absent, 0, [])), [], [])
  }

  /** What makes every step well defined, whatever the scheduler does. */
  predicate Shape(s: State) {
    && |s.infos| == |s.seqs| == BUF_LENGTH
    && (forall i :: 0 <= i < BUF_LENGTH ==> |s.infos[i]| == INFO_WORDS)
    && (forall t :: 0 <= t < |s.notifiers| && !s.notifiers[t].Idle? ==> |s.notifiers[t].info| == INFO_WORDS)
  }

  /** One step. An action that cannot be taken leaves everything as it is. */
  function Step(s: State, a: Action): (s': State)
    requires Shape(s)
    ensures Shape(s')
  {
    match a
    case Notify(t, info) =>
      if t < |s.notifiers| && s.notifiers[t].Idle? && |info| == INFO_WORDS
      then SetNotifier(s, t, FetchTicket(info)) else s
    case AdvanceNotifier(t) => if t < |s.notifiers| then NotifierStep(s, t) else s
    case Join(l) =>
      if l < |s.listeners| && s.listeners[l].at.Absent?
      then SetListener(s, l, Listener(s.nextSeq, Waiting, s.nextSeq, [])) else s
    case AdvanceListener(l) => if l < |s.listeners| then SetListener(s, l, ListenerStep(s, s.listeners[l])) else s
  }

  function SetNotifier(s: State, t: nat, n: Notifier): State
    requires t < |s.notifiers|
  {
    s.(notifiers := s.notifiers[t := n])
  }

  function SetListener(s: State, l: nat, x: Listener): State
    requires l < |s.listeners|
  {
    s.(listeners := s.listeners[l := x])
  }

  function NotifierStep(s: State, t: nat): (s': State)
    requires Shape(s) && t < |s.notifiers|
    ensures Shape(s')
  {
    match s.notifiers[t]
    case Idle => s
    case FetchTicket(info) =>
      SetNotifier(s, t, WriteInfo(info, s.nextSeq, 0)).(
        nextSeq := s.nextSeq + 1, announced := s.announced + [info], owners := s.owners + [t])
    case WriteInfo(info, k, done) =>
      if done < INFO_WORDS
      then
        var i := k % BUF_LENGTH;
        SetNotifier(s, t, WriteInfo(info, k, done + 1)).(infos := s.infos[i := s.infos[i][done := info[done]]])
      else SetNotifier(s, t, WriteSeq(info, k))
    case WriteSeq(info, k) =>
      SetNotifier(s, t, Idle).(seqs := s.seqs[k % BUF_LENGTH := k])
  }

  function ListenerStep(s: State, x: Listener): Listener
    requires Shape(s)
  {
    match x.at
    case Absent => x
    case Waiting => if s.nextSeq != x.cursor then x.(at := ReadSlot) else x
    case ReadSlot =>
      var actual := s.seqs[x.cursor % BUF_LENGTH];
      if actual >= x.cursor then x.(cursor := actual, at := ReadInfo([])) else x.(at := Waiting)
    case ReadInfo(copy) =>
      if |copy| < INFO_WORDS
      then x.(at := ReadInfo(copy + [s.infos[x.cursor % BUF_LENGTH][|copy|]]))
      else x.(cursor := x.cursor + 1, at := Waiting, delivered := x.delivered + [Delivery(x.cursor, copy)])
  }

  /** The state after a schedule. */
  function Run(s: State, schedule: seq<Action>): (s': State)
    requires Shape(s)
    ensures Shape(s')
    decreases |schedule|, 1
  {
    if schedule == [] then s else LastStep(s, schedule)
  }

  function LastStep(s: State, schedule: seq<Action>): (s': State)
    requires Shape(s) && schedule != []
    ensures Shape(s')
    decreases |schedule|, 0
  {
    Step(Run(s, schedule[..|schedule| - 1]), schedule[|schedule| - 1])
  }

  // ----- what holds in every run

  /** A slot holds zero, as initialised, or a ticket that has been drawn and belongs there. */
  predicate SlotOk(s: State, i: nat)
    requires i < |s.seqs|
  {
    s.seqs[i] == 0 || (s.seqs[i] < s.nextSeq && s.seqs[i] % BUF_LENGTH == i)
  }

  predicate Holding(n: Notifier) {
    n.WriteInfo? || n.WriteSeq?
  }

  ghost predicate NotifierOk(s: State, t: nat)
    requires t < |s.notifiers| && |s.announced| == |s.owners| == s.nextSeq
  {
    var n := s.notifiers[t];
    Holding(n) ==> n.ticket < s.nextSeq && s.announced[n.ticket] == n.info && s.owners[n.ticket] == t
  }

  /** Ticket `k` comes at or after position `from`, a multiple of the ring size further on. */
  predicate Ahead(from: nat, k: nat) {
    from <= k && (k - from) % BUF_LENGTH == 0
  }

  /** The position a listener has reached: its origin, or just after the last delivered ticket. */
  function Reached(x: Listener): nat {
    Expected(x.origin, x.delivered, |x.delivered|)
  }

  ghost predicate ListenerOk(s: State, x: Listener) {
    x.at.Absent? ||
    (&& x.cursor <= s.nextSeq
     && (if x.at.ReadInfo? then Ahead(Reached(x), x.cursor) && x.cursor < s.nextSeq && |x.at.copy| <= INFO_WORDS
         else x.cursor == Reached(x) && (x.at.ReadSlot? ==> x.cursor < s.nextSeq))
     && InOrder(x.origin, x.delivered)
     && (forall i :: 0 <= i < |x.delivered| ==> x.delivered[i].ticket < s.nextSeq))
  }

  /** Delivered tickets strictly increase from the origin, and every skip is a multiple of the ring size. */
  predicate InOrder(origin: nat, delivered: seq<Delivery>) {
    var n := |delivered|;
    n > 0 ==> InOrder(origin, delivered[..n - 1]) && Ahead(Expected(origin, delivered, n - 1), delivered[n - 1].ticket)
  }

  /** Where a listener stood before its `i`-th delivery. */
  function Expected(origin: nat, delivered: seq<Delivery>, i: nat): nat
    requires i <= |delivered|
  {
    if i == 0 then origin else delivered[i - 1].ticket + 1
  }

  ghost predicate Inv(s: State) {
    && Shape(s)
    && |s.announced| == |s.owners| == s.nextSeq
    && (forall i :: 0 <= i < BUF_LENGTH ==> SlotOk(s, i))
    && (forall t :: 0 <= t < |s.notifiers| ==> NotifierOk(s, t))
    && (forall l :: 0 <= l < |s.listeners| ==> ListenerOk(s, s.listeners[l]))
    && (forall k :: 0 <= k < s.nextSeq ==> |s.announced[k]| == INFO_WORDS)
  }

  lemma NotifierKeepsInv(s: State, t: nat)
    requires Inv(s) && t < |s.notifiers|
    ensures Inv(NotifierStep(s, t))
  {
    assert NotifierOk(s, t);
    var s' := NotifierStep(s, t);
    forall i | 0 <= i < BUF_LENGTH
      ensures SlotOk(s', i)
    {
      assert SlotOk(s, i);
    }
    forall u | 0 <= u < |s'.notifiers|
      ensures NotifierOk(s', u)
    {
      assert NotifierOk(s, u);
    }
    forall l | 0 <= l < |s'.listeners|
      ensures ListenerOk(s', s'.listeners[l])
    {
      assert ListenerOk(s, s.listeners[l]);
    }
  }

  lemma ListenerKeepsOk(s: State, l: nat)
    requires Inv(s) && l < |s.listeners|
    ensures ListenerOk(s, ListenerStep(s, s.listeners[l]))
  {
    var x := s.listeners[l];
    assert ListenerOk(s, x) && SlotOk(s, x.cursor % BUF_LENGTH);
    if x.at.ReadSlot? {
      var actual := s.seqs[x.cursor % BUF_LENGTH];
      if actual >= x.cursor {
        EqualResidues(x.cursor, actual, BUF_LENGTH);
      }
    } else if x.at.ReadInfo? && |x.at.copy| == INFO_WORDS {
      OneMoreDelivery(x.origin, x.delivered, Delivery(x.cursor, x.at.copy));
    }
  }

  lemma OneMoreDelivery(origin: nat, delivered: seq<Delivery>, d: Delivery)
    requires InOrder(origin, delivered) && Ahead(Expected(origin, delivered, |delivered|), d.ticket)
    ensures InOrder(origin, delivered + [d])
  {
    assert (delivered + [d])[..|delivered|] == delivered;
  }

  lemma StepKeepsInv(s: State, a: Action)
    requires Inv(s)
    ensures Inv(Step(s, a))
  {
    match a
    case AdvanceNotifier(t) =>
      if t < |s.notifiers| { NotifierKeepsInv(s, t); }
    case AdvanceListener(l) =>
      if l < |s.listeners| {
        ListenerKeepsOk(s, l);
        OneListener(s, Step(s, a), l);
      }
    case Join(l) =>
      if l < |s.listeners| { OneListener(s, Step(s, a), l); }
    case Notify(t, info) =>
      var s' := Step(s, a);
      forall u | 0 <= u < |s'.notifiers|
        ensures NotifierOk(s', u)
      {
        assert NotifierOk(s, u);
      }
      forall l | 0 <= l < |s'.listeners|
        ensures ListenerOk(s', s'.listeners[l])
      {
        assert ListenerOk(s, s.listeners[l]);
      }
      forall i | 0 <= i < BUF_LENGTH
        ensures SlotOk(s', i)
      {
        assert SlotOk(s, i);
      }
  }

  lemma OneListener(s: State, s': State, l: nat)
    requires Inv(s) && l < |s.listeners| == |s'.listeners|
    requires s' == SetListener(s, l, s'.listeners[l]) && ListenerOk(s, s'.listeners[l])
    ensures Inv(s')
  {
    forall m | 0 <= m < |s'.listeners|
      ensures ListenerOk(s', s'.listeners[m])
    {
      assert ListenerOk(s, s.listeners[m]);
    }
    forall u | 0 <= u < |s'.notifiers|
      ensures NotifierOk(s', u)
    {
      assert NotifierOk(s, u);
    }
    forall i | 0 <= i < BUF_LENGTH
      ensures SlotOk(s', i)
    {
      assert SlotOk(s, i);
    }
  }

  lemma {:induction false} RunKeepsInv(s: State, schedule: seq<Action>)
    requires Inv(s)
    ensures Inv(Run(s, schedule))
    decreases |schedule|
  {
    if schedule != [] {
      RunKeepsInv(s, schedule[..|schedule| - 1]);
      StepKeepsInv(Run(s, schedule[..|schedule| - 1]), schedule[|schedule| - 1]);
    }
  }

  lemma InitInv(notifiers: nat, listeners: nat)
    ensures Inv(Init(notifiers, listeners))
  {}
}
