/**
 What the broadcast ring of transport/shm/notifier/condition_notifier.cpp promises every listener, and what
 more one whose slots are not drawn again too soon.
 */
module NotifierProperties {
  import opened Modular
  import opened NotifierProtocol

  /**
   In every run, with no assumption on how far notifiers run ahead, a listener is delivered tickets that
   have been drawn, in strictly increasing order, and every skip is a multiple of the ring size.
   */
  lemma DeliveriesInOrder(notifiers: nat, listeners: nat, schedule: seq<Action>, l: nat)
    requires l < |Run(Init(notifiers, listeners), schedule).listeners|
    requires !Run(Init(notifiers, listeners), schedule).listeners[l].at.Absent?
    ensures var s := Run(Init(notifiers, listeners), schedule);
            var got := s.listeners[l].delivered;
            && (forall i :: 0 <= i < |got| ==> Ahead(Expected(s.listeners[l].origin, got, i), got[i].ticket))
            && (forall i, j :: 0 <= i < j < |got| ==> got[i].ticket < got[j].ticket)
            && (forall i :: 0 <= i < |got| ==> s.listeners[l].origin <= got[i].ticket < s.nextSeq)
  {
    InitInv(notifiers, listeners);
    RunKeepsInv(Init(notifiers, listeners), schedule);
    var s := Run(Init(notifiers, listeners), schedule);
    assert ListenerOk(s, s.listeners[l]);
    var origin, got := s.listeners[l].origin, s.listeners[l].delivered;
    Increasing(origin, got);
    forall i | 0 <= i < |got|
      ensures Ahead(Expected(origin, got, i), got[i].ticket)
    {
      SkipsAreLaps(origin, got, i);
    }
  }

  lemma {:induction false} Increasing(origin: nat, delivered: seq<Delivery>)
    requires InOrder(origin, delivered)
    ensures forall i, j :: 0 <= i < j < |delivered| ==> delivered[i].ticket < delivered[j].ticket
    ensures forall i :: 0 <= i < |delivered| ==> origin <= delivered[i].ticket
    decreases |delivered|
  {
    if delivered != [] {
      var n := |delivered| - 1;
      var before := delivered[..n];
      Increasing(origin, before);
      forall i | 0 <= i < n
        ensures delivered[i].ticket < delivered[n].ticket
      {
        assert before[i].ticket <= before[n - 1].ticket;
      }
    }
  }

  /** Every skip is a multiple of the ring size. */
  lemma {:induction false} SkipsAreLaps(origin: nat, delivered: seq<Delivery>, i: nat)
    requires InOrder(origin, delivered) && i < |delivered|
    ensures Ahead(Expected(origin, delivered, i), delivered[i].ticket)
    decreases |delivered|
  {
    var n := |delivered| - 1;
    if i < n {
      SkipsAreLaps(origin, delivered[..n], i);
    }
  }

  // ----- slots that are not drawn again too soon

  /** Ticket `k` has been drawn and its notifier has not stored it in its slot yet. */
  predicate InFlight(s: State, k: nat)
    requires k < |s.owners|
  {
    s.owners[k] < |s.notifiers| && Holding(s.notifiers[s.owners[k]]) && s.notifiers[s.owners[k]].ticket == k
  }

  /** The previous writer of the next ticket's slot has finished. */
  ghost predicate WriterFree(s: State) {
    forall t :: 0 <= t < |s.notifiers| && Holding(s.notifiers[t]) ==> s.nextSeq < s.notifiers[t].ticket + BUF_LENGTH
  }

  /**
   The next ticket's slot is free: its previous writer has finished, and listener `l`, if it is there,
   has copied what that writer left.
   */
  ghost predicate SlotFree(s: State, l: nat)
    requires l < |s.listeners|
  {
    && WriterFree(s)
    && (s.listeners[l].at.Absent? || s.nextSeq < s.listeners[l].cursor + BUF_LENGTH)
  }

  predicate Draws(s: State, a: Action) {
    a.AdvanceNotifier? && a.t < |s.notifiers| && s.notifiers[a.t].FetchTicket?
  }

  /** No step of the run draws a ticket whose slot is not free. */
  ghost predicate Paced(s: State, schedule: seq<Action>, l: nat)
    requires Shape(s)
  {
    forall i :: 0 <= i < |schedule| ==> PacedAt(s, schedule, l, i)
  }

  ghost predicate PacedAt(s: State, schedule: seq<Action>, l: nat, i: nat)
    requires Shape(s) && i < |schedule|
  {
    var now := Run(s, schedule[..i]);
    l < |now.listeners| && (Draws(now, schedule[i]) ==> SlotFree(now, l))
  }

  /** A ticket of the last lap that is not in flight is in its slot with its own info. */
  ghost predicate Settled(s: State, k: nat)
    requires Shape(s) && k < |s.announced| == |s.owners|
  {
    s.seqs[k % BUF_LENGTH] == k && s.infos[k % BUF_LENGTH] == s.announced[k]
  }

  /** A notifier has overwritten its slot up to `done`; the rest is still what the ticket a lap before left. */
  ghost predicate FlightOk(s: State, t: nat)
    requires Inv(s) && t < |s.notifiers|
  {
    var n := s.notifiers[t];
    Holding(n) ==>
      && s.nextSeq <= n.ticket + BUF_LENGTH
      && (n.ticket == 0 || s.seqs[n.ticket % BUF_LENGTH] < n.ticket)
      && (if n.WriteSeq? then s.infos[n.ticket % BUF_LENGTH] == n.info
          else n.done <= INFO_WORDS && |n.info| == INFO_WORDS
               && s.infos[n.ticket % BUF_LENGTH][..n.done] == n.info[..n.done]
               && (BUF_LENGTH <= n.ticket < s.nextSeq ==>
                     s.infos[n.ticket % BUF_LENGTH][n.done..] == s.announced[n.ticket - BUF_LENGTH][n.done..]))
  }

  /** The tickets from the origin on, one after the other, each after ticket 0 with the info of its notifier. */
  ghost predicate Complete(s: State, origin: nat, delivered: seq<Delivery>) {
    forall i :: 0 <= i < |delivered| ==>
      && delivered[i].ticket == origin + i
      && (0 < origin + i < |s.announced| ==> delivered[i].info == s.announced[origin + i])
  }

  ghost predicate ReaderOk(s: State, x: Listener)
    requires |s.announced| == |s.owners| == s.nextSeq
  {
    x.at.Absent? ||
    (&& s.nextSeq <= x.cursor + BUF_LENGTH
     && x.cursor == x.origin + |x.delivered| <= s.nextSeq
     && Complete(s, x.origin, x.delivered)
     && (x.at.ReadInfo? && 0 < x.cursor ==>
           && x.cursor < s.nextSeq && !InFlight(s, x.cursor)
           && |x.at.copy| <= |s.announced[x.cursor]| && x.at.copy == s.announced[x.cursor][..|x.at.copy|]))
  }

  /** What holds of the slots as long as no ticket is drawn before its slot's previous writer has finished. */
  ghost predicate FlightInv(s: State) {
    && Inv(s)
    && (forall t :: 0 <= t < |s.notifiers| ==> FlightOk(s, t))
    && (forall k :: 0 <= k < s.nextSeq <= k + BUF_LENGTH && !InFlight(s, k) ==> Settled(s, k))
  }

  ghost predicate PacedInv(s: State, l: nat) {
    FlightInv(s) && l < |s.listeners| && ReaderOk(s, s.listeners[l])
  }

  lemma InitPaced(notifiers: nat, listeners: nat, l: nat)
    requires l < listeners
    ensures PacedInv(Init(notifiers, listeners), l)
  {}

  lemma DrawnOk(s: State, s': State, t: nat)
    requires FlightInv(s) && t < |s.notifiers| && s.notifiers[t].FetchTicket? && WriterFree(s)
    requires s' == NotifierStep(s, t) && Inv(s')
    ensures FlightOk(s', t)
  {
    assert SlotOk(s, s.nextSeq % BUF_LENGTH);
    if BUF_LENGTH <= s.nextSeq {
      var k := s.nextSeq - BUF_LENGTH;
      LapBefore(s, k);
      assert k % BUF_LENGTH == s.nextSeq % BUF_LENGTH;
      assert s'.announced[k] == s.announced[k] == s.infos[k % BUF_LENGTH];
    }
  }

  lemma DrawKeepsFlight(s: State, t: nat)
    requires FlightInv(s) && t < |s.notifiers| && s.notifiers[t].FetchTicket? && WriterFree(s)
    ensures FlightInv(NotifierStep(s, t))
  {
    var s' := NotifierStep(s, t);
    NotifierKeepsInv(s, t);
    forall u | 0 <= u < |s'.notifiers|
      ensures FlightOk(s', u)
    {
      assert FlightOk(s, u) && NotifierOk(s, u);
      if u == t {
        DrawnOk(s, s', t);
      }
    }
    forall k | 0 <= k < s'.nextSeq <= k + BUF_LENGTH && !InFlight(s', k)
      ensures Settled(s', k)
    {
      assert k < s.nextSeq && !InFlight(s, k);
      assert Settled(s, k);
    }
  }

  /** The ticket a lap before the next one has been written. */
  lemma LapBefore(s: State, k: nat)
    requires FlightInv(s) && WriterFree(s) && s.nextSeq == k + BUF_LENGTH
    ensures !InFlight(s, k) && Settled(s, k)
  {}

  /** Two tickets of the last lap have different slots. */
  lemma LapSlots(s: State, j: nat, k: nat)
    requires j != k && j < s.nextSeq <= j + BUF_LENGTH && k < s.nextSeq <= k + BUF_LENGTH
    ensures j % BUF_LENGTH != k % BUF_LENGTH
  {
    if j < k { DistinctResidues(j, k, BUF_LENGTH); } else { DistinctResidues(k, j, BUF_LENGTH); }
  }

  lemma WriteKeepsFlightOf(s: State, t: nat, u: nat)
    requires FlightInv(s) && t < |s.notifiers| && Holding(s.notifiers[t]) && u < |s.notifiers|
    requires Inv(NotifierStep(s, t))
    ensures FlightOk(NotifierStep(s, t), u)
  {
    assert FlightOk(s, t) && FlightOk(s, u) && NotifierOk(s, t) && NotifierOk(s, u);
    if u != t && Holding(s.notifiers[u]) {
      LapSlots(s, s.notifiers[t].ticket, s.notifiers[u].ticket);
    }
  }

  lemma WriteKeepsSettled(s: State, t: nat, k: nat)
    requires FlightInv(s) && t < |s.notifiers| && Holding(s.notifiers[t])
    requires k < s.nextSeq <= k + BUF_LENGTH && !InFlight(NotifierStep(s, t), k)
    ensures Settled(NotifierStep(s, t), k)
  {
    assert FlightOk(s, t) && NotifierOk(s, t);
    if k != s.notifiers[t].ticket {
      assert !InFlight(s, k) && Settled(s, k);
      LapSlots(s, k, s.notifiers[t].ticket);
    }
  }

  lemma WriteKeepsFlight(s: State, t: nat)
    requires FlightInv(s) && t < |s.notifiers| && Holding(s.notifiers[t])
    ensures FlightInv(NotifierStep(s, t))
  {
    var s' := NotifierStep(s, t);
    NotifierKeepsInv(s, t);
    forall u | 0 <= u < |s'.notifiers|
      ensures FlightOk(s', u)
    {
      WriteKeepsFlightOf(s, t, u);
    }
    forall k | 0 <= k < s'.nextSeq <= k + BUF_LENGTH && !InFlight(s', k)
      ensures Settled(s', k)
    {
      WriteKeepsSettled(s, t, k);
    }
  }

  /** Steps of listeners, and the start of a Notify. */
  lemma SameSlots(s: State, s': State)
    requires FlightInv(s) && Inv(s') && |s'.notifiers| == |s.notifiers|
    requires s' == s.(listeners := s'.listeners, notifiers := s'.notifiers)
    requires forall u :: 0 <= u < |s.notifiers| ==>
               s'.notifiers[u] == s.notifiers[u] || (!Holding(s.notifiers[u]) && !Holding(s'.notifiers[u]))
    ensures FlightInv(s') && forall k :: 0 <= k < s.nextSeq ==> InFlight(s', k) == InFlight(s, k)
  {
    forall u | 0 <= u < |s'.notifiers|
      ensures FlightOk(s', u)
    {
      assert FlightOk(s, u);
    }
    forall k | 0 <= k < s.nextSeq <= k + BUF_LENGTH && !InFlight(s', k)
      ensures Settled(s', k)
    {
      assert !InFlight(s, k);
      assert Settled(s, k);
    }
  }

  lemma StepKeepsFlight(s: State, a: Action)
    requires FlightInv(s) && (Draws(s, a) ==> WriterFree(s))
    ensures FlightInv(Step(s, a))
    ensures !a.AdvanceNotifier? ==>
              forall k :: 0 <= k < s.nextSeq == (Step(s, a)).nextSeq ==> InFlight(Step(s, a), k) == InFlight(s, k)
  {
    StepKeepsInv(s, a);
    match a
    case AdvanceNotifier(t) =>
      if t < |s.notifiers| {
        if s.notifiers[t].FetchTicket? { DrawKeepsFlight(s, t); }
        else if Holding(s.notifiers[t]) { WriteKeepsFlight(s, t); }
      }
    case AdvanceListener(_) => SameSlots(s, Step(s, a));
    case Join(_) => SameSlots(s, Step(s, a));
    case Notify(_, _) => SameSlots(s, Step(s, a));
  }

  /**
   The check a listener makes of its slot lets the ticket it expects through exactly when that ticket's
   notifier has finished, or when the ticket is 0, which the zero-initialised slot seems to hold already.
   */
  lemma SlotCheckExact(s: State, l: nat)
    requires PacedInv(s, l) && s.listeners[l].at.ReadSlot?
    ensures var x := s.listeners[l];
            && x.cursor < s.nextSeq
            && (s.seqs[x.cursor % BUF_LENGTH] >= x.cursor <==> !InFlight(s, x.cursor) || x.cursor == 0)
            && (s.seqs[x.cursor % BUF_LENGTH] >= x.cursor ==> s.seqs[x.cursor % BUF_LENGTH] == x.cursor)
  {
    var x := s.listeners[l];
    assert ListenerOk(s, x) && SlotOk(s, x.cursor % BUF_LENGTH);
    var actual := s.seqs[x.cursor % BUF_LENGTH];
    if actual > x.cursor {
      DistinctResidues(x.cursor, actual, BUF_LENGTH);
    }
    if InFlight(s, x.cursor) {
      assert FlightOk(s, s.owners[x.cursor]);
    } else {
      assert Settled(s, x.cursor);
    }
  }

  lemma ListenKeepsReader(s: State, l: nat)
    requires PacedInv(s, l)
    ensures ReaderOk(s, ListenerStep(s, s.listeners[l]))
  {
    var x := s.listeners[l];
    assert ListenerOk(s, x);
    if x.at.ReadSlot? {
      SlotCheckExact(s, l);
    } else if x.at.ReadInfo? && 0 < x.cursor {
      assert Settled(s, x.cursor);
      assert |s.announced[x.cursor]| == INFO_WORDS;
      if |x.at.copy| == INFO_WORDS {
        assert x.at.copy == s.announced[x.cursor];
      }
    }
  }

  lemma NotifierKeepsReader(s: State, t: nat, l: nat)
    requires PacedInv(s, l) && t < |s.notifiers| && (s.notifiers[t].FetchTicket? ==> SlotFree(s, l))
    ensures Inv(NotifierStep(s, t)) && ReaderOk(NotifierStep(s, t), s.listeners[l])
  {
    NotifierKeepsInv(s, t);
    assert NotifierOk(s, t);
  }

  lemma StepKeepsPaced(s: State, a: Action, l: nat)
    requires PacedInv(s, l) && (Draws(s, a) ==> SlotFree(s, l))
    ensures PacedInv(Step(s, a), l)
  {
    StepKeepsFlight(s, a);
    match a
    case AdvanceNotifier(t) => if t < |s.notifiers| { NotifierKeepsReader(s, t, l); }
    case AdvanceListener(m) => if m == l { ListenKeepsReader(s, l); }
    case Join(_) =>
    case Notify(_, _) =>
  }

  lemma PacedBefore(s: State, schedule: seq<Action>, l: nat)
    requires Shape(s) && schedule != [] && Paced(s, schedule, l)
    ensures Paced(s, schedule[..|schedule| - 1], l)
  {
    var before := schedule[..|schedule| - 1];
    forall i | 0 <= i < |before|
      ensures PacedAt(s, before, l, i)
    {
      assert PacedAt(s, schedule, l, i);
      assert before[..i] == schedule[..i];
    }
  }

  lemma {:induction false} RunKeepsPaced(s: State, schedule: seq<Action>, l: nat)
    requires PacedInv(s, l) && Paced(s, schedule, l)
    ensures PacedInv(Run(s, schedule), l)
    decreases |schedule|
  {
    if schedule != [] {
      var n := |schedule| - 1;
      PacedBefore(s, schedule, l);
      RunKeepsPaced(s, schedule[..n], l);
      assert PacedAt(s, schedule, l, n);
      StepKeepsPaced(Run(s, schedule[..n]), schedule[n], l);
    }
  }

  /**
   If no ticket is drawn before its slot's previous writer has finished and the listener has passed it,
   the listener gets the tickets from its origin up to its cursor exactly once each, in order, and every
   ticket from 1 on with the info its notifier wrote.
   */
  lemma PacedDeliveryIsComplete(notifiers: nat, listeners: nat, schedule: seq<Action>, l: nat)
    requires l < listeners && Paced(Init(notifiers, listeners), schedule, l)
    ensures var s := Run(Init(notifiers, listeners), schedule);
            && l < |s.listeners|
            && (s.listeners[l].at.Absent? ||
                (var x := s.listeners[l];
                 && x.cursor == x.origin + |x.delivered| <= s.nextSeq == |s.announced|
                 && (forall i :: 0 <= i < |x.delivered| ==> x.delivered[i].ticket == x.origin + i)
                 && (forall i :: 0 <= i < |x.delivered| && 1 <= x.origin + i
                       ==> x.delivered[i].info == s.announced[x.origin + i])))
  {
    InitPaced(notifiers, listeners, l);
    RunKeepsPaced(Init(notifiers, listeners), schedule, l);
  }

  // ----- nothing is withheld

  function Polls(l: nat, n: nat): (schedule: seq<Action>)
    ensures |schedule| == n
  {
    if n == 0 then [] else Polls(l, n - 1) + [AdvanceListener(l)]
  }

  /** What `n` steps of a listener make of it while nobody else does anything. */
  function Listen(s: State, x: Listener, n: nat): Listener
    requires Shape(s)
  {
    if n == 0 then x else ListenerStep(s, Listen(s, x, n - 1))
  }

  lemma {:induction false} PollsListen(s0: State, first: seq<Action>, l: nat, n: nat)
    requires Shape(s0) && l < |Run(s0, first).listeners|
    ensures var s := Run(s0, first);
            Run(s0, first + Polls(l, n)) == SetListener(s, l, Listen(s, s.listeners[l], n))
  {
    var s := Run(s0, first);
    if n == 0 {
      assert first + Polls(l, 0) == first;
    } else {
      PollsListen(s0, first, l, n - 1);
      assert (first + Polls(l, n))[..|first| + n - 1] == first + Polls(l, n - 1);
      ListensAlone(s, l, Listen(s, s.listeners[l], n - 1));
    }
  }

  lemma ListensAlone(s: State, l: nat, x: Listener)
    requires Shape(s) && l < |s.listeners|
    ensures Shape(SetListener(s, l, x))
    ensures Step(SetListener(s, l, x), AdvanceListener(l)) == SetListener(s, l, ListenerStep(s, x))
  {}

  /** Copying a slot word by word. */
  lemma CopySlot(s: State, x: Listener, n: nat)
    requires Shape(s) && x.at == ReadInfo([]) && n <= INFO_WORDS
    ensures Listen(s, x, n) == x.(at := ReadInfo(s.infos[x.cursor % BUF_LENGTH][..n]))
  {
    if n > 0 {
      CopySlot(s, x, n - 1);
      var info := s.infos[x.cursor % BUF_LENGTH];
      assert info[..n] == info[..n - 1] + [info[n - 1]];
    }
  }

  lemma ListenOn(s: State, x: Listener, m: nat, n: nat)
    requires Shape(s)
    ensures Listen(s, x, m + n) == Listen(s, Listen(s, x, m), n)
  {
    if n > 0 { ListenOn(s, x, m, n - 1); }
  }

  /** Six steps deliver a slot that holds the expected ticket. */
  lemma SixSteps(s: State, x: Listener)
    requires Shape(s) && x.at.Waiting? && s.nextSeq != x.cursor && s.seqs[x.cursor % BUF_LENGTH] == x.cursor
    ensures Listen(s, x, 6) == x.(cursor := x.cursor + 1,
              delivered := x.delivered + [Delivery(x.cursor, s.infos[x.cursor % BUF_LENGTH])])
  {
    var copying := x.(at := ReadInfo([]));
    assert Listen(s, x, 1) == x.(at := ReadSlot);
    assert Listen(s, x, 2) == copying;
    CopySlot(s, copying, 3);
    ListenOn(s, x, 2, 3);
    var info := s.infos[x.cursor % BUF_LENGTH];
    assert info[..3] == info;
    assert Listen(s, x, 5) == x.(at := ReadInfo(info));
  }

  /** A listener that polls gets the next ticket as soon as its notifier has finished: six steps suffice. */
  lemma FinishedTicketIsDelivered(s: State, l: nat)
    requires PacedInv(s, l) && s.listeners[l].at.Waiting?
    requires s.listeners[l].cursor < s.nextSeq && !InFlight(s, s.listeners[l].cursor)
    ensures var x := s.listeners[l];
            Run(s, Polls(l, 6)) == SetListener(s, l, x.(cursor := x.cursor + 1,
              delivered := x.delivered + [Delivery(x.cursor, s.announced[x.cursor])]))
  {
    var x := s.listeners[l];
    assert Settled(s, x.cursor);
    assert [] + Polls(l, 6) == Polls(l, 6) && Run(s, []) == s;
    PollsListen(s, [], l, 6);
    SixSteps(s, x);
  }

  // ----- ticket 0

  /** What the listener is delivered first is ticket 0 with the info of its notifier. */
  predicate ZeroRight(s: State, l: nat) {
    l < |s.listeners| && 0 < |s.announced|
    && (s.listeners[l].delivered == [] || s.listeners[l].delivered[0] == Delivery(0, s.announced[0]))
  }

  ghost predicate ZeroRightAfter(s: State, schedule: seq<Action>, l: nat)
    requires Shape(s)
  {
    Paced(s, schedule, l) ==> ZeroRight(Run(s, schedule), l)
  }

  /** However the others go on at their pace, the listener is not delivered ticket 0 with a wrong info. */
  ghost predicate AlwaysZeroRight(s: State, l: nat)
    requires Shape(s)
  {
    forall schedule :: ZeroRightAfter(s, schedule, l)
  }

  /** The listener has ticket 0 with its info, or is copying that info out of its slot. */
  ghost predicate ZeroHeld(s: State, l: nat) {
    && PacedInv(s, l) && 0 < s.nextSeq && !s.listeners[l].at.Absent?
    && var x := s.listeners[l];
       if x.delivered == [] then
         && x.cursor == 0 && s.infos[0] == s.announced[0]
         && x.at.ReadInfo? && |x.at.copy| <= INFO_WORDS && x.at.copy == s.announced[0][..|x.at.copy|]
       else x.delivered[0] == Delivery(0, s.announced[0])
  }

  /** While the listener is at ticket 0, only that ticket's notifier writes to slot 0. */
  lemma NotifierKeepsZero(s: State, t: nat, l: nat)
    requires ZeroHeld(s, l) && t < |s.notifiers| && PacedInv(NotifierStep(s, t), l)
    ensures ZeroHeld(NotifierStep(s, t), l)
  {
    var n := s.notifiers[t];
    if s.listeners[l].delivered == [] && n.WriteInfo? && n.ticket % BUF_LENGTH == 0 {
      assert NotifierOk(s, t) && n.ticket < s.nextSeq <= BUF_LENGTH;
      assert n.ticket == 0;
    }
  }

  lemma ListenerKeepsZero(s: State, l: nat)
    requires ZeroHeld(s, l) && PacedInv(SetListener(s, l, ListenerStep(s, s.listeners[l])), l)
    ensures ZeroHeld(SetListener(s, l, ListenerStep(s, s.listeners[l])), l)
  {
    var x := s.listeners[l];
    var info := s.announced[0];
    assert |info| == INFO_WORDS && info[..INFO_WORDS] == info;
    if x.at.ReadInfo? && x.delivered == [] && |x.at.copy| < INFO_WORDS {
      var n := |x.at.copy|;
      assert info[..n + 1] == info[..n] + [info[n]];
    }
  }

  lemma StepKeepsZero(s: State, a: Action, l: nat)
    requires ZeroHeld(s, l) && (Draws(s, a) ==> SlotFree(s, l))
    ensures ZeroHeld(Step(s, a), l)
  {
    StepKeepsPaced(s, a, l);
    match a
    case AdvanceNotifier(t) => if t < |s.notifiers| { NotifierKeepsZero(s, t, l); }
    case AdvanceListener(m) => if m == l { ListenerKeepsZero(s, l); }
    case Join(_) =>
    case Notify(_, _) =>
  }

  lemma {:induction false} RunKeepsZero(s: State, schedule: seq<Action>, l: nat)
    requires ZeroHeld(s, l) && Paced(s, schedule, l)
    ensures ZeroHeld(Run(s, schedule), l)
    decreases |schedule|
  {
    if schedule != [] {
      var n := |schedule| - 1;
      PacedBefore(s, schedule, l);
      RunKeepsZero(s, schedule[..n], l);
      assert PacedAt(s, schedule, l, n);
      StepKeepsZero(Run(s, schedule[..n]), schedule[n], l);
    }
  }

  /** A listener that is about to test slot 0 has been delivered nothing, and the test succeeds. */
  lemma ZeroPasses(s: State, l: nat)
    requires PacedInv(s, l) && s.listeners[l].at.ReadSlot? && s.listeners[l].cursor == 0
    ensures s.listeners[l].delivered == [] && 0 < s.nextSeq
    ensures Step(s, AdvanceListener(l)) == SetListener(s, l, s.listeners[l].(at := ReadInfo([])))
  {
    SlotCheckExact(s, l);
  }

  /** A listener that goes on alone is delivered what slot 0 holds. */
  lemma ZeroAsItIs(s: State, l: nat)
    requires PacedInv(s, l) && s.listeners[l].at == ReadInfo([])
    requires s.listeners[l].cursor == 0 && s.listeners[l].delivered == []
    ensures Paced(s, Polls(l, 4), l)
    ensures l < |Run(s, Polls(l, 4)).listeners| && Run(s, Polls(l, 4)).announced == s.announced
    ensures Run(s, Polls(l, 4)).listeners[l].delivered == [Delivery(0, s.infos[0])]
  {
    var x := s.listeners[l];
    assert [] + Polls(l, 4) == Polls(l, 4) && Run(s, []) == s;
    PollsListen(s, [], l, 4);
    CopySlot(s, x, 3);
    assert s.infos[0][..3] == s.infos[0];
    PollsAreListening(l, 4);
    forall i | 0 <= i < 4
      ensures PacedAt(s, Polls(l, 4), l, i)
    {
      ListenersFixed(s, Polls(l, 4)[..i]);
    }
  }

  /**
   What a listener that passes the test of slot 0 makes of ticket 0: it is delivered the info of ticket 0's
   notifier in every paced continuation exactly if the slot holds that info at the instant of the test.
   */
  lemma TicketZeroExact(s: State, l: nat)
    requires PacedInv(s, l) && s.listeners[l].at.ReadSlot? && s.listeners[l].cursor == 0
    ensures 0 < |s.announced|
    ensures AlwaysZeroRight(Step(s, AdvanceListener(l)), l) <==> s.infos[0] == s.announced[0]
  {
    ZeroPasses(s, l);
    var s1 := Step(s, AdvanceListener(l));
    StepKeepsPaced(s, AdvanceListener(l), l);
    if s.infos[0] == s.announced[0] {
      forall schedule: seq<Action>
        ensures ZeroRightAfter(s1, schedule, l)
      {
        if Paced(s1, schedule, l) { RunKeepsZero(s1, schedule, l); }
      }
    } else {
      ZeroAsItIs(s1, l);
      assert !ZeroRightAfter(s1, Polls(l, 4), l);
    }
  }

  /** A wrong info under ticket 0 takes a notifier of ticket 0 that has not finished when the slot is tested. */
  lemma FinishedZeroIsRight(s: State, l: nat, schedule: seq<Action>)
    requires PacedInv(s, l) && s.listeners[l].at.ReadSlot? && s.listeners[l].cursor == 0
    requires Paced(Step(s, AdvanceListener(l)), schedule, l)
    ensures 0 < |s.announced| == |s.owners|
    ensures !InFlight(s, 0) ==> ZeroRight(Run(Step(s, AdvanceListener(l)), schedule), l)
  {
    TicketZeroExact(s, l);
    if !InFlight(s, 0) {
      ZeroPasses(s, l);
      assert ReaderOk(s, s.listeners[l]);
      assert Settled(s, 0);
      assert ZeroRightAfter(Step(s, AdvanceListener(l)), schedule, l);
    }
  }

  /** A listener joins an unused ring, and a notifier draws ticket 0. */
  function DrawZero(): seq<Action> {
    [Join(0), Notify(0, [1, 2, 3]), AdvanceNotifier(0)]
  }

  lemma AfterDrawZero()
    ensures var s0 := Init(1, 1);
            && Run(s0, DrawZero()[..2]) == SetNotifier(Step(s0, Join(0)), 0, FetchTicket([1, 2, 3]))
            && Run(s0, DrawZero()) == Step(Run(s0, DrawZero()[..2]), AdvanceNotifier(0))
  {
    var s0, first := Init(1, 1), DrawZero();
    assert first[..3] == first && first[..3][..2] == first[..2];
    assert first[..2][..1] == first[..1] && first[..1][..0] == [];
    assert Run(s0, []) == s0;
    assert Run(s0, first[..1]) == Step(s0, Join(0));
  }

  /**
   Ticket 0 is the exception: with one notifier and one listener, the listener can be delivered ticket 0
   with the info the ring was initialised with, before the notifier has written its own.
   */
  lemma TicketZeroCanBeStale() returns (schedule: seq<Action>)
    ensures var s := Run(Init(1, 1), schedule);
            && Paced(Init(1, 1), schedule, 0)
            && s.announced == [[1, 2, 3]]
            && |s.listeners| == 1 && s.listeners[0].delivered == [Delivery(0, [0, 0, 0])]
  {
    var s0, first := Init(1, 1), DrawZero();
    schedule := first + Polls(0, 6);
    AfterDrawZero();
    var s3 := Run(s0, first);
    PollsListen(s0, first, 0, 6);
    SixSteps(s3, s3.listeners[0]);
    forall i | 0 <= i < |schedule|
      ensures PacedAt(s0, schedule, 0, i)
    {
      ListenersFixed(s0, schedule[..i]);
      DrawsOnce(schedule, i);
    }
  }

  lemma DrawsOnce(schedule: seq<Action>, i: nat)
    requires schedule == DrawZero() + Polls(0, 6) && i < |schedule|
    requires |Run(Init(1, 1), schedule[..i]).listeners| == 1
    ensures PacedAt(Init(1, 1), schedule, 0, i)
  {
    AfterDrawZero();
    PollsAreListening(0, 6);
    if i == 2 {
      assert schedule[..2] == DrawZero()[..2];
    }
  }

  lemma PollsAreListening(l: nat, n: nat)
    ensures forall i :: 0 <= i < n ==> Polls(l, n)[i] == AdvanceListener(l)
  {}

  lemma {:induction false} ListenersFixed(s: State, schedule: seq<Action>)
    requires Shape(s)
    ensures |Run(s, schedule).listeners| == |s.listeners|
    decreases |schedule|
  {
    if schedule != [] {
      ListenersFixed(s, schedule[..|schedule| - 1]);
    }
  }
}
