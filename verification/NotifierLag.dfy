/**
 What a listener of transport/shm/notifier/condition_notifier.cpp gets when notifiers wait for one another, but
 not for it: no ticket is drawn before its slot's previous writer has finished, and the listener may be lapped.
 */
module NotifierLag {
  import Runs
  import opened Modular
  import opened NotifierProtocol
  import opened NotifierProperties

  ghost predicate Follows(s: State, a: Action, s': State) {
    Shape(s) && s' == Step(s, a)
  }

  ghost predicate Execution(run: seq<State>, schedule: seq<Action>) {
    Runs.Execution<State, Action>(Shape, Follows, run, schedule)
  }

  lemma StepAt(run: seq<State>, schedule: seq<Action>, i: nat)
    requires Execution(run, schedule) && i < |schedule|
    ensures Shape(run[i]) && run[i + 1] == Step(run[i], schedule[i])
  {
    assert Runs.StepsTo<State, Action>(Follows, run, schedule, i);
  }

  /** No ticket is drawn while its slot's previous writer is at work. */
  ghost predicate WritersPaced(run: seq<State>, schedule: seq<Action>, i: nat)
    requires i <= |schedule| < |run|
  {
    forall j :: 0 <= j < i ==> Draws(run[j], schedule[j]) ==> WriterFree(run[j])
  }

  /** The word is the `w`-th of ticket `k`, which has the slot of ticket `cursor` and does not come before it. */
  predicate FromTicket(announced: seq<Info>, cursor: nat, k: nat, w: nat, word: nat) {
    Ahead(cursor, k) && k < |announced| && w < |announced[k]| && word == announced[k][w]
  }

  ghost predicate WordFrom(announced: seq<Info>, cursor: nat, w: nat, word: nat) {
    exists k: nat :: FromTicket(announced, cursor, k, w, word)
  }

  ghost predicate WordsFrom(announced: seq<Info>, cursor: nat, words: seq<nat>) {
    forall w :: 0 <= w < |words| ==> WordFrom(announced, cursor, w, words[w])
  }

  ghost predicate LagOk(s: State, x: Listener)
    requires |s.announced| == |s.owners| == s.nextSeq
  {
    && (!x.at.Absent? && x.at.ReadInfo? && 0 < x.cursor ==>
          && x.cursor < s.nextSeq && |x.at.copy| <= INFO_WORDS && WordsFrom(s.announced, x.cursor, x.at.copy)
          && (s.nextSeq <= x.cursor + BUF_LENGTH ==> !InFlight(s, x.cursor)))
    && (forall i :: 0 <= i < |x.delivered| && 0 < x.delivered[i].ticket ==>
          |x.delivered[i].info| == INFO_WORDS && WordsFrom(s.announced, x.delivered[i].ticket, x.delivered[i].info))
  }

  ghost predicate LagInv(s: State, l: nat) {
    FlightInv(s) && l < |s.listeners| && LagOk(s, s.listeners[l])
  }

  lemma InitLag(notifiers: nat, listeners: nat, l: nat)
    requires l < listeners
    ensures LagInv(Init(notifiers, listeners), l)
  {
    InitPaced(notifiers, listeners, l);
  }

  /** The latest ticket drawn for a slot. */
  lemma LatestTicket(c: nat, nextSeq: nat) returns (k: nat)
    requires c < nextSeq
    ensures Ahead(c, k) && k < nextSeq <= k + BUF_LENGTH && k % BUF_LENGTH == c % BUF_LENGTH
    ensures k == c || c + BUF_LENGTH <= k
  {
    var laps := (nextSeq - 1 - c) / BUF_LENGTH;
    k := c + laps * BUF_LENGTH;
  }

  /** Each word a slot holds is one of the ticket looked for or of a later one. */
  lemma SlotWord(s: State, c: nat, w: nat)
    requires FlightInv(s) && c < s.nextSeq && w < INFO_WORDS
    requires s.nextSeq <= c + BUF_LENGTH ==> !InFlight(s, c)
    ensures WordFrom(s.announced, c, w, s.infos[c % BUF_LENGTH][w])
  {
    var k := LatestTicket(c, s.nextSeq);
    var word := s.infos[k % BUF_LENGTH][w];
    if !InFlight(s, k) {
      assert Settled(s, k);
      assert FromTicket(s.announced, c, k, w, word);
    } else {
      HeldWord(s, k, w);
      assert FromTicket(s.announced, c, k, w, word) || FromTicket(s.announced, c, k - BUF_LENGTH, w, word);
    }
  }

  lemma HeldWord(s: State, k: nat, w: nat)
    requires FlightInv(s) && BUF_LENGTH <= k < s.nextSeq && InFlight(s, k) && w < INFO_WORDS
    ensures var word := s.infos[k % BUF_LENGTH][w];
            && |s.announced[k]| == |s.announced[k - BUF_LENGTH]| == INFO_WORDS
            && (word == s.announced[k][w] || word == s.announced[k - BUF_LENGTH][w])
  {
    var t := s.owners[k];
    assert FlightOk(s, t) && NotifierOk(s, t);
    var n, info := s.notifiers[t], s.infos[k % BUF_LENGTH];
    if n.WriteInfo? {
      if w < n.done {
        assert info[..n.done][w] == n.info[..n.done][w];
      } else {
        assert info[n.done..][w - n.done] == s.announced[k - BUF_LENGTH][n.done..][w - n.done];
      }
    }
  }

  lemma WordsStay(announced: seq<Info>, longer: seq<Info>, cursor: nat, words: seq<nat>)
    requires WordsFrom(announced, cursor, words) && announced <= longer
    ensures WordsFrom(longer, cursor, words)
  {
    forall w | 0 <= w < |words|
      ensures WordFrom(longer, cursor, w, words[w])
    {
      var k: nat :| FromTicket(announced, cursor, k, w, words[w]);
      assert FromTicket(longer, cursor, k, w, words[w]);
    }
  }

  /** The slot test lets only a ticket through whose notifier has finished, as far as it has not been lapped. */
  lemma TestedTicket(s: State, c: nat)
    requires FlightInv(s) && c < s.nextSeq && 0 < c && s.seqs[c % BUF_LENGTH] == c
    requires s.nextSeq <= c + BUF_LENGTH
    ensures !InFlight(s, c)
  {
    var t := s.owners[c];
    if t < |s.notifiers| {
      assert FlightOk(s, t);
    }
  }

  lemma ListenKeepsLag(s: State, l: nat)
    requires LagInv(s, l)
    ensures LagOk(s, ListenerStep(s, s.listeners[l]))
  {
    var x := s.listeners[l];
    assert ListenerOk(s, x) && SlotOk(s, x.cursor % BUF_LENGTH);
    if x.at.ReadSlot? {
      var actual := s.seqs[x.cursor % BUF_LENGTH];
      if 0 < actual <= actual + BUF_LENGTH && s.nextSeq <= actual + BUF_LENGTH {
        TestedTicket(s, actual);
      }
    } else if x.at.ReadInfo? && 0 < x.cursor && |x.at.copy| < INFO_WORDS {
      SlotWord(s, x.cursor, |x.at.copy|);
    }
  }

  lemma NotifierKeepsLag(s: State, t: nat, l: nat)
    requires LagInv(s, l) && t < |s.notifiers| && Inv(NotifierStep(s, t))
    ensures LagOk(NotifierStep(s, t), s.listeners[l])
  {
    var s', x := NotifierStep(s, t), s.listeners[l];
    assert s.announced <= s'.announced;
    if x.at.ReadInfo? && 0 < x.cursor {
      WordsStay(s.announced, s'.announced, x.cursor, x.at.copy);
    }
    forall i | 0 <= i < |x.delivered| && 0 < x.delivered[i].ticket
      ensures WordsFrom(s'.announced, x.delivered[i].ticket, x.delivered[i].info)
    {
      WordsStay(s.announced, s'.announced, x.delivered[i].ticket, x.delivered[i].info);
    }
  }

  lemma StepKeepsLag(s: State, a: Action, l: nat)
    requires LagInv(s, l) && (Draws(s, a) ==> WriterFree(s))
    ensures LagInv(Step(s, a), l)
  {
    StepKeepsFlight(s, a);
    match a
    case AdvanceNotifier(t) => if t < |s.notifiers| { NotifierKeepsLag(s, t, l); }
    case AdvanceListener(m) => if m == l { ListenKeepsLag(s, l); }
    case Join(_) =>
    case Notify(_, _) =>
  }

  lemma {:induction false} LagAt(run: seq<State>, schedule: seq<Action>, l: nat, i: nat)
    requires Execution(run, schedule) && i < |run| && LagInv(run[0], l) && WritersPaced(run, schedule, i)
    ensures LagInv(run[i], l)
    decreases i
  {
    if i > 0 {
      LagAt(run, schedule, l, i - 1);
      StepAt(run, schedule, i - 1);
      StepKeepsLag(run[i - 1], schedule[i - 1], l);
    }
  }

  /**
   With notifiers that wait for one another, whatever a listener that may be lapped is delivered for a ticket
   from 1 on is made up, word by word, of what that ticket or later ones of the same slot announced.
   */
  lemma DeliveredWords(
    notifiers: nat, listeners: nat, run: seq<State>, schedule: seq<Action>, l: nat, i: nat)
    requires Execution(run, schedule) && run[0] == Init(notifiers, listeners) && l < listeners && i < |run|
    requires WritersPaced(run, schedule, i)
    ensures l < |run[i].listeners|
    ensures forall n, w :: 0 <= n < |run[i].listeners[l].delivered| && 0 <= w < INFO_WORDS ==>
              var d := run[i].listeners[l].delivered[n];
              0 < d.ticket ==> |d.info| == INFO_WORDS && WordFrom(run[i].announced, d.ticket, w, d.info[w])
  {
    InitLag(notifiers, listeners, l);
    LagAt(run, schedule, l, i);
  }

  /**
   It is exactly what that ticket announced if no later ticket of the slot has been drawn by the time of the
   delivery.
   */
  lemma NotLappedIsExact(
    notifiers: nat, listeners: nat, run: seq<State>, schedule: seq<Action>, l: nat, i: nat)
    requires Execution(run, schedule) && run[0] == Init(notifiers, listeners) && l < listeners && i < |schedule|
    requires WritersPaced(run, schedule, i) && schedule[i] == AdvanceListener(l)
    requires l < |run[i].listeners| && l < |run[i + 1].listeners|
    requires |run[i + 1].listeners[l].delivered| > |run[i].listeners[l].delivered|
    requires var k := run[i].listeners[l].cursor; 0 < k && run[i].nextSeq <= k + BUF_LENGTH
    ensures var x, x', k := run[i].listeners[l], run[i + 1].listeners[l], run[i].listeners[l].cursor;
            && k < |run[i].announced| && x'.delivered == x.delivered + [Delivery(k, run[i].announced[k])]
  {
    InitLag(notifiers, listeners, l);
    LagAt(run, schedule, l, i);
    StepAt(run, schedule, i);
    CopiedWords(run[i], l);
  }

  lemma CopiedWords(s: State, l: nat)
    requires LagInv(s, l) && s.listeners[l].at.ReadInfo?
    requires var x := s.listeners[l]; |x.at.copy| == INFO_WORDS && 0 < x.cursor && s.nextSeq <= x.cursor + BUF_LENGTH
    ensures s.listeners[l].cursor < |s.announced| && s.listeners[l].at.copy == s.announced[s.listeners[l].cursor]
  {
    var c, copy := s.listeners[l].cursor, s.listeners[l].at.copy;
    forall w | 0 <= w < INFO_WORDS
      ensures copy[w] == s.announced[c][w]
    {
      assert WordFrom(s.announced, c, w, copy[w]);
      var k: nat :| FromTicket(s.announced, c, k, w, copy[w]);
      assert k == c;
    }
  }

  // ----- what being lapped can do

  /** A Notify of one thread from its call to its return. */
  function NotifySteps(t: nat, info: Info): seq<Action> {
    [Notify(t, info), AdvanceNotifier(t), AdvanceNotifier(t), AdvanceNotifier(t), AdvanceNotifier(t),
     AdvanceNotifier(t), AdvanceNotifier(t)]
  }

  /** Thread `t` has drawn the next ticket and copied `i` words of its info. */
  function Midway(s: State, t: nat, info: Info, i: nat): State
    requires Shape(s) && t < |s.notifiers| && i <= |info| == INFO_WORDS
  {
    var slot := s.nextSeq % BUF_LENGTH;
    s.(nextSeq := s.nextSeq + 1, announced := s.announced + [info], owners := s.owners + [t],
       notifiers := s.notifiers[t := WriteInfo(info, s.nextSeq, i)],
       infos := s.infos[slot := info[..i] + s.infos[slot][i..]])
  }

  function Notified(s: State, t: nat, info: Info): State
    requires Shape(s)
  {
    var slot := s.nextSeq % BUF_LENGTH;
    s.(nextSeq := s.nextSeq + 1, announced := s.announced + [info], owners := s.owners + [t],
       infos := s.infos[slot := info], seqs := s.seqs[slot := s.nextSeq])
  }

  lemma DrawsTicket(s: State, t: nat, info: Info)
    requires Shape(s) && t < |s.notifiers| && s.notifiers[t].Idle? && |info| == INFO_WORDS
    ensures var s1 := Step(s, Notify(t, info));
            s1 == SetNotifier(s, t, FetchTicket(info)) && Step(s1, AdvanceNotifier(t)) == Midway(s, t, info, 0)
  {
    var slot := s.nextSeq % BUF_LENGTH;
    assert info[..0] + s.infos[slot][0..] == s.infos[slot];
    assert s.infos[slot := s.infos[slot]] == s.infos;
  }

  lemma CopiesWord(s: State, t: nat, info: Info, i: nat)
    requires Shape(s) && t < |s.notifiers| && i < |info| == INFO_WORDS
    ensures Shape(Midway(s, t, info, i)) && Step(Midway(s, t, info, i), AdvanceNotifier(t)) == Midway(s, t, info, i + 1)
  {
    var slot := s.nextSeq % BUF_LENGTH;
    var before := s.infos[slot];
    assert (info[..i] + before[i..])[i := info[i]] == info[..i + 1] + before[i + 1..];
  }

  lemma StoresTicket(s: State, t: nat, info: Info)
    requires Shape(s) && t < |s.notifiers| && s.notifiers[t].Idle? && |info| == INFO_WORDS
    ensures Shape(Midway(s, t, info, 3))
    ensures var s6 := Step(Midway(s, t, info, 3), AdvanceNotifier(t));
            && s6.notifiers == s.notifiers[t := WriteSeq(info, s.nextSeq)]
            && Step(s6, AdvanceNotifier(t)) == Notified(s, t, info)
  {
    var slot := s.nextSeq % BUF_LENGTH;
    assert info[..3] + s.infos[slot][3..] == info;
    assert s.notifiers[t := Idle] == s.notifiers;
  }

  predicate NobodyWrites(s: State) {
    forall t :: 0 <= t < |s.notifiers| ==> !Holding(s.notifiers[t])
  }

  lemma NotifyAlone(s: State, t: nat, info: Info) returns (run: seq<State>)
    requires Shape(s) && NobodyWrites(s) && t < |s.notifiers| && s.notifiers[t].Idle? && |info| == INFO_WORDS
    ensures Execution(run, NotifySteps(t, info)) && run[0] == s && run[7] == Notified(s, t, info)
    ensures WritersPaced(run, NotifySteps(t, info), 7)
  {
    DrawsTicket(s, t, info);
    CopiesWord(s, t, info, 0);
    CopiesWord(s, t, info, 1);
    CopiesWord(s, t, info, 2);
    StoresTicket(s, t, info);
    var schedule, last := NotifySteps(t, info), Midway(s, t, info, 3);
    run := [s, SetNotifier(s, t, FetchTicket(info)), Midway(s, t, info, 0), Midway(s, t, info, 1),
            Midway(s, t, info, 2), last, Step(last, AdvanceNotifier(t)), Notified(s, t, info)];
    forall i | 0 <= i < 8
      ensures Runs.HoldsAt<State>(Shape, run, i)
    {}
    forall i | 0 <= i < 7
      ensures Runs.StepsTo<State, Action>(Follows, run, schedule, i)
    {}
  }

  /** A paced run from one state to another. */
  ghost predicate Leads(run: seq<State>, schedule: seq<Action>, s: State, s': State) {
    && Execution(run, schedule) && WritersPaced(run, schedule, |schedule|)
    && run[0] == s && run[|schedule|] == s'
  }

  lemma Join(run: seq<State>, schedule: seq<Action>, run2: seq<State>, schedule2: seq<Action>)
    requires Execution(run, schedule) && WritersPaced(run, schedule, |schedule|)
    requires Execution(run2, schedule2) && WritersPaced(run2, schedule2, |schedule2|) && run2[0] == run[|schedule|]
    ensures Leads(run + run2[1..], schedule + schedule2, run[0], run2[|schedule2|])
  {
    Runs.Concat<State, Action>(Shape, Follows, run, schedule, run2, schedule2);
    var all, actions, m := run + run2[1..], schedule + schedule2, |schedule|;
    forall j | 0 <= j < |actions| && Draws(all[j], actions[j])
      ensures WriterFree(all[j])
    {
      assert if j < m then all[j] == run[j] else all[j] == run2[j - m];
    }
  }

  /** Thread `t` has announced `info` `m` times, and nothing else has happened. */
  predicate Repeated(s: State, s': State, info: Info, m: nat) {
    && Shape(s') && s'.nextSeq == s.nextSeq + m && s'.notifiers == s.notifiers && s'.listeners == s.listeners
    && s.announced <= s'.announced && (m > 0 ==> s'.infos[(s'.nextSeq - 1) % BUF_LENGTH] == info)
  }

  lemma {:induction false} NotifyOften(s: State, t: nat, info: Info, m: nat)
    returns (run: seq<State>, schedule: seq<Action>)
    requires Shape(s) && NobodyWrites(s) && t < |s.notifiers| && s.notifiers[t].Idle? && |info| == INFO_WORDS
    ensures run != [] && Leads(run, schedule, s, run[|run| - 1]) && Repeated(s, run[|run| - 1], info, m)
  {
    if m == 0 {
      run, schedule := [s], [];
      assert Runs.HoldsAt<State>(Shape, run, 0);
    } else {
      var run1, schedule1 := NotifyOften(s, t, info, m - 1);
      var run2 := NotifyAlone(run1[|run1| - 1], t, info);
      Join(run1, schedule1, run2, NotifySteps(t, info));
      run, schedule := run1 + run2[1..], schedule1 + NotifySteps(t, info);
    }
  }

  /** The listener copies the other two words and is done. */
  lemma CopyRest(s: State, l: nat, word: nat) returns (run: seq<State>, schedule: seq<Action>)
    requires Shape(s) && l < |s.listeners| && s.listeners[l].at == ReadInfo([word])
    ensures var x, info := s.listeners[l], s.infos[s.listeners[l].cursor % BUF_LENGTH];
            Leads(run, schedule, s, SetListener(s, l, x.(cursor := x.cursor + 1, at := Waiting,
                    delivered := x.delivered + [Delivery(x.cursor, [word, info[1], info[2]])])))
  {
    var x, info := s.listeners[l], s.infos[s.listeners[l].cursor % BUF_LENGTH];
    var x1 := x.(at := ReadInfo([word, info[1]]));
    var x2 := x.(at := ReadInfo([word, info[1], info[2]]));
    var x3 := x.(cursor := x.cursor + 1, at := Waiting,
                 delivered := x.delivered + [Delivery(x.cursor, [word, info[1], info[2]])]);
    ListensAlone(s, l, x);
    assert SetListener(s, l, x) == s;
    assert [word] + [info[1]] == [word, info[1]] && [word, info[1]] + [info[2]] == [word, info[1], info[2]];
    assert ListenerStep(s, x) == x1 && ListenerStep(s, x1) == x2 && ListenerStep(s, x2) == x3;
    ListensAlone(s, l, x1);
    ListensAlone(s, l, x2);
    var a := AdvanceListener(l);
    run := [s, SetListener(s, l, x1), SetListener(s, l, x2), SetListener(s, l, x3)];
    schedule := [a, a, a];
    forall i | 0 <= i < 4
      ensures Runs.HoldsAt<State>(Shape, run, i)
    {}
    forall i | 0 <= i < 3
      ensures Runs.StepsTo<State, Action>(Follows, run, schedule, i)
    {}
  }

  /**
   That the ticket has not been lapped is needed: from every state in which a listener has copied the first word
   of a ticket and no notifier is at work, it can be delivered that word with the other words of another info.
   */
  lemma LappedCanBeTorn(s: State, t: nat, l: nat, word: nat, info: Info)
    returns (run: seq<State>, schedule: seq<Action>)
    requires Shape(s) && NobodyWrites(s) && t < |s.notifiers| && s.notifiers[t].Idle? && |info| == INFO_WORDS
    requires l < |s.listeners| && s.listeners[l].at == ReadInfo([word])
    requires s.nextSeq <= s.listeners[l].cursor + BUF_LENGTH
    ensures run != [] && Leads(run, schedule, s, run[|run| - 1]) && |run[|run| - 1].listeners| == |s.listeners|
    ensures var x, s' := s.listeners[l], run[|run| - 1];
            && s'.listeners[l].delivered == x.delivered + [Delivery(x.cursor, [word, info[1], info[2]])]
            && s.announced <= s'.announced
  {
    var c := s.listeners[l].cursor;
    var run1, schedule1 := NotifyOften(s, t, info, c + BUF_LENGTH + 1 - s.nextSeq);
    var mid := run1[|run1| - 1];
    assert mid.infos[c % BUF_LENGTH] == info by {
      assert (c + BUF_LENGTH) % BUF_LENGTH == c % BUF_LENGTH;
    }
    var run2, schedule2 := CopyRest(mid, l, word);
    Join(run1, schedule1, run2, schedule2);
    run, schedule := run1 + run2[1..], schedule1 + schedule2;
  }

  /** The listener finds its ticket in the slot and copies the first word. */
  lemma CopyFirst(s: State, l: nat) returns (run: seq<State>, schedule: seq<Action>)
    requires Shape(s) && l < |s.listeners| && s.listeners[l].at.Waiting?
    requires var c := s.listeners[l].cursor; s.nextSeq != c && s.seqs[c % BUF_LENGTH] == c
    ensures var x := s.listeners[l];
            Leads(run, schedule, s, SetListener(s, l, x.(at := ReadInfo([s.infos[x.cursor % BUF_LENGTH][0]]))))
  {
    var x, a := s.listeners[l], AdvanceListener(l);
    var x1, x2 := x.(at := ReadSlot), x.(at := ReadInfo([]));
    var x3 := x.(at := ReadInfo([s.infos[x.cursor % BUF_LENGTH][0]]));
    ListensAlone(s, l, x);
    assert SetListener(s, l, x) == s;
    assert [] + [s.infos[x.cursor % BUF_LENGTH][0]] == [s.infos[x.cursor % BUF_LENGTH][0]];
    assert ListenerStep(s, x) == x1 && ListenerStep(s, x1) == x2 && ListenerStep(s, x2) == x3;
    ListensAlone(s, l, x1);
    ListensAlone(s, l, x2);
    run := [s, SetListener(s, l, x1), SetListener(s, l, x2), SetListener(s, l, x3)];
    schedule := [a, a, a];
    forall i | 0 <= i < 4
      ensures Runs.HoldsAt<State>(Shape, run, i)
    {}
    forall i | 0 <= i < 3
      ensures Runs.StepsTo<State, Action>(Follows, run, schedule, i)
    {}
  }

  /** A ring with one notifier, and one listener that has joined after ticket 0 and is due to get ticket 1. */
  lemma TicketOneSent(a: Info) returns (run: seq<State>, schedule: seq<Action>, s: State)
    requires |a| == INFO_WORDS
    ensures Leads(run, schedule, Init(1, 1), s) && Shape(s) && s.notifiers == [Idle] && s.nextSeq == 2
    ensures s.announced == [a, a] && s.infos[1] == a && s.seqs[1] == 1
    ensures s.listeners == [Listener(1, Waiting, 1, [])]
  {
    var s0 := Init(1, 1);
    var run1 := NotifyAlone(s0, 0, a);
    var s1 := Notified(s0, 0, a);
    var s2 := SetListener(s1, 0, Listener(1, Waiting, 1, []));
    var schedule1 := NotifySteps(0, a);
    run, schedule := OneMore(run1, schedule1, s1, NotifierProtocol.Join(0), s2);
    var run3 := NotifyAlone(s2, 0, a);
    Join(run, schedule, run3, NotifySteps(0, a));
    s := Notified(s2, 0, a);
    run, schedule := run + run3[1..], schedule + NotifySteps(0, a);
  }

  lemma ShapeAt(run: seq<State>, schedule: seq<Action>, i: nat)
    requires Execution(run, schedule) && i < |run|
    ensures Shape(run[i])
  {
    assert Runs.HoldsAt<State>(Shape, run, i);
  }

  lemma OneMore(run: seq<State>, schedule: seq<Action>, s: State, a: Action, s': State)
    returns (longer: seq<State>, more: seq<Action>)
    requires Execution(run, schedule) && WritersPaced(run, schedule, |schedule|) && run[|schedule|] == s
    requires Shape(s) && s' == Step(s, a) && !a.AdvanceNotifier?
    ensures Leads(longer, more, run[0], s')
  {
    Runs.Append<State, Action>(Shape, Follows, run, schedule, a, s');
    longer, more := run + [s'], schedule + [a];
  }

  /** For any two infos there is a paced run that delivers the first word of one with the rest of the other. */
  lemma DeliveryCanBeTorn(a: Info, b: Info) returns (run: seq<State>, schedule: seq<Action>)
    requires |a| == |b| == INFO_WORDS
    ensures Execution(run, schedule) && WritersPaced(run, schedule, |schedule|) && run[0] == Init(1, 1)
    ensures var s := run[|schedule|];
            && |s.listeners| == 1 && s.listeners[0].delivered == [Delivery(1, [a[0], b[1], b[2]])]
            && |s.announced| > 1 && s.announced[1] == a
  {
    var run1, schedule1, s1 := TicketOneSent(a);
    var run2, schedule2 := CopyFirst(s1, 0);
    Join(run1, schedule1, run2, schedule2);
    var run12, schedule12 := run1 + run2[1..], schedule1 + schedule2;
    var s2 := run12[|schedule12|];
    ShapeAt(run12, schedule12, |schedule12|);
    var run3, schedule3 := LappedCanBeTorn(s2, 0, 0, a[0], b);
    Join(run12, schedule12, run3, schedule3);
    run, schedule := run12 + run3[1..], schedule12 + schedule3;
    var last := run3[|run3| - 1];
    assert run[|schedule|] == last;
    assert s2.announced[1] == a && last.announced[1] == s2.announced[1];
  }
}
