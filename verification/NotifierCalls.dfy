/** What a Notify has done when it returns, and what a listener that has joined gets from then on. */
module NotifierCalls {
  import Runs
  import opened Modular
  import opened NotifierProtocol
  import opened NotifierProperties
  import opened NotifierLag

  lemma OthersWait(s: State, a: Action, t: nat)
    requires Shape(s) && t < |s.notifiers|
    ensures var s' := Step(s, a);
            && |s'.notifiers| == |s.notifiers|
            && (a != AdvanceNotifier(t) && !(a.Notify? && a.t == t) ==> s'.notifiers[t] == s.notifiers[t])
  {}

  /** The action is one of notifier `t`. */
  predicate Of(a: Action, t: nat) {
    a == AdvanceNotifier(t) || (a.Notify? && a.t == t)
  }

  /** Notifier `t` takes up the call with step `i`, is busy with it after that, and is idle again at instant `j`. */
  predicate NotifyBetween(run: seq<State>, schedule: seq<Action>, t: nat, info: Info, i: nat, j: nat) {
    && i < j <= |schedule| < |run| && schedule[i] == Notify(t, info) && |info| == INFO_WORDS
    && t < |run[i].notifiers| && run[i].notifiers[t].Idle?
    && (forall m :: i < m < j ==> t < |run[m].notifiers| && !run[m].notifiers[t].Idle?)
    && t < |run[j].notifiers| && run[j].notifiers[t].Idle?
  }

  /** Step `n` is the one with which notifier `t` draws a ticket for `info`. */
  predicate DrawsAt(run: seq<State>, schedule: seq<Action>, t: nat, info: Info, n: nat)
    requires n < |schedule| < |run|
  {
    && schedule[n] == AdvanceNotifier(t) && run[n + 1].nextSeq == run[n].nextSeq + 1
    && run[n + 1].announced == run[n].announced + [info] && run[n + 1].owners == run[n].owners + [t]
  }

  /** In none of its steps from `i` to before `j` other than `n` has notifier `t` drawn a ticket. */
  predicate NoOtherDraw(run: seq<State>, schedule: seq<Action>, t: nat, i: nat, j: nat, n: int)
    requires j <= |schedule| < |run|
  {
    forall m :: i <= m < j && m != n && Of(schedule[m], t) ==>
      run[m + 1].nextSeq == run[m].nextSeq && run[m + 1].announced == run[m].announced
  }

  /** Word `w` of the info has been stored in the slot of ticket `k` by step `m`. */
  predicate StoresWord(run: seq<State>, schedule: seq<Action>, t: nat, k: nat, w: nat, word: nat, m: nat)
    requires m < |schedule| < |run|
  {
    var slot := k % BUF_LENGTH;
    && schedule[m] == AdvanceNotifier(t) && slot < |run[m + 1].infos| && w < |run[m + 1].infos[slot]|
    && run[m + 1].infos[slot][w] == word
  }

  ghost predicate WordStored(
    run: seq<State>, schedule: seq<Action>, t: nat, k: nat, w: nat, word: nat, n: nat, m: nat)
    requires m <= |schedule| < |run|
  {
    exists h :: n < h < m && StoresWord(run, schedule, t, k, w, word, h)
  }

  ghost predicate WordsStored(
    run: seq<State>, schedule: seq<Action>, t: nat, k: nat, info: Info, n: nat, m: nat, w: nat)
    requires m <= |schedule| < |run| && w <= |info|
  {
    forall v :: 0 <= v < w ==> WordStored(run, schedule, t, k, v, info[v], n, m)
  }

  ghost predicate NotifyAt(run: seq<State>, schedule: seq<Action>, t: nat, info: Info, i: nat, m: nat, n: int)
    requires i < m <= |schedule| < |run| && |info| == INFO_WORDS
  {
    && t < |run[m].notifiers| && NoOtherDraw(run, schedule, t, i, m, n)
    && var x := run[m].notifiers[t];
       if n < 0 then x == FetchTicket(info)
       else && i < n < m && DrawsAt(run, schedule, t, info, n)
            && match x
               case WriteInfo(v, k, done) =>
                 v == info && k == run[n].nextSeq && done <= 3 && WordsStored(run, schedule, t, k, info, n, m, done)
               case WriteSeq(v, k) =>
                 v == info && k == run[n].nextSeq && WordsStored(run, schedule, t, k, info, n, m, 3)
               case _ => false
  }

  lemma DrawMoves(s: State, t: nat)
    requires Shape(s) && t < |s.notifiers| && s.notifiers[t].FetchTicket?
    ensures var info, s' := s.notifiers[t].info, NotifierStep(s, t);
            && |s'.notifiers| == |s.notifiers| && s'.notifiers[t] == WriteInfo(info, s.nextSeq, 0)
            && s'.nextSeq == s.nextSeq + 1
            && s'.announced == s.announced + [info] && s'.owners == s.owners + [t]
  {}

  lemma WriteMoves(s: State, t: nat)
    requires Shape(s) && t < |s.notifiers| && s.notifiers[t].WriteInfo?
    ensures var WriteInfo(info, k, done) := s.notifiers[t];
            var s', slot := NotifierStep(s, t), k % BUF_LENGTH;
            && |s'.notifiers| == |s.notifiers| && |info| == INFO_WORDS && |s'.infos| == BUF_LENGTH
            && s'.nextSeq == s.nextSeq && s'.announced == s.announced && |s'.infos[slot]| == INFO_WORDS
            && (if done < INFO_WORDS
                then s'.notifiers[t] == WriteInfo(info, k, done + 1) && s'.infos[slot][done] == info[done]
                else s'.notifiers[t] == WriteSeq(info, k))
  {}

  lemma SeqMoves(s: State, t: nat)
    requires Shape(s) && t < |s.notifiers| && s.notifiers[t].WriteSeq?
    ensures var WriteSeq(info, k) := s.notifiers[t];
            var s' := NotifierStep(s, t);
            && |s'.notifiers| == |s.notifiers| && s'.notifiers[t] == Idle && |s'.seqs| == BUF_LENGTH
            && s'.nextSeq == s.nextSeq && s'.announced == s.announced && s'.seqs[k % BUF_LENGTH] == k
  {}

  lemma WordsStay(
    run: seq<State>, schedule: seq<Action>, t: nat, k: nat, info: Info, n: nat, m: nat, w: nat)
    requires m < |schedule| < |run| && w <= |info| && WordsStored(run, schedule, t, k, info, n, m, w)
    ensures WordsStored(run, schedule, t, k, info, n, m + 1, w)
  {
    forall v | 0 <= v < w
      ensures WordStored(run, schedule, t, k, v, info[v], n, m + 1)
    {
      assert WordStored(run, schedule, t, k, v, info[v], n, m);
    }
  }

  lemma NotifyGoesOn(run: seq<State>, schedule: seq<Action>, t: nat, info: Info, i: nat, m: nat, n: int)
    returns (n': int)
    requires Execution(run, schedule) && |info| == INFO_WORDS
    requires i < m < |schedule| && NotifyAt(run, schedule, t, info, i, m, n)
    requires t < |run[m + 1].notifiers| && !run[m + 1].notifiers[t].Idle?
    ensures NotifyAt(run, schedule, t, info, i, m + 1, n')
  {
    n' := n;
    StepAt(run, schedule, m);
    OthersWait(run[m], schedule[m], t);
    if n < 0 {
      if schedule[m] == AdvanceNotifier(t) {
        DrawMoves(run[m], t);
        n' := m;
      }
    } else {
      WriteGoesOn(run, schedule, t, info, i, m, n);
    }
  }

  lemma WriteGoesOn(run: seq<State>, schedule: seq<Action>, t: nat, info: Info, i: nat, m: nat, n: nat)
    requires Execution(run, schedule) && |info| == INFO_WORDS
    requires i < m < |schedule| && NotifyAt(run, schedule, t, info, i, m, n)
    requires t < |run[m + 1].notifiers| && !run[m + 1].notifiers[t].Idle?
    ensures NotifyAt(run, schedule, t, info, i, m + 1, n)
  {
    StepAt(run, schedule, m);
    OthersWait(run[m], schedule[m], t);
    var x := run[m].notifiers[t];
    WordsStay(run, schedule, t, x.ticket, info, n, m, if x.WriteInfo? then x.done else 3);
    if schedule[m] == AdvanceNotifier(t) {
      if x.WriteInfo? {
        WriteMoves(run[m], t);
        if x.done < INFO_WORDS {
          assert StoresWord(run, schedule, t, x.ticket, x.done, info[x.done], m);
          assert WordStored(run, schedule, t, x.ticket, x.done, info[x.done], n, m + 1);
        }
      } else {
        SeqMoves(run[m], t);
      }
    }
  }

  lemma NotifyReturns(run: seq<State>, schedule: seq<Action>, t: nat, info: Info, i: nat, m: nat, n: int)
    requires Execution(run, schedule) && |info| == INFO_WORDS
    requires i < m < |schedule| && NotifyAt(run, schedule, t, info, i, m, n)
    requires t < |run[m + 1].notifiers| && run[m + 1].notifiers[t].Idle?
    ensures i < n < m && DrawsAt(run, schedule, t, info, n) && NoOtherDraw(run, schedule, t, i, m + 1, n)
    ensures WordsStored(run, schedule, t, run[n].nextSeq, info, n, m, 3)
    ensures var slot := run[n].nextSeq % BUF_LENGTH;
            schedule[m] == AdvanceNotifier(t) && slot < |run[m + 1].seqs| && run[m + 1].seqs[slot] == run[n].nextSeq
  {
    StepAt(run, schedule, m);
    OthersWait(run[m], schedule[m], t);
    if schedule[m] == AdvanceNotifier(t) {
      var x := run[m].notifiers[t];
      if x.FetchTicket? {
        DrawMoves(run[m], t);
      } else if x.WriteInfo? {
        WriteMoves(run[m], t);
      } else {
        SeqMoves(run[m], t);
      }
    }
  }

  /**
   A Notify that has returned has drawn one ticket, for its own info, has then stored each word of it in the slot of
   that ticket, and with its last step the ticket itself.
   */
  lemma NotifyOutcome(run: seq<State>, schedule: seq<Action>, t: nat, info: Info, i: nat, j: nat) returns (n: nat)
    requires Execution(run, schedule) && NotifyBetween(run, schedule, t, info, i, j)
    ensures i < n < j - 1 && DrawsAt(run, schedule, t, info, n) && NoOtherDraw(run, schedule, t, i, j, n)
    ensures WordsStored(run, schedule, t, run[n].nextSeq, info, n, j - 1, 3)
    ensures var slot := run[n].nextSeq % BUF_LENGTH;
            schedule[j - 1] == AdvanceNotifier(t) && slot < |run[j].seqs| && run[j].seqs[slot] == run[n].nextSeq
  {
    StepAt(run, schedule, i);
    var m, drawn := i + 1, -1;
    while m < j - 1
      invariant i < m < j && NotifyAt(run, schedule, t, info, i, m, drawn)
    {
      drawn := NotifyGoesOn(run, schedule, t, info, i, m, drawn);
      m := m + 1;
    }
    NotifyReturns(run, schedule, t, info, i, m, drawn);
    n := drawn;
  }

  // ----- joining

  /** A listener that has joined stays, and so does the ticket it began with. */
  lemma ListenerStays(s: State, a: Action, l: nat)
    requires Shape(s) && l < |s.listeners| && !s.listeners[l].at.Absent?
    ensures var s' := Step(s, a);
            && |s'.listeners| == |s.listeners| && !s'.listeners[l].at.Absent?
            && s'.listeners[l].origin == s.listeners[l].origin
  {}

  lemma {:induction false} JoinedSince(run: seq<State>, schedule: seq<Action>, l: nat, i: nat, j: nat)
    requires Execution(run, schedule) && i < j <= |schedule| && schedule[i] == Join(l)
    requires l < |run[i].listeners| && run[i].listeners[l].at.Absent?
    ensures l < |run[j].listeners| && !run[j].listeners[l].at.Absent?
    ensures run[j].listeners[l].origin == run[i].nextSeq
    decreases j
  {
    StepAt(run, schedule, j - 1);
    if i < j - 1 {
      JoinedSince(run, schedule, l, i, j - 1);
      ListenerStays(run[j - 1], schedule[j - 1], l);
    }
  }

  lemma {:induction false} InvAt(run: seq<State>, schedule: seq<Action>, i: nat)
    requires Execution(run, schedule) && i < |run| && Inv(run[0])
    ensures Inv(run[i])
    decreases i
  {
    if i > 0 {
      InvAt(run, schedule, i - 1);
      StepAt(run, schedule, i - 1);
      StepKeepsInv(run[i - 1], schedule[i - 1]);
    }
  }

  /**
   A listener begins with the first ticket drawn after it joined: it expects that one first, and every ticket it is
   delivered has been drawn since.
   */
  lemma OnlyNewTickets(run: seq<State>, schedule: seq<Action>, l: nat, i: nat, j: nat)
    requires Execution(run, schedule) && Inv(run[0]) && i < j <= |schedule| && schedule[i] == Join(l)
    requires l < |run[i].listeners| && run[i].listeners[l].at.Absent?
    ensures l < |run[j].listeners|
    ensures var x := run[j].listeners[l];
            && Expected(x.origin, x.delivered, 0) == run[i].nextSeq <= x.cursor
            && forall d :: 0 <= d < |x.delivered| ==> run[i].nextSeq <= x.delivered[d].ticket < run[j].nextSeq
  {
    JoinedSince(run, schedule, l, i, j);
    InvAt(run, schedule, j);
    var x := run[j].listeners[l];
    assert ListenerOk(run[j], x);
    Increasing(x.origin, x.delivered);
  }

  // ----- polling

  /**
   A poll leaves the listener where it is, without a delivery, exactly if nothing has been announced since its
   cursor or its slot still holds an older ticket; otherwise it goes on to copy the slot.
   */
  lemma PollOutcome(s: State, x: Listener)
    requires Shape(s) && x.at.Waiting?
    ensures var y := Listen(s, x, 2);
            && y.delivered == x.delivered && y.origin == x.origin
            && if s.nextSeq == x.cursor || s.seqs[x.cursor % BUF_LENGTH] < x.cursor then y == x
               else y.at == ReadInfo([]) && y.cursor == s.seqs[x.cursor % BUF_LENGTH]
  {
    assert Listen(s, x, 1) == ListenerStep(s, x);
  }
}
