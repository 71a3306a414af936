/** What every run of the lock of base/atomic_rw_lock.h promises: exclusion, bounded overtaking, no deadlock. */
module AtomicRWLockProperties {
  import opened Counting
  import opened AtomicRWLockProtocol

  // ----- exclusion

  /**
   In every run the lock is -1 with exactly one writer and no reader, or the number of readers with no writer,
   and the other counter is the number of writers that have announced themselves and not taken that back.
   */
  lemma LockCounts(writeFirst: bool, threads: nat, schedule: seq<Action>)
    ensures var s := Run(Init(writeFirst, threads), schedule);
            && (s.lockNum < 0 <==> Writers(s) == 1) && (s.lockNum < 0 ==> s.lockNum == -1 && Readers(s) == 0)
            && (s.lockNum >= 0 ==> s.lockNum == Readers(s) && Writers(s) == 0)
            && s.writeWaiters == Count(s.threads, Announced)
  {
    InitInv(writeFirst, threads);
    RunKeepsInv(Init(writeFirst, threads), schedule);
  }

  /** In every run at most one thread is writing, and none is reading meanwhile. */
  lemma WritersExclude(writeFirst: bool, threads: nat, schedule: seq<Action>, t: nat, u: nat)
    requires var s := Run(Init(writeFirst, threads), schedule);
             t < |s.threads| && u < |s.threads| && t != u && s.threads[t].Writing?
    ensures var s := Run(Init(writeFirst, threads), schedule);
            && s.lockNum == -1
            && !s.threads[u].Reading? && !s.threads[u].Writing?
  {
    InitInv(writeFirst, threads);
    RunKeepsInv(Init(writeFirst, threads), schedule);
    var s := Run(Init(writeFirst, threads), schedule);
    CountsAt(s, t);
    CountsAt(s, u);
    if s.threads[u].Writing? {
      if t < u { CountTwo(s.threads, HoldsWrite, t, u); } else { CountTwo(s.threads, HoldsWrite, u, t); }
    }
  }

  // ----- bounded overtaking of an announced writer

  predicate Acquires(s: State, a: Action) {
    && a.thread < |s.threads| && s.threads[a.thread].ReadCas?
    && a.thread < |Step(s, a.thread, a.event).threads| && Step(s, a.thread, a.event).threads[a.thread].Reading?
  }

  /** How many times the lock is taken for reading in the course of a schedule. */
  function Acquisitions(s: State, schedule: seq<Action>): nat
    decreases |schedule|
  {
    if schedule == [] then 0
    else
      var n := |schedule| - 1;
      Acquisitions(s, schedule[..n]) + B2N(Acquires(Run(s, schedule[..n]), schedule[n]))
  }

  /** The writer has announced itself and does not have the lock yet. */
  predicate WaitingAt(s: State, schedule: seq<Action>, w: nat, i: nat)
    requires i <= |schedule|
  {
    var now := Run(s, schedule[..i]);
    w < |now.threads| && now.threads[w].WriteCas?
  }

  /** While a writer waits, no reader newly passes the check, and one that takes the lock uses its pass up. */
  lemma StepUsesUpPasses(s: State, w: nat, a: Action)
    requires Inv(s) && s.writeFirst && w < |s.threads| && s.threads[w].WriteCas?
    ensures var s' := Step(s, a.thread, a.event);
            && s'.writeFirst && |s'.threads| == |s.threads|
            && PassedReaders(s') + B2N(Acquires(s, a)) <= PassedReaders(s)
            && (forall t :: 0 <= t < |s.threads| && Passed(s'.threads[t]) ==> Passed(s.threads[t]))
  {
    CountsAt(s, w);
    if a.thread < |s.threads| {
      ThreadUsesUpPass(s, a);
      CountUpdate(s.threads, Passed, a.thread, Step(s, a.thread, a.event).threads[a.thread]);
    }
  }

  lemma ThreadUsesUpPass(s: State, a: Action)
    requires s.writeFirst && 0 < s.writeWaiters && a.thread < |s.threads|
    ensures var l, s' := s.threads[a.thread], Step(s, a.thread, a.event);
            && s'.writeFirst && |s'.threads| == |s.threads| && s'.threads == s.threads[a.thread := s'.threads[a.thread]]
            && B2N(Passed(s'.threads[a.thread])) + B2N(Acquires(s, a)) <= B2N(Passed(l))
  {}

  /**
   With write_first_, from a writer's announcement until its own successful CAS the lock is taken for
   reading at most once by each reader that had already passed the check when the writer announced
   itself, and by nobody else.
   */
  lemma {:induction false} BoundedOvertaking(s: State, schedule: seq<Action>, w: nat)
    requires Inv(s) && s.writeFirst
    requires forall i :: 0 <= i < |schedule| ==> WaitingAt(s, schedule, w, i)
    ensures var s' := Run(s, schedule);
            && |s'.threads| == |s.threads| && s'.writeFirst
            && Acquisitions(s, schedule) + PassedReaders(s') <= PassedReaders(s)
            && (forall t :: 0 <= t < |s.threads| && Passed(s'.threads[t]) ==> Passed(s.threads[t]))
    decreases |schedule|
  {
    if schedule != [] {
      var n := |schedule| - 1;
      var before := schedule[..n];
      forall i | 0 <= i < n
        ensures WaitingAt(s, before, w, i)
      {
        assert before[..i] == schedule[..i];
        assert WaitingAt(s, schedule, w, i);
      }
      BoundedOvertaking(s, before, w);
      RunKeepsInv(s, before);
      assert WaitingAt(s, schedule, w, n);
      StepUsesUpPasses(Run(s, before), w, schedule[n]);
    }
  }

  lemma RunSnoc(s: State, schedule: seq<Action>, a: Action)
    ensures Run(s, schedule + [a]) == Step(Run(s, schedule), a.thread, a.event)
    ensures Acquisitions(s, schedule + [a]) == Acquisitions(s, schedule) + B2N(Acquires(Run(s, schedule), a))
  {
    assert (schedule + [a])[..|schedule|] == schedule;
  }

  /** The writer, thread 0, tries and fails while reader `a` holds the lock and reader `b` does not. */
  function Overtaken(a: nat): State {
    State(false, 1, 1, [WriteCas, if a == 1 then Reading else Idle, if a == 1 then Idle else Reading])
  }

  /** The writer is waiting at every instant of a run. */
  ghost predicate WaitsThroughout(s: State, schedule: seq<Action>, w: nat) {
    forall i :: 0 <= i <= |schedule| ==> WaitingAt(s, schedule, w, i)
  }

  lemma StillWaiting(s: State, schedule: seq<Action>, a: Action, w: nat)
    requires WaitsThroughout(s, schedule, w)
    requires w < |Run(s, schedule + [a]).threads| && Run(s, schedule + [a]).threads[w].WriteCas?
    ensures WaitsThroughout(s, schedule + [a], w)
  {
    var longer := schedule + [a];
    forall i | 0 <= i <= |longer|
      ensures WaitingAt(s, longer, w, i)
    {
      if i <= |schedule| {
        assert WaitingAt(s, schedule, w, i);
        assert longer[..i] == schedule[..i];
      } else {
        assert longer[..i] == longer;
      }
    }
  }

  predicate Leads(from: State, a: Action, to: State) {
    Step(from, a.thread, a.event) == to
  }

  /** The actions lead from each state to the next. */
  predicate Path(states: seq<State>, actions: seq<Action>) {
    |states| == |actions| + 1 && forall i :: 0 <= i < |actions| ==> Leads(states[i], actions[i], states[i + 1])
  }

  /** A run continued along given states. */
  lemma {:induction false} Follow(s: State, schedule: seq<Action>, states: seq<State>, actions: seq<Action>, n: nat)
    requires Path(states, actions) && Run(s, schedule) == states[0] && n <= |actions|
    ensures Run(s, schedule + actions[..n]) == states[n]
  {
    if n == 0 {
      assert schedule + actions[..0] == schedule;
    } else {
      Follow(s, schedule, states, actions, n - 1);
      assert Leads(states[n - 1], actions[n - 1], states[n - 1 + 1]);
      OneMore(s, schedule, actions, n);
    }
  }

  lemma OneMore(s: State, schedule: seq<Action>, actions: seq<Action>, n: nat)
    requires 0 < n <= |actions|
    ensures var before, a := schedule + actions[..n - 1], actions[n - 1];
            && schedule + actions[..n] == before + [a]
            && Run(s, schedule + actions[..n]) == Step(Run(s, before), a.thread, a.event)
            && Acquisitions(s, schedule + actions[..n]) == Acquisitions(s, before) + B2N(Acquires(Run(s, before), a))
  {
    assert schedule + actions[..n] == schedule + actions[..n - 1] + [actions[n - 1]];
    RunSnoc(s, schedule + actions[..n - 1], actions[n - 1]);
  }

  /** The lock is taken for reading by the action at `at` only. */
  lemma {:induction false} AcquisitionsAlong(
    s: State, schedule: seq<Action>, states: seq<State>, actions: seq<Action>, at: nat, n: nat)
    requires Path(states, actions) && Run(s, schedule) == states[0] && n <= |actions|
    requires forall i :: 0 <= i < |actions| ==> (Acquires(states[i], actions[i]) <==> i == at)
    ensures Acquisitions(s, schedule + actions[..n]) == Acquisitions(s, schedule) + B2N(at < n)
  {
    if n == 0 {
      assert schedule + actions[..0] == schedule;
    } else {
      AcquisitionsAlong(s, schedule, states, actions, at, n - 1);
      Follow(s, schedule, states, actions, n - 1);
      OneMore(s, schedule, actions, n);
    }
  }

  /** The writer, thread 0, is waiting in all the states. */
  lemma {:induction false} WaitsAlong(s: State, schedule: seq<Action>, states: seq<State>, actions: seq<Action>, n: nat)
    requires Path(states, actions) && Run(s, schedule) == states[0] && n <= |actions|
    requires WaitsThroughout(s, schedule, 0)
    requires forall i :: 0 <= i < |states| ==> 0 < |states[i].threads| && states[i].threads[0].WriteCas?
    ensures WaitsThroughout(s, schedule + actions[..n], 0)
  {
    if n == 0 {
      assert schedule + actions[..0] == schedule;
    } else {
      WaitsAlong(s, schedule, states, actions, n - 1);
      Follow(s, schedule, states, actions, n);
      OneMore(s, schedule, actions, n);
      StillWaiting(s, schedule + actions[..n - 1], actions[n - 1], 0);
    }
  }

  /** One more reader, `b`, gets in before `a` gets out, and the writer tries in vain. */
  function Lap(b: nat, a: nat): seq<Action> {
    [Action(b, ReadLock), Action(b, Advance(false)), Action(b, Advance(false)), Action(b, Advance(false)),
     Action(a, Unlock), Action(0, Advance(false))]
  }

  function LapStates(b: nat, a: nat): seq<State>
    requires (a == 1 && b == 2) || (a == 2 && b == 1)
  {
    var now := Overtaken(a);
    [now, Goto(now, b, ReadLoad), Goto(now, b, ReadCheck(1)), Goto(now, b, ReadCas(1)),
     Goto(now, b, Reading).(lockNum := 2), Overtaken(b), Overtaken(b)]
  }

  lemma LapLeads(b: nat, a: nat, i: nat)
    requires (a == 1 && b == 2) || (a == 2 && b == 1)
    requires i < 6
    ensures Leads(LapStates(b, a)[i], Lap(b, a)[i], LapStates(b, a)[i + 1])
  {}

  lemma LapAcquires(b: nat, a: nat, i: nat)
    requires (a == 1 && b == 2) || (a == 2 && b == 1)
    requires i < 6
    ensures Acquires(LapStates(b, a)[i], Lap(b, a)[i]) <==> i == 3
  {}

  /** Actions that lead along states in which the writer waits, the `at`-th alone taking the lock for reading. */
  predicate OneOvertaking(states: seq<State>, actions: seq<Action>, at: nat) {
    && Path(states, actions) && at < |actions|
    && (forall i :: 0 <= i < |states| ==> 0 < |states[i].threads| && states[i].threads[0].WriteCas?)
    && (forall i :: 0 <= i < |actions| ==> (Acquires(states[i], actions[i]) <==> i == at))
  }

  lemma LapOvertakes(b: nat, a: nat)
    requires (a == 1 && b == 2) || (a == 2 && b == 1)
    ensures OneOvertaking(LapStates(b, a), Lap(b, a), 3)
    ensures LapStates(b, a)[0] == Overtaken(a) && LapStates(b, a)[|Lap(b, a)|] == Overtaken(b)
  {
    forall i | 0 <= i < 6
      ensures Leads(LapStates(b, a)[i], Lap(b, a)[i], LapStates(b, a)[i + 1])
      ensures Acquires(LapStates(b, a)[i], Lap(b, a)[i]) <==> i == 3
    {
      LapLeads(b, a, i);
      LapAcquires(b, a, i);
    }
  }

  lemma OvertakeAlong(s: State, schedule: seq<Action>, states: seq<State>, actions: seq<Action>, at: nat)
    requires OneOvertaking(states, actions, at) && Run(s, schedule) == states[0] && WaitsThroughout(s, schedule, 0)
    ensures Run(s, schedule + actions) == states[|actions|] && WaitsThroughout(s, schedule + actions, 0)
    ensures Acquisitions(s, schedule + actions) == Acquisitions(s, schedule) + 1
  {
    var n := |actions|;
    assert actions[..n] == actions;
    Follow(s, schedule, states, actions, n);
    AcquisitionsAlong(s, schedule, states, actions, at, n);
    WaitsAlong(s, schedule, states, actions, n);
  }

  lemma OvertakeOnce(s: State, schedule: seq<Action>, a: nat) returns (longer: seq<Action>)
    requires (a == 1 || a == 2) && Run(s, schedule) == Overtaken(a) && WaitsThroughout(s, schedule, 0)
    ensures Run(s, longer) == Overtaken(3 - a) && WaitsThroughout(s, longer, 0)
    ensures Acquisitions(s, longer) == Acquisitions(s, schedule) + 1
  {
    LapOvertakes(3 - a, a);
    OvertakeAlong(s, schedule, LapStates(3 - a, a), Lap(3 - a, a), 3);
    longer := schedule + Lap(3 - a, a);
  }

  /** Reader 1 takes the lock, then the writer announces itself. */
  lemma ReachOvertaken() returns (start: seq<Action>)
    ensures Run(Init(false, 3), start) == Overtaken(1)
  {
    var s0 := Init(false, 3);
    var step := Action(1, Advance(false));
    start := [Action(1, ReadLock), step, step, step, Action(0, WriteLock), Action(0, Advance(false))];
    var held := Goto(s0, 1, Reading).(lockNum := 1);
    var states := [s0, Goto(s0, 1, ReadLoad), Goto(s0, 1, ReadCheck(0)), Goto(s0, 1, ReadCas(0)),
                   held, Goto(held, 0, WriteAnnounce), Overtaken(1)];
    forall i | 0 <= i < 6
      ensures Leads(states[i], start[i], states[i + 1])
    {}
    assert [] + start[..6] == start;
    Follow(s0, [], states, start, 6);
  }

  /** Without write_first_ a waiting writer that keeps trying can be overtaken any number of times. */
  lemma UnboundedWithoutWriteFirst(n: nat) returns (start: seq<Action>, schedule: seq<Action>)
    ensures var s := Run(Init(false, 3), start);
            Inv(s) && WaitsThroughout(s, schedule, 0) && Acquisitions(s, schedule) == n
  {
    InitInv(false, 3);
    start := ReachOvertaken();
    RunKeepsInv(Init(false, 3), start);
    schedule := KeepOvertaking(n);
  }

  lemma KeepOvertaking(n: nat) returns (schedule: seq<Action>)
    ensures WaitsThroughout(Overtaken(1), schedule, 0) && Acquisitions(Overtaken(1), schedule) == n
  {
    var s, a := Overtaken(1), 1;
    schedule := [];
    assert schedule[..0] == [];
    for i := 0 to n
      invariant (a == 1 || a == 2) && Run(s, schedule) == Overtaken(a)
      invariant Acquisitions(s, schedule) == i && WaitsThroughout(s, schedule, 0)
    {
      schedule := OvertakeOnce(s, schedule, a);
      a := 3 - a;
    }
  }

  // ----- no deadlock

  lemma CountWitness(s: State) returns (t: nat)
    requires Inv(s) && s.lockNum != 0
    ensures t < |s.threads| && (if s.lockNum > 0 then s.threads[t].Reading? else HoldsWrite(s.threads[t]))
  {
    CountNone(s.threads, HoldsRead);
    CountNone(s.threads, HoldsWrite);
    if s.lockNum > 0 {
      t :| t < |s.threads| && s.threads[t].Reading?;
    } else {
      t :| t < |s.threads| && HoldsWrite(s.threads[t]);
    }
  }

  /** From every reachable state there is a continuation in which a given waiting writer gets the lock. */
  lemma {:induction false} WaitingWriterCanGetLock(s: State, w: nat) returns (schedule: seq<Action>)
    requires Inv(s) && w < |s.threads| && s.threads[w].WriteCas?
    ensures w < |Run(s, schedule).threads| && Run(s, schedule).threads[w].WriteRetract?
    decreases Readers(s) + Writers(s), Count(s.threads, Announced)
  {
    if s.lockNum == 0 {
      schedule := [Action(w, Advance(false))];
      RunSnoc(s, [], schedule[0]);
      assert [] + schedule == schedule;
    } else {
      var t := CountWitness(s);
      var a := Action(t, if s.threads[t].WriteRetract? then Advance(false) else Unlock);
      var s1 := Step(s, t, a.event);
      StepKeepsInv(s, t, a.event);
      CountsAfter(s, t, s1.threads[t]);
      var rest := WaitingWriterCanGetLock(s1, w);
      schedule := [a] + rest;
      RunCons(s, a, rest);
    }
  }

  lemma {:induction false} RunCons(s: State, a: Action, rest: seq<Action>)
    ensures Run(s, [a] + rest) == Run(Step(s, a.thread, a.event), rest)
    decreases |rest|
  {
    if rest == [] {
      assert [a] + rest == [] + [a];
      RunSnoc(s, [], a);
    } else {
      var n := |rest| - 1;
      RunCons(s, a, rest[..n]);
      assert [a] + rest == ([a] + rest[..n]) + [rest[n]];
      RunSnoc(s, [a] + rest[..n], rest[n]);
      assert rest == rest[..n] + [rest[n]];
      RunSnoc(Step(s, a.thread, a.event), rest[..n], rest[n]);
    }
  }
}
