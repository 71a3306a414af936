/** That the lock of base/atomic_rw_lock.h is given: at once if nobody is in the way, and to every reader in the end. */
module AtomicRWLockProgress {
  import opened Counting
  import opened AtomicRWLockProtocol
  import opened AtomicRWLockProperties
  import opened AtomicRWLockCalls

  /** A reader can pass: no writer holds the lock, and none waits that it must give way to. */
  predicate OpenToReaders(s: State) {
    0 <= s.lockNum && !(s.writeFirst && WriterWaits(s))
  }

  /** How many steps of its own a reader is away from the lock when nobody is in the way. */
  function StepsToRead(s: State, l: Thread): nat {
    match l
    case ReadLoad => 3
    case ReadCheck(seen) => if seen == s.lockNum then 2 else 4
    case ReadCas(seen) => if seen == s.lockNum then 1 else 3
    case _ => 0
  }

  lemma ReaderAdvances(s: State, t: nat)
    requires Inv(s) && t < |s.threads| && TakingRead(s.threads[t]) && OpenToReaders(s)
    ensures var s' := Step(s, t, Advance(false));
            && Inv(s') && |s'.threads| == |s.threads|
            && (if TakingRead(s'.threads[t])
                then && s' == Goto(s, t, s'.threads[t]) && OpenToReaders(s')
                     && StepsToRead(s', s'.threads[t]) < StepsToRead(s, s.threads[t])
                else s' == Goto(s, t, Reading).(lockNum := s.lockNum + 1))
  {
    var s' := Step(s, t, Advance(false));
    StepKeepsInv(s, t, Advance(false));
    WaitersCount(s);
    WaitersCount(s');
  }

  /** A schedule in which only thread `t` takes steps. */
  predicate Alone(schedule: seq<Action>, t: nat) {
    forall i :: 0 <= i < |schedule| ==> schedule[i] == Action(t, Advance(false))
  }

  /** From wherever it is in the call, a reader that nobody is in the way of has the lock within four steps. */
  lemma {:induction false} ReadLockAlone(s: State, t: nat) returns (schedule: seq<Action>)
    requires Inv(s) && t < |s.threads| && TakingRead(s.threads[t]) && OpenToReaders(s)
    ensures |schedule| <= StepsToRead(s, s.threads[t]) <= 4 && Alone(schedule, t)
    ensures Run(s, schedule) == Goto(s, t, Reading).(lockNum := s.lockNum + 1)
    decreases StepsToRead(s, s.threads[t])
  {
    var a := Action(t, Advance(false));
    var s' := Step(s, t, Advance(false));
    ReaderAdvances(s, t);
    if TakingRead(s'.threads[t]) {
      schedule := ReadLockAlone(s', t);
    } else {
      schedule := [];
      assert Run(s', []) == s';
    }
    RunCons(s, a, schedule);
    schedule := [a] + schedule;
    assert s.threads[t := s'.threads[t]][t := Reading] == s.threads[t := Reading];
  }

  /** The call and three steps take the lock for reading. */
  lemma ReadLockFromIdle(s: State, t: nat) returns (schedule: seq<Action>)
    requires Inv(s) && t < |s.threads| && s.threads[t].Idle? && OpenToReaders(s)
    ensures |schedule| <= 4 && schedule != [] && schedule[0] == Action(t, ReadLock) && Alone(schedule[1..], t)
    ensures Run(s, schedule) == Goto(s, t, Reading).(lockNum := s.lockNum + 1)
  {
    var a := Action(t, ReadLock);
    var s' := Step(s, t, ReadLock);
    StepKeepsInv(s, t, ReadLock);
    WaitersCount(s);
    WaitersCount(s');
    var rest := ReadLockAlone(s', t);
    RunCons(s, a, rest);
    schedule := [a] + rest;
    assert s.threads[t := ReadLoad][t := Reading] == s.threads[t := Reading];
  }

  /** Three steps after the call take a free lock for writing. */
  lemma WriteLockFromIdle(s: State, t: nat) returns (schedule: seq<Action>)
    requires Inv(s) && t < |s.threads| && s.threads[t].Idle? && s.lockNum == 0
    ensures |schedule| == 4 && schedule[0] == Action(t, WriteLock) && Alone(schedule[1..], t)
    ensures Run(s, schedule) == Goto(s, t, Writing).(lockNum := -1)
  {
    var e := Advance(false);
    var a := Action(t, e);
    var s1 := Step(s, t, WriteLock);
    var s2 := Step(s1, t, e);
    var s3 := Step(s2, t, e);
    var s4 := Step(s3, t, e);
    assert s4.threads == s.threads[t := Writing] && s4.lockNum == -1 && s4.writeWaiters == s.writeWaiters;
    assert Run(s4, []) == s4;
    RunCons(s3, a, []);
    RunCons(s2, a, [a]);
    RunCons(s1, a, [a, a]);
    RunCons(s, Action(t, WriteLock), [a, a, a]);
    assert [a] + [] == [a] && [a] + [a] == [a, a] && [a] + [a, a] == [a, a, a];
    schedule := [Action(t, WriteLock)] + [a, a, a];
  }

  // ----- every reader in the end

  predicate AtCas(l: Thread) { l.WriteCas? }

  /** How much the holders and the waiting writers have left to do. */
  function Work(s: State): nat {
    Readers(s) + Writers(s) + Count(s.threads, Announced) + 3 * Count(s.threads, AtCas)
  }

  /** A thread whose next step helps: one that holds the lock, or else one that waits to write. */
  lemma Helper(s: State) returns (u: nat, e: Event)
    requires Inv(s) && (s.lockNum != 0 || WriterWaits(s))
    ensures u < |s.threads| && !TakingRead(s.threads[u]) && !s.threads[u].Idle?
    ensures Inv(Step(s, u, e)) && Work(Step(s, u, e)) < Work(s)
  {
    if s.lockNum != 0 {
      u := CountWitness(s);
      e := if s.threads[u].WriteRetract? then Advance(false) else Unlock;
    } else {
      u :| u < |s.threads| && Announced(s.threads[u]);
      CountsAt(s, u);
      e := Advance(false);
    }
    var s' := Step(s, u, e);
    StepKeepsInv(s, u, e);
    CountsAfter(s, u, s'.threads[u]);
    CountUpdate(s.threads, AtCas, u, s'.threads[u]);
  }

  /** From every reachable state there is a continuation in which a given reader gets the lock. */
  lemma {:induction false} ReaderCanGetLock(s: State, t: nat) returns (schedule: seq<Action>)
    requires Inv(s) && t < |s.threads| && TakingRead(s.threads[t])
    ensures t < |Run(s, schedule).threads| && Run(s, schedule).threads[t] == Reading
    decreases Work(s)
  {
    if s.lockNum == 0 && !WriterWaits(s) {
      schedule := ReadLockAlone(s, t);
    } else {
      var u, e := Helper(s);
      OthersWait(s, Action(u, e), t);
      schedule := ReaderCanGetLock(Step(s, u, e), t);
      RunCons(s, Action(u, e), schedule);
      schedule := [Action(u, e)] + schedule;
    }
  }
}
