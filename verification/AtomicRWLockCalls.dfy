/** That ReadLock and WriteLock of base/atomic_rw_lock.h end with the lock, and when. */
module AtomicRWLockCalls {
  import Runs
  import opened Counting
  import opened AtomicRWLockProtocol
  import opened AtomicRWLockProperties

  ghost predicate Follows(s: State, a: Action, s': State) {
    Inv(s) && s' == Step(s, a.thread, a.event)
  }

  /** A run. That the invariant holds at each instant of it is no restriction (EveryScheduleRuns). */
  ghost predicate Execution(run: seq<State>, schedule: seq<Action>) {
    Runs.Execution<State, Action>(Inv, Follows, run, schedule)
  }

  lemma StepAt(run: seq<State>, schedule: seq<Action>, i: nat)
    requires Execution(run, schedule) && i < |schedule|
    ensures Inv(run[i]) && run[i + 1] == Step(run[i], schedule[i].thread, schedule[i].event)
  {
    assert Runs.StepsTo<State, Action>(Follows, run, schedule, i);
  }

  /** Every schedule can be run, from any state with the invariant, and never leaves it. */
  lemma EveryScheduleRuns(s: State, schedule: seq<Action>) returns (run: seq<State>)
    requires Inv(s)
    ensures Execution(run, schedule) && run[0] == s
  {
    forall s: State, a: Action | Inv(s)
      ensures Runs.CanStep<State, Action>(Inv, Follows, s, a)
    {
      StepKeepsInv(s, a.thread, a.event);
      assert Follows(s, a, Step(s, a.thread, a.event));
    }
    run := Runs.EveryScheduleRuns<State, Action>(Inv, Follows, s, schedule);
  }

  // ----- the test a reader makes

  /** Somebody has announced that it waits for the lock to write. */
  predicate WriterWaits(s: State) {
    exists u :: 0 <= u < |s.threads| && Announced(s.threads[u])
  }

  lemma WaitersCount(s: State)
    requires Inv(s)
    ensures 0 <= s.writeWaiters && (0 < s.writeWaiters <==> WriterWaits(s))
  {
    CountNone(s.threads, Announced);
  }

  /**
   A reader passes the test exactly if no writer held the lock when it was loaded and, with write_first_, none is
   waiting now; otherwise it loads the lock again.
   */
  lemma ReadTestExact(s: State, t: nat, spurious: bool)
    requires Inv(s) && t < |s.threads| && s.threads[t].ReadCheck?
    ensures var seen := s.threads[t].seen;
            Step(s, t, Advance(spurious)) ==
            if 0 <= seen && !(s.writeFirst && WriterWaits(s)) then Goto(s, t, ReadCas(seen)) else Goto(s, t, ReadLoad)
  {
    WaitersCount(s);
  }

  /** A compare-exchange takes the lock exactly if it finds what it expects and does not fail spuriously. */
  lemma CasExact(s: State, t: nat, spurious: bool)
    requires Inv(s) && t < |s.threads| && (s.threads[t].ReadCas? || s.threads[t].WriteCas?)
    ensures var s' := Step(s, t, Advance(spurious));
            && t < |s'.threads|
            && (if s.threads[t].ReadCas?
                then && (s'.threads[t] == Reading <==> !spurious && s.lockNum == s.threads[t].seen)
                     && s'.lockNum == if s'.threads[t] == Reading then s.lockNum + 1 else s.lockNum
                else && (s'.threads[t] == WriteRetract <==> !spurious && s.lockNum == 0)
                     && s'.lockNum == if s'.threads[t] == WriteRetract then -1 else s.lockNum)
  {}

  // ----- whole calls

  /** In a call of ReadLock. */
  predicate TakingRead(l: Thread) {
    l.ReadLoad? || l.ReadCheck? || l.ReadCas?
  }

  /** In a call of WriteLock. */
  predicate TakingWrite(l: Thread) {
    l.WriteAnnounce? || l.WriteCas? || l.WriteRetract?
  }

  /** Thread `t` is in the call at every instant after `i` and before `j`, and at `j` no more. */
  predicate CallBetween(
    run: seq<State>, schedule: seq<Action>, t: nat, call: Event, taking: Thread -> bool, i: nat, j: nat)
  {
    && i < j <= |schedule| < |run| && schedule[i] == Action(t, call) && t < |run[i].threads| && run[i].threads[t].Idle?
    && (forall m :: i < m < j ==> t < |run[m].threads| && taking(run[m].threads[t]))
    && t < |run[j].threads| && !taking(run[j].threads[t])
  }

  predicate SameLock(s: State, s': State) {
    s'.lockNum == s.lockNum && s'.writeWaiters == s.writeWaiters
  }

  /** No step of thread `t` from the `i`-th to before the `j`-th has changed the lock. */
  predicate Untouched(run: seq<State>, schedule: seq<Action>, t: nat, i: nat, j: nat)
    requires j <= |schedule| < |run|
  {
    forall m :: i <= m < j && schedule[m].thread == t ==> SameLock(run[m], run[m + 1])
  }

  lemma OthersWait(s: State, a: Action, t: nat)
    requires t < |s.threads|
    ensures var s' := Step(s, a.thread, a.event);
            |s'.threads| == |s.threads| && (a.thread != t ==> s'.threads[t] == s.threads[t])
  {}

  lemma TakingReadStep(s: State, t: nat, e: Event)
    requires Inv(s) && t < |s.threads| && TakingRead(s.threads[t])
    ensures var s' := Step(s, t, e);
            && t < |s'.threads|
            && if TakingRead(s'.threads[t]) then SameLock(s, s')
               else s'.threads[t] == Reading && 0 <= s.lockNum && s' == Goto(s, t, Reading).(lockNum := s.lockNum + 1)
  {}

  /** A ReadLock that is over has the lock, and its last step has counted it; before that it has changed nothing. */
  lemma ReadLockOutcome(run: seq<State>, schedule: seq<Action>, t: nat, i: nat, j: nat)
    requires Execution(run, schedule) && CallBetween(run, schedule, t, ReadLock, TakingRead, i, j)
    ensures run[j].threads[t] == Reading && schedule[j - 1].thread == t
    ensures Untouched(run, schedule, t, i, j - 1)
    ensures 0 <= run[j - 1].lockNum && run[j].lockNum == run[j - 1].lockNum + 1
    ensures run[j].writeWaiters == run[j - 1].writeWaiters
  {
    StepAt(run, schedule, i);
    forall m | i < m < j
      ensures schedule[m].thread == t && m < j - 1 ==> SameLock(run[m], run[m + 1])
    {
      StepAt(run, schedule, m);
      if schedule[m].thread == t {
        TakingReadStep(run[m], t, schedule[m].event);
      }
    }
    StepAt(run, schedule, j - 1);
    OthersWait(run[j - 1], schedule[j - 1], t);
    TakingReadStep(run[j - 1], t, schedule[j - 1].event);
  }

  /** The announcement, the successful CAS on the free lock, or the end of the announcement. */
  predicate PhaseEnds(s: State, s': State, t: nat) {
    && t < |s.threads|
    && if s.threads[t].WriteAnnounce? then s' == Goto(s, t, WriteCas).(writeWaiters := s.writeWaiters + 1)
       else if s.threads[t].WriteCas? then s.lockNum == 0 && s' == Goto(s, t, WriteRetract).(lockNum := -1)
       else s' == Goto(s, t, Writing).(writeWaiters := s.writeWaiters - 1)
  }

  lemma TakingWriteStep(s: State, t: nat, e: Event)
    requires Inv(s) && t < |s.threads| && TakingWrite(s.threads[t])
    ensures var l, s' := s.threads[t], Step(s, t, e);
            && t < |s'.threads|
            && if s'.threads[t] == l then SameLock(s, s') else PhaseEnds(s, s', t)
  {}

  /** Step `n` is the one with which thread `t` goes from `l` to `l'`. */
  predicate MovesAt(run: seq<State>, schedule: seq<Action>, t: nat, n: nat, l: Thread, l': Thread)
    requires n < |schedule| < |run|
  {
    && schedule[n].thread == t && t < |run[n].threads| && t < |run[n + 1].threads|
    && run[n].threads[t] == l && run[n + 1].threads[t] == l'
  }

  /** A WriteLock that is over has the lock: it has announced itself, taken the lock when it was free, and retracted. */
  lemma WriteLockOutcome(run: seq<State>, schedule: seq<Action>, t: nat, i: nat, j: nat) returns (n: nat, k: nat)
    requires Execution(run, schedule) && CallBetween(run, schedule, t, WriteLock, TakingWrite, i, j)
    ensures i < n < k < j - 1 && run[j].threads[t] == Writing
    ensures MovesAt(run, schedule, t, n, WriteAnnounce, WriteCas) && run[n + 1].writeWaiters == run[n].writeWaiters + 1
    ensures MovesAt(run, schedule, t, k, WriteCas, WriteRetract) && run[k].lockNum == 0 && run[k + 1].lockNum == -1
    ensures MovesAt(run, schedule, t, j - 1, WriteRetract, Writing)
    ensures run[j].writeWaiters == run[j - 1].writeWaiters - 1
    ensures forall m :: i <= m < j && schedule[m].thread == t && m != n && m != k && m != j - 1 ==>
              SameLock(run[m], run[m + 1])
  {
    StepAt(run, schedule, i);
    n := StaysUntil(run, schedule, t, i + 1, j, WriteAnnounce);
    k := StaysUntil(run, schedule, t, n + 1, j, WriteCas);
    var last := StaysUntil(run, schedule, t, k + 1, j, WriteRetract);
    assert last == j - 1;
  }

  /** A phase of WriteLock lasts until a step of the thread itself ends it, and changes nothing till then. */
  lemma StaysUntil(run: seq<State>, schedule: seq<Action>, t: nat, i: nat, j: nat, l: Thread) returns (n: nat)
    requires Execution(run, schedule) && i < j <= |schedule| && TakingWrite(l)
    requires t < |run[i].threads| && run[i].threads[t] == l && t < |run[j].threads| && !TakingWrite(run[j].threads[t])
    ensures i <= n < j && schedule[n].thread == t && Inv(run[n])
    ensures t < |run[n].threads| && run[n].threads[t] == l && t < |run[n + 1].threads| && run[n + 1].threads[t] != l
    ensures PhaseEnds(run[n], run[n + 1], t)
    ensures Untouched(run, schedule, t, i, n)
  {
    n := i;
    while true
      invariant i <= n < j && t < |run[n].threads| && run[n].threads[t] == l && Untouched(run, schedule, t, i, n)
      decreases j - n
    {
      StepAt(run, schedule, n);
      OthersWait(run[n], schedule[n], t);
      if schedule[n].thread == t {
        TakingWriteStep(run[n], t, schedule[n].event);
      }
      if run[n + 1].threads[t] != l {
        return;
      }
      n := n + 1;
    }
  }

  /** Unlocking gives back exactly what was held: one reader's count, or the whole lock. */
  lemma UnlockGivesBack(s: State, t: nat)
    requires Inv(s) && t < |s.threads| && (s.threads[t].Reading? || s.threads[t].Writing?)
    ensures var s' := Step(s, t, Unlock);
            && s'.threads == s.threads[t := Idle] && s'.writeWaiters == s.writeWaiters
            && (if s.threads[t].Reading? then 1 <= s.lockNum && s'.lockNum == s.lockNum - 1
                else s.lockNum == -1 && s'.lockNum == 0)
  {
    CountsAt(s, t);
  }
}
