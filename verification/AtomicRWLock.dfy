/**
 The read-write lock of base/atomic_rw_lock.h as a step system: any number of threads, each repeatedly
 taking and giving back the lock for reading or for writing, one access to shared memory per step, in any
 order. Weak compare-exchanges may fail spuriously; the 32-bit counters are unbounded here.
 */
module AtomicRWLockProtocol {
  import opened Counting

  datatype Thread =
    | Idle
    | ReadLoad
    | ReadCheck(seen: int)
    | ReadCas(seen: int)
    | Reading
    | WriteAnnounce
    | WriteCas
    | WriteRetract
    | Writing

  datatype State = State(writeFirst: bool, lockNum: int, writeWaiters: int, threads: seq<Thread>)

  datatype Event = ReadLock | WriteLock | Unlock | Advance(spurious: bool)

  datatype Action = Action(thread: nat, event: Event)

  function Init(writeFirst: bool, threads: nat): State {
    State(writeFirst, 0, 0, seq(threads, i => Idle))
  }

  function Goto(s: State, t: nat, l: Thread): State
    requires t < |s.threads|
  {
    s.(threads := s.threads[t := l])
  }

  /** One step of thread `t`. An event the thread cannot take leaves everything as it is. */
  function Step(s: State, t: nat, e: Event): State {
    if t >= |s.threads| then s else
    match (s.threads[t], e)
    case (Idle, ReadLock) => Goto(s, t, ReadLoad)
    case (Idle, WriteLock) => Goto(s, t, WriteAnnounce)
    case (ReadLoad, Advance(_)) => Goto(s, t, ReadCheck(s.lockNum))
    case (ReadCheck(seen), Advance(_)) =>
      // need_wait: a writer held the lock when it was loaded, or one is waiting now.
      if seen < 0 || (s.writeFirst && s.writeWaiters > 0) then Goto(s, t, ReadLoad) else Goto(s, t, ReadCas(seen))
    case (ReadCas(seen), Advance(spurious)) =>
      if !spurious && s.lockNum == seen
      then Goto(s, t, Reading).(lockNum := seen + 1)
      else Goto(s, t, ReadCheck(s.lockNum))
    case (Reading, Unlock) => Goto(s, t, Idle).(lockNum := s.lockNum - 1)
    case (WriteAnnounce, Advance(_)) => Goto(s, t, WriteCas).(writeWaiters := s.writeWaiters + 1)
    case (WriteCas, Advance(spurious)) =>
      if !spurious && s.lockNum == 0 then Goto(s, t, WriteRetract).(lockNum := -1) else s
    case (WriteRetract, Advance(_)) => Goto(s, t, Writing).(writeWaiters := s.writeWaiters - 1)
    case (Writing, Unlock) => Goto(s, t, Idle).(lockNum := s.lockNum + 1)
    case _ => s
  }

  /** The state after a schedule. */
  function Run(s: State, schedule: seq<Action>): State
    decreases |schedule|
  {
    if schedule == [] then s
    else
      var last := schedule[|schedule| - 1];
      Step(Run(s, schedule[..|schedule| - 1]), last.thread, last.event)
  }

  // ----- exclusion

  predicate HoldsRead(l: Thread) { l.Reading? }

  predicate HoldsWrite(l: Thread) { l.WriteRetract? || l.Writing? }

  predicate Announced(l: Thread) { l.WriteCas? || l.WriteRetract? }

  /** A reader that has passed the check for waiting writers and not yet taken the lock. */
  predicate Passed(l: Thread) { l.ReadCas? }

  function Readers(s: State): nat { Count(s.threads, HoldsRead) }

  function Writers(s: State): nat { Count(s.threads, HoldsWrite) }

  function PassedReaders(s: State): nat { Count(s.threads, Passed) }

  /**
   Either -1 with exactly one writer and no reader, or the number of readers with no writer; and the
   waiting counter counts the announced writers.
   */
  ghost predicate Inv(s: State) {
    && (|| (s.lockNum == -1 && Writers(s) == 1 && Readers(s) == 0)
        || (s.lockNum == Readers(s) && Writers(s) == 0))
    && s.writeWaiters == Count(s.threads, Announced)
    && (forall t :: 0 <= t < |s.threads| && s.threads[t].ReadCas? ==> s.threads[t].seen >= 0)
  }

  lemma CountsAfter(s: State, t: nat, l: Thread)
    requires t < |s.threads|
    ensures var l0, s' := s.threads[t], Goto(s, t, l);
            && Readers(s') == Readers(s) - B2N(HoldsRead(l0)) + B2N(HoldsRead(l))
            && Writers(s') == Writers(s) - B2N(HoldsWrite(l0)) + B2N(HoldsWrite(l))
            && PassedReaders(s') == PassedReaders(s) - B2N(Passed(l0)) + B2N(Passed(l))
            && Count(s'.threads, Announced) == Count(s.threads, Announced) - B2N(Announced(l0)) + B2N(Announced(l))
  {
    CountUpdate(s.threads, HoldsRead, t, l);
    CountUpdate(s.threads, HoldsWrite, t, l);
    CountUpdate(s.threads, Announced, t, l);
    CountUpdate(s.threads, Passed, t, l);
  }

  /** A thread in a counted role makes the count positive. */
  lemma CountsAt(s: State, t: nat)
    requires t < |s.threads|
    ensures HoldsRead(s.threads[t]) ==> Readers(s) >= 1
    ensures HoldsWrite(s.threads[t]) ==> Writers(s) >= 1
    ensures Announced(s.threads[t]) ==> Count(s.threads, Announced) >= 1
  {
    CountNone(s.threads, HoldsRead);
    CountNone(s.threads, HoldsWrite);
    CountNone(s.threads, Announced);
  }

  lemma ReaderStepKeepsInv(s: State, t: nat, e: Event)
    requires Inv(s) && t < |s.threads|
    requires var l := s.threads[t]; l.Idle? || l.ReadLoad? || l.ReadCheck? || l.ReadCas? || l.Reading?
    ensures Inv(Step(s, t, e))
  {
    CountsAfter(s, t, Step(s, t, e).threads[t]);
    CountsAt(s, t);
  }

  lemma WriterStepKeepsInv(s: State, t: nat, e: Event)
    requires Inv(s) && t < |s.threads|
    requires var l := s.threads[t]; l.WriteAnnounce? || l.WriteCas? || l.WriteRetract? || l.Writing?
    ensures Inv(Step(s, t, e))
  {
    CountsAfter(s, t, Step(s, t, e).threads[t]);
    CountsAt(s, t);
  }

  lemma StepKeepsInv(s: State, t: nat, e: Event)
    requires Inv(s)
    ensures Inv(Step(s, t, e))
  {
    if t < |s.threads| {
      var l := s.threads[t];
      if l.WriteAnnounce? || l.WriteCas? || l.WriteRetract? || l.Writing? {
        WriterStepKeepsInv(s, t, e);
      } else {
        ReaderStepKeepsInv(s, t, e);
      }
    }
  }

  lemma {:induction false} RunKeepsInv(s: State, schedule: seq<Action>)
    requires Inv(s)
    ensures Inv(Run(s, schedule))
    decreases |schedule|
  {
    if schedule != [] {
      var n := |schedule| - 1;
      RunKeepsInv(s, schedule[..n]);
      StepKeepsInv(Run(s, schedule[..n]), schedule[n].thread, schedule[n].event);
    }
  }

  lemma InitInv(writeFirst: bool, threads: nat)
    ensures Inv(Init(writeFirst, threads))
  {
    var s := Init(writeFirst, threads);
    CountNone(s.threads, HoldsRead);
    CountNone(s.threads, HoldsWrite);
    CountNone(s.threads, Announced);
  }
}
