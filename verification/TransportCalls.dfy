/** What a whole Transmit or a whole read has done by the time it is over. */
module TransportCalls {
  import opened Wrappers
  import opened Counting
  import opened SharedWords
  import opened TransportProtocol
  import opened TransportInvariant
  import opened TransportProgress
  import opened TransportSearch

  /** Thread `t` takes up the call with step `i`, is busy with it after that, and rests again at instant `j`. */
  predicate CallBetween(run: seq<State>, schedule: seq<Action>, t: nat, call: Event, i: nat, j: nat) {
    && i < j <= |schedule| < |run| && schedule[i] == Action(t, call) && !call.Advance?
    && t < |run[i].threads| && Resting(run[i].threads[t])
    && (match call
        case Transmit(m) => Sendable(m, run[i].ceiling)
        case Read(n) => n < |run[i].notes|
        case _ => true)
    && (forall k :: i < k < j ==> t < |run[k].threads| && !Resting(run[k].threads[t]))
    && t < |run[j].threads| && Resting(run[j].threads[t])
  }

  lemma OthersWaitAt(run: seq<State>, schedule: seq<Action>, t: nat, k: nat)
    requires Execution(run, schedule) && k < |schedule| && t < |run[k].threads|
    ensures t < |run[k + 1].threads| && Inv(run[k])
    ensures schedule[k].thread != t ==> run[k + 1].threads[t] == run[k].threads[t]
    ensures schedule[k].thread == t ==> run[k + 1] == Step(run[k], t, schedule[k].event)
  {
    StepAt(run, schedule, k);
    if schedule[k].thread != t {
      OthersWait(run[k], schedule[k], t);
    } else {
      OnlyThread(run[k], schedule[k]);
    }
  }

  // ----- Transmit

  /** A process between two calls can transmit a message exactly if its payload is not above the ceiling. */
  lemma TransmitTaken(s: State, t: nat, m: Message)
    requires Shape(s) && t < |s.threads| && Resting(s.threads[t])
    requires |m.sender| == |m.spare| == |m.seqNum| == ID_SIZE
    ensures Step(s, t, Transmit(m)) == if |m.payload| <= s.ceiling then Goto(s, t, FetchSeq(m)) else s
  {}

  /** Nothing has been released or announced. */
  predicate NothingSent(s: State, s': State) {
    s'.released == s.released && s'.notes == s.notes
  }

  /** In none of its steps from `i` to before `j` other than `n` has thread `t` released or announced anything. */
  predicate NothingElse(run: seq<State>, schedule: seq<Action>, t: nat, i: nat, j: nat, n: int)
    requires j <= |schedule| < |run|
  {
    forall k :: i <= k < j && k != n && schedule[k].thread == t ==> NothingSent(run[k], run[k + 1])
  }

  /** A transmitter with `m` that has not released it yet. */
  predicate Sending(l: Thread, m: Message) {
    (Searching(l) || Writing(l)) && l.m == m
  }

  lemma SendingStep(s: State, t: nat, e: Event, m: Message)
    requires Inv(s) && t < |s.threads| && Sending(s.threads[t], m)
    ensures var l, s' := s.threads[t], Step(s, t, e);
            && t < |s'.threads|
            && (if Sending(s'.threads[t], m) then NothingSent(s, s')
                else && l.ReleaseWrite? && s'.threads[t] == Notify(m, l.b, |s.released|)
                     && s'.released == s.released + [Release(l.b, m)] && s'.notes == s.notes)
  {}

  lemma AnnouncingStep(s: State, t: nat, e: Event)
    requires Inv(s) && t < |s.threads| && s.threads[t].Notify?
    ensures var l, s' := s.threads[t], Step(s, t, e);
            && t < |s'.threads| && s'.released == s.released
            && (if s'.threads[t] == l then s'.notes == s.notes
                else s'.threads[t] == Idle && s'.notes == s.notes + [Note(l.b, l.r)])
  {}

  /** Step `n` of thread `t` releases `m` to block `b`. */
  predicate ReleasesAt(run: seq<State>, schedule: seq<Action>, t: nat, m: Message, b: nat, n: nat)
    requires n < |schedule| < |run|
  {
    && schedule[n].thread == t && run[n + 1].notes == run[n].notes
    && run[n + 1].released == run[n].released + [Release(b, m)]
  }

  predicate TransmitAt(run: seq<State>, schedule: seq<Action>, t: nat, m: Message, i: nat, k: nat, n: int, b: nat)
    requires i < k <= |schedule| < |run|
  {
    && t < |run[k].threads| && NothingElse(run, schedule, t, i, k, n)
    && if n < 0 then Sending(run[k].threads[t], m)
       else && i < n < k && ReleasesAt(run, schedule, t, m, b, n)
            && run[k].threads[t] == Notify(m, b, |run[n].released|)
  }

  lemma TransmitGoesOn(
    run: seq<State>, schedule: seq<Action>, t: nat, m: Message, i: nat, k: nat, n: int, b: nat)
    returns (n': int, b': nat)
    requires Execution(run, schedule) && i < k < |schedule| && TransmitAt(run, schedule, t, m, i, k, n, b)
    requires t < |run[k + 1].threads| && !Resting(run[k + 1].threads[t])
    ensures TransmitAt(run, schedule, t, m, i, k + 1, n', b')
  {
    n', b' := n, b;
    OthersWaitAt(run, schedule, t, k);
    if schedule[k].thread == t {
      if n < 0 {
        SendingStep(run[k], t, schedule[k].event, m);
        if !Sending(run[k + 1].threads[t], m) {
          n', b' := k, run[k].threads[t].b;
        }
      } else {
        AnnouncingStep(run[k], t, schedule[k].event);
      }
    }
  }

  /**
   A Transmit that is over has released its message once, to one block, and with its last step has sent one
   notification, of that block and that release; it has released and announced nothing else.
   */
  lemma TransmitOutcome(run: seq<State>, schedule: seq<Action>, t: nat, m: Message, i: nat, j: nat)
    returns (n: nat, b: nat)
    requires Execution(run, schedule) && CallBetween(run, schedule, t, Transmit(m), i, j)
    ensures i < n < j - 1 && ReleasesAt(run, schedule, t, m, b, n) && NothingElse(run, schedule, t, i, j - 1, n)
    ensures run[j].threads[t] == Idle && schedule[j - 1].thread == t
    ensures run[j].released == run[j - 1].released
    ensures run[j].notes == run[j - 1].notes + [Note(b, |run[n].released|)]
  {
    OthersWaitAt(run, schedule, t, i);
    var k, released := i + 1, -1;
    b := 0;
    while k < j - 1
      invariant i < k < j && TransmitAt(run, schedule, t, m, i, k, released, b)
    {
      released, b := TransmitGoesOn(run, schedule, t, m, i, k, released, b);
      k := k + 1;
    }
    OthersWaitAt(run, schedule, t, k);
    if released < 0 {
      SendingStep(run[k], t, schedule[k].event, m);
    } else {
      AnnouncingStep(run[k], t, schedule[k].event);
      n := released;
    }
  }

  // ----- reading

  /** A reader that does not have its lock yet. */
  predicate Acquiring(l: Thread) {
    l.LoadLock? || l.CasLock? || l.ReloadLock?
  }

  /** The step is a compare-exchange of thread `t` on its block's lock, and it fails. */
  predicate CasFails(s: State, a: Action, t: nat) {
    && a.thread == t < |s.threads| && a.event.Advance? && s.threads[t].CasLock?
    && s.threads[t].b < |s.blocks|
    && (a.event.spurious || s.blocks[s.threads[t].b].lockNum != s.threads[t].seen)
  }

  /** The step loads the lock of the block, and a writer holds it. */
  predicate FindsWriter(s: State, a: Action, t: nat) {
    && a.thread == t < |s.threads| && a.event.Advance? && (s.threads[t].LoadLock? || s.threads[t].ReloadLock?)
    && s.threads[t].b < |s.blocks| && s.blocks[s.threads[t].b].lockNum < 0
  }

  function Tries(l: Thread): nat {
    if l.CasLock? || l.ReloadLock? then l.tries else 0
  }

  /** The compare-exchange on a lock succeeds exactly if it finds what it expects and does not fail spuriously. */
  lemma LockCasExact(s: State, t: nat, spurious: bool)
    requires Inv(s) && t < |s.threads| && (s.threads[t].TryLock? || s.threads[t].CasLock?)
    ensures s.threads[t].b < |s.blocks|
    ensures var l, s' := s.threads[t], Step(s, t, Advance(spurious));
            var held := s.blocks[l.b].lockNum;
            && t < |s'.threads| && |s'.blocks| == |s.blocks|
            && (if l.TryLock?
                then && (s'.threads[t] == CopyPayload(l.m, l.b, 0) <==> !spurious && held == 0)
                     && s'.blocks[l.b].lockNum == if !spurious && held == 0 then -1 else held
                else && (s'.threads[t] == ReadSize(l.n, l.b) <==> !spurious && held == l.seen)
                     && s'.blocks[l.b].lockNum == if !spurious && held == l.seen then held + 1 else held)
  {
    assert ThreadShape(s, s.threads[t]);
  }

  lemma AcquiringStep(s: State, a: Action, t: nat)
    requires Inv(s) && a.thread == t < |s.threads| && Acquiring(s.threads[t]) && Tries(s.threads[t]) < 5
    ensures var l, s' := s.threads[t], Step(s, t, a.event);
            && t < |s'.threads|
            && (if Acquiring(s'.threads[t])
                then s'.threads[t].n == l.n && Tries(s'.threads[t]) == Tries(l) + B2N(CasFails(s, a, t)) < 5
                else if s'.threads[t].Failed? then FindsWriter(s, a, t) || (CasFails(s, a, t) && Tries(l) == 4)
                else Reading(s'.threads[t]) && s'.threads[t].n == l.n && !CasFails(s, a, t) && l.CasLock?)
            && (FindsWriter(s, a, t) ==> s'.threads[t].Failed?)
  {
    assert ThreadShape(s, s.threads[t]);
  }

  lemma ReadingStep(s: State, t: nat, e: Event)
    requires Inv(s) && t < |s.threads| && Reading(s.threads[t])
    ensures var l, s' := s.threads[t], Step(s, t, e);
            && t < |s'.threads| && (Reading(s'.threads[t]) || s'.threads[t].Received?) && s'.threads[t].n == l.n
  {}

  /** How many compare-exchanges of thread `t` fail from step `i` to before step `j`. */
  function FailedCas(run: seq<State>, schedule: seq<Action>, t: nat, i: nat, j: nat): nat
    requires i <= j <= |schedule| < |run|
  {
    if i == j then 0 else FailedCas(run, schedule, t, i, j - 1) + B2N(CasFails(run[j - 1], schedule[j - 1], t))
  }

  ghost predicate ReadAt(run: seq<State>, schedule: seq<Action>, t: nat, n: nat, i: nat, k: nat)
    requires i < k <= |schedule| < |run|
  {
    && t < |run[k].threads|
    && if Acquiring(run[k].threads[t])
       then run[k].threads[t].n == n && FailedCas(run, schedule, t, i, k) == Tries(run[k].threads[t]) < 5
       else Reading(run[k].threads[t]) && run[k].threads[t].n == n && FailedCas(run, schedule, t, i, k) < 5
  }

  /** No load of the lock has found a writer in the steps after the `i`-th and before the `k`-th. */
  predicate NoWriterFound(run: seq<State>, schedule: seq<Action>, t: nat, i: nat, k: nat)
    requires k <= |schedule| < |run|
  {
    forall h :: i < h < k ==> !FindsWriter(run[h], schedule[h], t)
  }

  lemma ReadGoesOn(run: seq<State>, schedule: seq<Action>, t: nat, n: nat, i: nat, k: nat)
    requires Execution(run, schedule) && i < k < |schedule| && ReadAt(run, schedule, t, n, i, k)
    requires t < |run[k + 1].threads| && !Resting(run[k + 1].threads[t]) && NoWriterFound(run, schedule, t, i, k)
    ensures ReadAt(run, schedule, t, n, i, k + 1) && NoWriterFound(run, schedule, t, i, k + 1)
  {
    OthersWaitAt(run, schedule, t, k);
    if schedule[k].thread == t {
      if Acquiring(run[k].threads[t]) {
        AcquiringStep(run[k], schedule[k], t);
      } else {
        ReadingStep(run[k], t, schedule[k].event);
      }
    }
  }

  lemma ReadEnds(run: seq<State>, schedule: seq<Action>, t: nat, n: nat, i: nat, k: nat)
    requires Execution(run, schedule) && i < k < |schedule| && ReadAt(run, schedule, t, n, i, k)
    requires t < |run[k + 1].threads| && Resting(run[k + 1].threads[t])
    ensures var l := run[k + 1].threads[t];
            && schedule[k].thread == t && (l.Received? || l.Failed?)
            && (l.Received? ==> l.n == n && FailedCas(run, schedule, t, i, k + 1) < 5)
            && (l.Failed? ==>
                  || FindsWriter(run[k], schedule[k], t)
                  || (CasFails(run[k], schedule[k], t) && FailedCas(run, schedule, t, i, k + 1) == 5))
            && (FindsWriter(run[k], schedule[k], t) ==> l.Failed?)
  {
    OthersWaitAt(run, schedule, t, k);
    if Acquiring(run[k].threads[t]) {
      AcquiringStep(run[k], schedule[k], t);
    } else {
      ReadingStep(run[k], t, schedule[k].event);
    }
  }

  /**
   A read that is over has received something for its notification, after fewer than five failed compare-exchanges,
   or has failed: with a load that found a writer in possession of the block, or with its fifth failed
   compare-exchange.
   */
  lemma ReadOutcome(run: seq<State>, schedule: seq<Action>, t: nat, n: nat, i: nat, j: nat)
    requires Execution(run, schedule) && CallBetween(run, schedule, t, Read(n), i, j)
    ensures schedule[j - 1].thread == t && (run[j].threads[t].Received? || run[j].threads[t].Failed?)
    ensures run[j].threads[t].Received? ==> run[j].threads[t].n == n && FailedCas(run, schedule, t, i, j) < 5
    ensures run[j].threads[t].Failed? ==>
              || FindsWriter(run[j - 1], schedule[j - 1], t)
              || (CasFails(run[j - 1], schedule[j - 1], t) && FailedCas(run, schedule, t, i, j) == 5)
    ensures forall k :: i < k < j && FindsWriter(run[k], schedule[k], t) ==> k == j - 1 && run[j].threads[t].Failed?
  {
    OthersWaitAt(run, schedule, t, i);
    assert FailedCas(run, schedule, t, i, i + 1) == 0;
    var k := i + 1;
    while k < j - 1
      invariant i < k < j && ReadAt(run, schedule, t, n, i, k) && NoWriterFound(run, schedule, t, i, k)
    {
      ReadGoesOn(run, schedule, t, n, i, k);
      k := k + 1;
    }
    ReadEnds(run, schedule, t, n, i, k);
  }

  /** How many of its own steps a reader is away from its lock when no writer is in the way. */
  function StepsToLock(s: State, l: Thread): nat
    requires Acquiring(l) && l.b < |s.blocks|
  {
    match l
    case LoadLock(_, _) => 2
    case ReloadLock(_, _, _) => 2
    case CasLock(_, b, seen, _) => if seen == s.blocks[b].lockNum then 1 else 3
  }

  /** No writer holds the block, and the reader has an attempt left if the one it is about to make must fail. */
  predicate CanAcquire(s: State, l: Thread) {
    && Acquiring(l) && l.b < |s.blocks| && 0 <= s.blocks[l.b].lockNum
    && (l.ReloadLock? ==> l.tries < 5)
    && (l.CasLock? ==> l.tries < 4 || l.seen == s.blocks[l.b].lockNum)
  }

  lemma AcquireAdvances(s: State, t: nat)
    requires Inv(s) && t < |s.threads| && CanAcquire(s, s.threads[t])
    ensures var l, s' := s.threads[t], Step(s, t, Advance(false));
            && Inv(s') && |s'.threads| == |s.threads| && s'.threads[t].n == l.n
            && (if Acquiring(s'.threads[t])
                then && s' == Goto(s, t, s'.threads[t]) && CanAcquire(s', s'.threads[t]) && s'.threads[t].b == l.b
                     && StepsToLock(s', s'.threads[t]) < StepsToLock(s, l)
                else Reading(s'.threads[t]) && s'.blocks[l.b].lockNum == s.blocks[l.b].lockNum + 1)
  {
    StepKeepsInv(s, t, Advance(false));
    assert ThreadShape(s, s.threads[t]);
  }

  /** A read in any stage, however stale what it has loaded, gets its lock and its message if left alone. */
  lemma {:induction false} AcquireAlone(s: State, t: nat) returns (run: seq<State>, schedule: seq<Action>)
    requires Inv(s) && t < |s.threads| && CanAcquire(s, s.threads[t])
    ensures run != [] && Solo(run, schedule, t, s, run[|run| - 1])
    ensures t < |run[|run| - 1].threads| && run[|run| - 1].threads[t].Received?
    ensures run[|run| - 1].threads[t].n == s.threads[t].n
    decreases StepsToLock(s, s.threads[t])
  {
    var s' := Step(s, t, Advance(false));
    AcquireAdvances(s, t);
    if Acquiring(s'.threads[t]) {
      run, schedule := AcquireAlone(s', t);
    } else {
      run, schedule := ReaderFinishes(s', t);
    }
    Prepend(s, Action(t, Advance(false)), run, schedule);
    run, schedule := [s] + run, [Action(t, Advance(false))] + schedule;
  }
}
