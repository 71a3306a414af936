/** That a message sent and read undisturbed arrives, from every reachable state. */
module TransportProgress {
  import Runs
  import opened Wrappers
  import opened Modular
  import opened SharedWords
  import opened TransportProtocol
  import opened TransportInvariant

  /** A run from one state to another. */
  ghost predicate Leads(run: seq<State>, schedule: seq<Action>, s: State, s': State) {
    Execution(run, schedule) && run[0] == s && run[|schedule|] == s'
  }

  /** A run in which only thread `t` takes steps. */
  ghost predicate Solo(run: seq<State>, schedule: seq<Action>, t: nat, s: State, s': State) {
    Leads(run, schedule, s, s') && forall i :: 0 <= i < |schedule| ==> schedule[i].thread == t
  }

  lemma Prepend(s: State, a: Action, run: seq<State>, schedule: seq<Action>)
    requires Inv(s) && Execution(run, schedule) && run[0] == Step(s, a.thread, a.event)
    requires forall i :: 0 <= i < |schedule| ==> schedule[i].thread == a.thread
    ensures Solo([s] + run, [a] + schedule, a.thread, s, run[|schedule|])
  {
    Runs.Prepend<State, Action>(Inv, Follows, s, a, run, schedule);
  }

  lemma Concat(run: seq<State>, schedule: seq<Action>, run2: seq<State>, schedule2: seq<Action>)
    requires Execution(run, schedule) && Execution(run2, schedule2) && run2[0] == run[|schedule|]
    ensures Leads(run + run2[1..], schedule + schedule2, run[0], run2[|schedule2|])
  {
    Runs.Concat<State, Action>(Inv, Follows, run, schedule, run2, schedule2);
  }

  predicate Resting(l: Thread) {
    l.Idle? || l.Received? || l.Failed?
  }

  predicate Writing(l: Thread) {
    IsWriter(l) && HoldsWrite(l, l.b)
  }

  /** How many steps separate a writer that has locked its block from releasing it. */
  function WriterSteps(l: Thread): int
    requires Writing(l)
  {
    match l
    case CopyPayload(m, _, done) => |m.payload| - done + HEADER_SIZE + 5
    case SetSize(_, _) => HEADER_SIZE + 4
    case CopyHeader(_, _, done) => HEADER_SIZE - done + 3
    case SetInfoSize(_, _) => 2
    case ReleaseWrite(_, _) => 1
  }

  lemma WriterAdvances(s: State, t: nat)
    requires Shape(s) && t < |s.threads| && Writing(s.threads[t]) && !s.threads[t].ReleaseWrite?
    ensures var l, s' := s.threads[t], NextWriter(s, t, false);
            && s' == s.(threads := s.threads[t := s'.threads[t]], blocks := s.blocks[l.b := s'.blocks[l.b]])
            && s'.blocks[l.b].lockNum == s.blocks[l.b].lockNum
            && Writing(s'.threads[t]) && s'.threads[t].b == l.b && s'.threads[t].m == l.m
            && 0 <= WriterSteps(s'.threads[t]) < WriterSteps(l)
  {}

  /** A writer that has locked its block, left alone, releases it with its message and sends one notification. */
  lemma {:induction false} WriterFinishes(s: State, t: nat) returns (run: seq<State>, schedule: seq<Action>)
    requires Inv(s) && t < |s.threads| && Writing(s.threads[t])
    ensures run != [] && Solo(run, schedule, t, s, run[|run| - 1])
    ensures Sent(s, run[|run| - 1], t, s.threads[t].m, s.threads[t].b) && run[|run| - 1].counter == s.counter
    decreases WriterSteps(s.threads[t])
  {
    var a := Action(t, Advance(false));
    var s1 := Step(s, t, Advance(false));
    StepKeepsInv(s, t, Advance(false));
    if s.threads[t].ReleaseWrite? {
      run, schedule := ReleasedAndNotified(s, t);
    } else {
      WriterAdvances(s, t);
      run, schedule := WriterFinishes(s1, t);
      Prepend(s, a, run, schedule);
      run, schedule := [s] + run, [a] + schedule;
    }
  }

  /** What a Transmit by thread `t` changes, up to the contents of the block it chose. */
  ghost predicate Sent(s: State, s': State, t: nat, m: Message, b: nat) {
    && t < |s.threads| && b < |s.blocks| == |s'.blocks|
    && s'.threads == s.threads[t := Idle] && s'.ceiling == s.ceiling
    && s'.released == s.released + [Release(b, m)] && s'.notes == s.notes + [Note(b, |s.released|)]
    && s'.blocks[b].lockNum == 0
    && forall c :: 0 <= c < |s.blocks| && c != b ==> s'.blocks[c] == s.blocks[c]
  }

  lemma ReleasedAndNotified(s: State, t: nat) returns (run: seq<State>, schedule: seq<Action>)
    requires Inv(s) && t < |s.threads| && s.threads[t].ReleaseWrite?
    ensures run != [] && Solo(run, schedule, t, s, run[|run| - 1])
    ensures Sent(s, run[|run| - 1], t, s.threads[t].m, s.threads[t].b) && run[|run| - 1].counter == s.counter
  {
    var e := Advance(false);
    var s1 := Step(s, t, e);
    var s2 := Step(s1, t, e);
    WriterAlone(s, t);
    StepKeepsInv(s, t, e);
    StepKeepsInv(s1, t, e);
    run, schedule := [s, s1, s2], [Action(t, e), Action(t, e)];
  }

  /** How far the ticket counter is from a block. */
  function Distance(counter: nat, b: nat, n: nat): (d: nat)
    requires 0 < n
  {
    (b - counter) % n
  }

  lemma DistanceShrinks(counter: nat, b: nat, n: nat)
    requires b < n && WORD32 % n == 0 && counter % n != b
    ensures Distance((counter + 1) % WORD32, b, n) == Distance(counter, b, n) - 1
  {
    var d, next := Distance(counter, b, n), (counter + 1) % WORD32;
    var q := (b - counter) / n;
    assert b - counter == q * n + d;
    if d == 0 {
      assert counter == b + (-q) * n;
      ShiftedResidue(b, -q, n);
      QuotientUnique(b, 0, b, n);
    } else {
      RemainderOfRemainder(counter + 1, WORD32, n);
      EqualResidues(counter + 1, next, n);
      var p := next / n - (counter + 1) / n;
      assert next == counter + 1 + p * n;
      assert b - next == (d - 1) + (q - p) * n by {
        assert (q - p) * n == q * n - p * n;
      }
      QuotientUnique(b - next, q - p, d - 1, n);
    }
  }

  lemma FetchAlone(s: State, t: nat)
    requires Inv(s) && t < |s.threads| && s.threads[t].FetchSeq?
    ensures var c, m := s.counter % |s.blocks|, s.threads[t].m;
            var e := Advance(false);
            var s1 := Step(s, t, e);
            Inv(s1) && Inv(Step(s1, t, e))
            && s1 == s.(threads := s.threads[t := TryLock(m, c)], counter := (s.counter + 1) % WORD32)
            && Step(s1, t, e) ==
               if s.blocks[c].lockNum == 0
               then s1.(threads := s.threads[t := CopyPayload(m, c, 0)],
                        blocks := s.blocks[c := s.blocks[c].(lockNum := -1)])
               else s1.(threads := s.threads)
  {
    var e := Advance(false);
    var s1 := Step(s, t, e);
    StepKeepsInv(s, t, e);
    StepKeepsInv(s1, t, e);
    var c, m := s.counter % |s.blocks|, s.threads[t].m;
    assert s.threads[t := TryLock(m, c)][t := FetchSeq(m)] == s.threads;
    assert s.threads[t := TryLock(m, c)][t := CopyPayload(m, c, 0)] == s.threads[t := CopyPayload(m, c, 0)];
  }

  /** If the block whose turn it is is free, the message goes there and one ticket is used up. */
  predicate FirstIfFree(s: State, s': State, c: nat)
    requires s.blocks != []
  {
    var turn := s.counter % |s.blocks|;
    s.blocks[turn].lockNum == 0 ==> c == turn && s'.counter == (s.counter + 1) % WORD32
  }

  /** A writer left alone finds a free block if there is one, and sends its message through it. */
  lemma {:induction false} SearchAlone(s: State, t: nat, b: nat)
    returns (run: seq<State>, schedule: seq<Action>, c: nat)
    requires Inv(s) && t < |s.threads| && s.threads[t].FetchSeq?
    requires b < |s.blocks| && s.blocks[b].lockNum == 0
    ensures run != [] && Solo(run, schedule, t, s, run[|run| - 1]) && c < |s.blocks| && s.blocks[c].lockNum == 0
    ensures Sent(s, run[|run| - 1], t, s.threads[t].m, c)
    ensures FirstIfFree(s, run[|run| - 1], c)
    decreases Distance(s.counter, b, |s.blocks|)
  {
    var e := Advance(false);
    var s1 := Step(s, t, e);
    var s2 := Step(s1, t, e);
    FetchAlone(s, t);
    c := s.counter % |s.blocks|;
    if s.blocks[c].lockNum == 0 {
      run, schedule := WriterFinishes(s2, t);
    } else {
      DistanceShrinks(s.counter, b, |s.blocks|);
      run, schedule, c := SearchAlone(s2, t, b);
    }
    SentFrom(s, s2, run[|run| - 1], t, s.threads[t].m, c);
    run, schedule := PrependTwo(s, t, run, schedule);
  }

  lemma SentFrom(s: State, s2: State, s': State, t: nat, m: Message, c: nat)
    requires Sent(s2, s', t, m, c) && c < |s.blocks| == |s2.blocks| && |s.threads| == |s2.threads|
    requires s2.released == s.released && s2.notes == s.notes && s2.ceiling == s.ceiling
    requires s2.threads[t := Idle] == s.threads[t := Idle]
    requires forall d :: 0 <= d < |s.blocks| && d != c ==> s2.blocks[d] == s.blocks[d]
    ensures Sent(s, s', t, m, c)
  {}

  lemma PrependTwo(s: State, t: nat, run: seq<State>, schedule: seq<Action>)
    returns (longer: seq<State>, more: seq<Action>)
    requires Inv(s) && Execution(run, schedule) && forall i :: 0 <= i < |schedule| ==> schedule[i].thread == t
    requires Inv(Step(s, t, Advance(false))) && run[0] == Step(Step(s, t, Advance(false)), t, Advance(false))
    ensures longer != [] && Solo(longer, more, t, s, longer[|longer| - 1]) && longer[|longer| - 1] == run[|run| - 1]
  {
    var a := Action(t, Advance(false));
    var s1 := Step(s, t, Advance(false));
    Prepend(s1, a, run, schedule);
    Prepend(s, a, [s1] + run, [a] + schedule);
    longer, more := [s] + ([s1] + run), [a] + ([a] + schedule);
  }

  /** Undisturbed, Transmit locks a free block, releases it with the whole message and announces it. */
  lemma TransmitAlone(s: State, t: nat, m: Message, b: nat) returns (run: seq<State>, schedule: seq<Action>, c: nat)
    requires Inv(s) && t < |s.threads| && Resting(s.threads[t]) && Sendable(m, s.ceiling)
    requires b < |s.blocks| && s.blocks[b].lockNum == 0
    ensures run != [] && Solo(run, schedule, t, s, run[|run| - 1]) && c < |s.blocks| && s.blocks[c].lockNum == 0
    ensures Sent(s, run[|run| - 1], t, m, c)
    ensures FirstIfFree(s, run[|run| - 1], c)
  {
    var s1 := Step(s, t, Transmit(m));
    StepKeepsInv(s, t, Transmit(m));
    assert s1 == s.(threads := s.threads[t := FetchSeq(m)]);
    run, schedule, c := SearchAlone(s1, t, b);
    SentFrom(s, s1, run[|run| - 1], t, m, c);
    Prepend(s, Action(t, Transmit(m)), run, schedule);
    run, schedule := [s] + run, [Action(t, Transmit(m))] + schedule;
  }

  predicate Reading(l: Thread) {
    l.ReadSize? || l.ReadHeader? || l.ReadPayloadSize? || l.ReadPayload? || l.ReleaseRead?
  }

  /** How many steps separate a reader that has its lock from giving it back. */
  function ReaderSteps(l: Thread, ceiling: nat): int
    requires Reading(l)
  {
    match l
    case ReadSize(_, _) => HEADER_SIZE + ceiling + 5
    case ReadHeader(_, _, _, header) => HEADER_SIZE - |header| + ceiling + 4
    case ReadPayloadSize(_, _, _) => ceiling + 3
    case ReadPayload(_, _, _, size, payload) => size - |payload| + 2
    case ReleaseRead(_, _, _, _) => 1
  }

  lemma ReaderAdvances(s: State, u: nat)
    requires Shape(s) && u < |s.threads| && Reading(s.threads[u]) && !s.threads[u].ReleaseRead?
    ensures var l, s' := s.threads[u], NextReader(s, u, false);
            && s' == s.(threads := s.threads[u := s'.threads[u]])
            && Reading(s'.threads[u]) && s'.threads[u].n == l.n && s'.threads[u].b == l.b && l.b < |s.blocks|
            && 0 <= ReaderSteps(s'.threads[u], s.ceiling) < ReaderSteps(l, s.ceiling)
  {
    assert ThreadShape(s, s.threads[u]);
  }

  /** A reader that has its lock, left alone, ends up with something received for its notification. */
  lemma {:induction false} ReaderFinishes(s: State, u: nat) returns (run: seq<State>, schedule: seq<Action>)
    requires Inv(s) && u < |s.threads| && Reading(s.threads[u])
    ensures run != [] && Solo(run, schedule, u, s, run[|run| - 1])
    ensures Got(s, run[|run| - 1], u, s.threads[u].n) && GaveBack(s, run[|run| - 1], s.threads[u].b)
    ensures forall i :: 0 <= i < |run| ==> Beside(s, run[i], u, s.threads[u].b)
    ensures forall i :: 0 <= i < |schedule| ==> schedule[i] == Action(u, Advance(false))
    decreases ReaderSteps(s.threads[u], s.ceiling)
  {
    var e := Advance(false);
    var s1 := Step(s, u, e);
    StepKeepsInv(s, u, e);
    if s.threads[u].ReleaseRead? {
      run, schedule := [s1], [];
      assert Runs.HoldsAt<State>(Inv, run, 0);
    } else {
      ReaderAdvances(s, u);
      run, schedule := ReaderFinishes(s1, u);
    }
    Prepend(s, Action(u, e), run, schedule);
    run, schedule := [s] + run, [Action(u, e)] + schedule;
  }

  /** What a read by thread `u` leaves: its result, and nothing else but perhaps a lock changed. */
  ghost predicate Got(s: State, s': State, u: nat, n: nat) {
    && u < |s.threads| == |s'.threads| && s'.threads == s.threads[u := s'.threads[u]]
    && s'.threads[u].Received? && s'.threads[u].n == n
    && s' == s.(threads := s'.threads, blocks := s'.blocks)
  }

  /** One read lock of block `b` has been given back. */
  predicate GaveBack(s: State, s': State, b: nat) {
    b < |s.blocks| && s'.blocks == s.blocks[b := s.blocks[b].(lockNum := s.blocks[b].lockNum - 1)]
  }

  /** Nothing has changed but thread `u` and block `b`. */
  predicate Beside(s: State, s': State, u: nat, b: nat) {
    && |s'.threads| == |s.threads| && |s'.blocks| == |s.blocks|
    && (forall v :: 0 <= v < |s.threads| && v != u ==> s'.threads[v] == s.threads[v])
    && (forall d :: 0 <= d < |s.blocks| && d != b ==> s'.blocks[d] == s.blocks[d])
  }

  /** Undisturbed, reading a notified block that no writer holds succeeds. */
  lemma ReadAlone(s: State, u: nat, n: nat) returns (run: seq<State>, schedule: seq<Action>)
    requires Inv(s) && u < |s.threads| && Resting(s.threads[u])
    requires n < |s.notes| && s.notes[n].block < |s.blocks| && s.blocks[s.notes[n].block].lockNum >= 0
    ensures run != [] && Solo(run, schedule, u, s, run[|run| - 1])
    ensures Got(s, run[|run| - 1], u, n) && run[|run| - 1].blocks == s.blocks
  {
    var b, e := s.notes[n].block, Advance(false);
    var s1 := Step(s, u, Read(n));
    assert s1 == Goto(s, u, LoadLock(n, b));
    StepKeepsInv(s, u, Read(n));
    var s2 := Step(s1, u, e);
    assert s2 == Goto(s, u, CasLock(n, b, s.blocks[b].lockNum, 0));
    StepKeepsInv(s1, u, e);
    var s3 := Step(s2, u, e);
    assert s3 == Goto(s, u, ReadSize(n, b)).(blocks := s.blocks[b := s.blocks[b].(lockNum := s.blocks[b].lockNum + 1)]);
    StepKeepsInv(s2, u, e);
    run, schedule := ReaderFinishes(s3, u);
    run, schedule := PrependTwo(s1, u, run, schedule);
    Prepend(s, Action(u, Read(n)), run, schedule);
    run, schedule := [s] + run, [Action(u, Read(n))] + schedule;
  }

  /**
   A message gets through: from any reachable state in which two processes are between calls and some block is
   free there is a run in which one of them transmits any message that fits and the other receives exactly it.
   */
  lemma MessageGetsThrough(s: State, t: nat, u: nat, m: Message, b: nat)
    returns (run: seq<State>, schedule: seq<Action>)
    requires Inv(s) && t < |s.threads| && u < |s.threads| && t != u
    requires Resting(s.threads[t]) && Resting(s.threads[u]) && Sendable(m, s.ceiling)
    requires b < |s.blocks| && s.blocks[b].lockNum == 0
    ensures run != [] && Leads(run, schedule, s, run[|run| - 1])
    ensures var s' := run[|run| - 1];
            && u < |s'.threads| && s'.threads[u].Received? && s'.threads[u].n == |s.notes|
            && s'.threads[u].payload == m.payload && s'.threads[u].header == Header(m)
  {
    var run1, schedule1, c := TransmitAlone(s, t, m, b);
    var mid := run1[|run1| - 1];
    InvAt(run1, schedule1, |schedule1|);
    assert mid.notes[|s.notes|] == Note(c, |s.released|);
    var run2, schedule2 := ReadAlone(mid, u, |s.notes|);
    Concat(run1, schedule1, run2, schedule2);
    run, schedule := run1 + run2[1..], schedule1 + schedule2;
    InvAt(run, schedule, |schedule|);
    assert ThreadOk(run[|run| - 1], u);
  }
}
