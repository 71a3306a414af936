/**
 Why the bounds on the search for a writable block ask for one block that stays free: with a free block at each
 instant, but not always the same one, a search can go on for ever.
 */
module TransportStarvation {
  import Runs
  import opened Modular
  import opened ShmConfModel
  import opened SharedWords
  import opened TransportProtocol
  import opened TransportInvariant
  import opened TransportProgress
  import opened TransportSearch

  predicate AnyFree(s: State) {
    exists b :: 0 <= b < |s.blocks| && s.blocks[b].lockNum == 0
  }

  /** Thread `t` is searching and some block is free, at each instant from the `from`-th on. */
  predicate Starves(run: seq<State>, t: nat, from: nat) {
    forall i :: from <= i < |run| ==> t < |run[i].threads| && Searching(run[i].threads[t]) && AnyFree(run[i])
  }

  /** No compare-exchange fails spuriously. */
  predicate NoneSpurious(schedule: seq<Action>) {
    forall i :: 0 <= i < |schedule| ==> schedule[i].event != Advance(true)
  }

  /** All blocks are free, and there is a notification of each. */
  predicate AllAnnounced(s: State) {
    && 2 <= |s.blocks| <= |s.notes|
    && forall c :: 0 <= c < |s.blocks| ==> s.blocks[c].lockNum == 0 && s.notes[c].block == c
  }

  /** Thread `t` is about to draw a ticket, and thread `u` is between two calls. */
  ghost predicate Calm(s: State, t: nat, u: nat) {
    && Inv(s) && AllAnnounced(s) && t < |s.threads| && u < |s.threads| && t != u
    && s.threads[t].FetchSeq? && Resting(s.threads[u])
  }

  lemma {:induction false} OwnStepsJoin(first: seq<Action>, second: seq<Action>, t: nat)
    ensures OwnSteps(first + second, t) == OwnSteps(first, t) + OwnSteps(second, t)
    decreases |second|
  {
    if second == [] {
      assert first + second == first;
    } else {
      var n := |second| - 1;
      OwnStepsJoin(first, second[..n], t);
      assert (first + second)[..|first| + n] == first + second[..n];
    }
  }

  lemma {:induction false} NoOwnSteps(schedule: seq<Action>, t: nat)
    requires forall i :: 0 <= i < |schedule| ==> schedule[i].thread != t
    ensures OwnSteps(schedule, t) == 0
    decreases |schedule|
  {
    if schedule != [] {
      NoOwnSteps(schedule[..|schedule| - 1], t);
    }
  }

  /** Thread `t` draws a ticket, `u` locks that block for reading, and `t` fails to lock it. */
  function Collision(t: nat, u: nat, c: nat): seq<Action> {
    [Action(t, Advance(false)), Action(u, Read(c)), Action(u, Advance(false)), Action(u, Advance(false)),
     Action(t, Advance(false))]
  }

  /** The state after the collision: as before, but for the ticket drawn and the lock of the block. */
  function Collided(s: State, u: nat, c: nat): State
    requires c < |s.blocks| && u < |s.threads|
  {
    s.(threads := s.threads[u := ReadSize(c, c)], counter := (s.counter + 1) % WORD32,
       blocks := s.blocks[c := s.blocks[c].(lockNum := 1)])
  }

  /** Midway: `t` has drawn the ticket, and `u` has got as far as `l`. */
  function Midway(s: State, t: nat, u: nat, c: nat, l: Thread): State
    requires t < |s.threads| && u < |s.threads|
  {
    s.(threads := s.threads[t := TryLock(Carries(s.threads[t]), c)][u := l], counter := (s.counter + 1) % WORD32)
  }

  function Carries(l: Thread): Message {
    if l.FetchSeq? then l.m else Message([], [], [], [])
  }

  lemma DrewTicket(s: State, t: nat, u: nat)
    requires Calm(s, t, u)
    ensures var c := s.counter % |s.blocks|;
            && Step(s, t, Advance(false)) == Midway(s, t, u, c, s.threads[u])
            && Step(Midway(s, t, u, c, s.threads[u]), u, Read(c)) == Midway(s, t, u, c, LoadLock(c, c))
            && Inv(Midway(s, t, u, c, s.threads[u])) && Inv(Midway(s, t, u, c, LoadLock(c, c)))
  {
    var c := s.counter % |s.blocks|;
    FetchAlone(s, t);
    var s1 := Step(s, t, Advance(false));
    assert s1.threads == s1.threads[u := s.threads[u]];
    StepKeepsInv(s1, u, Read(c));
  }

  lemma LoadedLock(s: State, t: nat, u: nat)
    requires Calm(s, t, u)
    requires var c := s.counter % |s.blocks|; Inv(Midway(s, t, u, c, LoadLock(c, c)))
    ensures var c := s.counter % |s.blocks|;
            var s2, s3 := Midway(s, t, u, c, LoadLock(c, c)), Midway(s, t, u, c, CasLock(c, c, 0, 0));
            Step(s2, u, Advance(false)) == s3 && Inv(s3)
  {
    var c := s.counter % |s.blocks|;
    StepKeepsInv(Midway(s, t, u, c, LoadLock(c, c)), u, Advance(false));
  }

  /** The state once `u` has the lock. */
  function Locked(s: State, t: nat, u: nat, c: nat): State
    requires t < |s.threads| && u < |s.threads| && c < |s.blocks|
  {
    Midway(s, t, u, c, ReadSize(c, c)).(blocks := s.blocks[c := s.blocks[c].(lockNum := 1)])
  }

  lemma TookLock(s: State, t: nat, u: nat)
    requires Calm(s, t, u)
    requires var c := s.counter % |s.blocks|; Inv(Midway(s, t, u, c, CasLock(c, c, 0, 0)))
    ensures var c := s.counter % |s.blocks|;
            var s3 := Midway(s, t, u, c, CasLock(c, c, 0, 0));
            Step(s3, u, Advance(false)) == Locked(s, t, u, c) && Inv(Locked(s, t, u, c))
  {
    var c := s.counter % |s.blocks|;
    StepKeepsInv(Midway(s, t, u, c, CasLock(c, c, 0, 0)), u, Advance(false));
  }

  lemma FailedToLock(s: State, t: nat, u: nat)
    requires Calm(s, t, u) && Inv(Locked(s, t, u, s.counter % |s.blocks|))
    ensures var c := s.counter % |s.blocks|;
            Step(Locked(s, t, u, c), t, Advance(false)) == Collided(s, u, c) && Inv(Collided(s, u, c))
  {
    var c := s.counter % |s.blocks|;
    StepKeepsInv(Locked(s, t, u, c), t, Advance(false));
    assert Locked(s, t, u, c).threads[t := s.threads[t]] == s.threads[u := ReadSize(c, c)];
  }

  /** Thread `t` is searching, and nothing has happened to the blocks other than `c`. */
  predicate Elsewhere(s: State, s': State, t: nat, c: nat) {
    && |s'.blocks| == |s.blocks| && t < |s'.threads| && Searching(s'.threads[t])
    && forall d :: 0 <= d < |s.blocks| && d != c ==> s'.blocks[d] == s.blocks[d]
  }

  lemma Collide(s: State, t: nat, u: nat) returns (run: seq<State>)
    requires Calm(s, t, u)
    ensures var c := s.counter % |s.blocks|;
            && Execution(run, Collision(t, u, c)) && |run| == 6 && run[0] == s && run[5] == Collided(s, u, c)
            && forall i :: 0 <= i < 6 ==> Elsewhere(s, run[i], t, c)
  {
    var c := s.counter % |s.blocks|;
    DrewTicket(s, t, u);
    LoadedLock(s, t, u);
    TookLock(s, t, u);
    FailedToLock(s, t, u);
    run := [s, Midway(s, t, u, c, s.threads[u]), Midway(s, t, u, c, LoadLock(c, c)),
            Midway(s, t, u, c, CasLock(c, c, 0, 0)), Locked(s, t, u, c), Collided(s, u, c)];
    var schedule := Collision(t, u, c);
    forall i | 0 <= i < 6
      ensures Runs.HoldsAt<State>(Inv, run, i)
    {}
    forall i | 0 <= i < 5
      ensures Runs.StepsTo<State, Action>(Follows, run, schedule, i)
    {}
  }

  lemma CollisionSteps(t: nat, u: nat, c: nat)
    requires t != u
    ensures OwnSteps(Collision(t, u, c), t) == 2
  {
    var first, mine := [Action(t, Advance(false))], Collision(t, u, c)[1..4];
    assert Collision(t, u, c) == (first + mine) + first;
    NoOwnSteps(mine, t);
    OwnStepsJoin(first + mine, first, t);
    OwnStepsJoin(first, mine, t);
    assert first[..0] == [];
  }

  lemma ElsewhereStarves(s: State, run: seq<State>, t: nat, c: nat)
    requires AllAnnounced(s) && forall i :: 0 <= i < |run| ==> Elsewhere(s, run[i], t, c)
    ensures Starves(run, t, 0)
  {
    var d := if c == 0 then 1 else 0;
    forall i | 0 <= i < |run|
      ensures AnyFree(run[i])
    {
      assert run[i].blocks[d] == s.blocks[d];
    }
  }

  lemma LapElsewhere(s: State, t: nat, u: nat, c: nat, run1: seq<State>, run2: seq<State>)
    requires t != u && |run1| == 6 && run2 != [] && (forall i :: 0 <= i < 6 ==> Elsewhere(s, run1[i], t, c))
    requires forall i :: 0 <= i < |run2| ==> Beside(run1[5], run2[i], u, c)
    ensures var run := run1 + run2[1..]; forall i :: 0 <= i < |run| ==> Elsewhere(s, run[i], t, c)
  {
    var run := run1 + run2[1..];
    forall i | 0 <= i < |run|
      ensures Elsewhere(s, run[i], t, c)
    {
      if i >= 6 {
        assert run[i] == run2[i - 5];
        assert Beside(run1[5], run2[i - 5], u, c);
      }
    }
  }

  lemma LapEnds(s: State, s': State, t: nat, u: nat, c: nat)
    requires Calm(s, t, u) && c < |s.blocks| && Inv(s')
    requires Got(Collided(s, u, c), s', u, c) && GaveBack(Collided(s, u, c), s', c)
    ensures Calm(s', t, u)
  {
    assert s'.blocks == s.blocks;
  }

  /** One lap: a ticket drawn in vain, and everything is as before. */
  lemma Lap(s: State, t: nat, u: nat) returns (run: seq<State>, schedule: seq<Action>)
    requires Calm(s, t, u)
    ensures run != [] && Leads(run, schedule, s, run[|run| - 1]) && Calm(run[|run| - 1], t, u)
    ensures Starves(run, t, 0) && NoneSpurious(schedule) && OwnSteps(schedule, t) == 2
  {
    var c := s.counter % |s.blocks|;
    var run1 := Collide(s, t, u);
    InvAt(run1, Collision(t, u, c), 5);
    var run2, schedule2 := ReaderFinishes(run1[5], u);
    Concat(run1, Collision(t, u, c), run2, schedule2);
    run, schedule := run1 + run2[1..], Collision(t, u, c) + schedule2;
    OwnStepsJoin(Collision(t, u, c), schedule2, t);
    NoOwnSteps(schedule2, t);
    CollisionSteps(t, u, c);
    LapElsewhere(s, t, u, c, run1, run2);
    ElsewhereStarves(s, run, t, c);
    InvAt(run2, schedule2, |schedule2|);
    LapEnds(s, run2[|run2| - 1], t, u, c);
  }

  /** As many laps as one likes. */
  lemma {:induction false} Laps(s: State, t: nat, u: nat, k: nat) returns (run: seq<State>, schedule: seq<Action>)
    requires Calm(s, t, u)
    ensures run != [] && Leads(run, schedule, s, run[|run| - 1]) && Calm(run[|run| - 1], t, u)
    ensures Starves(run, t, 0) && NoneSpurious(schedule) && OwnSteps(schedule, t) == 2 * k
  {
    if k == 0 {
      run, schedule := [s], [];
      assert Runs.HoldsAt<State>(Inv, run, 0);
      ElsewhereStarves(s, run, t, 0);
    } else {
      var run1, schedule1 := Laps(s, t, u, k - 1);
      var run2, schedule2 := Lap(run1[|run1| - 1], t, u);
      Concat(run1, schedule1, run2, schedule2);
      run, schedule := run1 + run2[1..], schedule1 + schedule2;
      OwnStepsJoin(schedule1, schedule2, t);
    }
  }

  // ----- how it comes to that

  /** Thread 0 has sent one message through each of the first `k` blocks. */
  ghost predicate Announced(s: State, n: nat, k: nat) {
    && Inv(s) && |s.blocks| == n && k <= n && |s.notes| == k && s.threads == [Idle, Idle]
    && (forall c :: 0 <= c < n ==> s.blocks[c].lockNum == 0)
    && (forall c :: 0 <= c < k ==> s.notes[c].block == c)
    && s.counter == k % WORD32
  }

  lemma AnnouncedOneMore(s: State, s': State, n: nat, k: nat, m: Message, c: nat)
    requires Announced(s, n, k) && k < n <= WORD32 && Inv(s')
    requires Sent(s, s', 0, m, c) && c < n && FirstIfFree(s, s', c)
    ensures Announced(s', n, k + 1)
  {
    QuotientUnique(k, 0, k, WORD32);
    QuotientUnique(k, 0, k, n);
    assert c == k && s'.counter == (k + 1) % WORD32;
    assert s'.notes == s.notes + [Note(k, |s.released|)];
    forall d | 0 <= d < n
      ensures s'.blocks[d].lockNum == 0
    {
      assert d != k ==> s'.blocks[d] == s.blocks[d];
    }
    assert s'.threads == [Idle, Idle];
  }

  /** A message through each block in turn. */
  lemma {:induction false} AnnounceAll(s: State, m: Message, n: nat, k: nat)
    returns (run: seq<State>, schedule: seq<Action>)
    requires Announced(s, n, 0) && Sendable(m, s.ceiling) && k <= n <= WORD32 && 0 < n
    ensures run != [] && Leads(run, schedule, s, run[|run| - 1])
    ensures Announced(run[|run| - 1], n, k) && run[|run| - 1].ceiling == s.ceiling
  {
    if k == 0 {
      run, schedule := [s], [];
      assert Runs.HoldsAt<State>(Inv, run, 0);
    } else {
      var run1, schedule1 := AnnounceAll(s, m, n, k - 1);
      run, schedule := AnnounceNext(s, run1, schedule1, m, n, k - 1);
    }
  }

  lemma AnnounceNext(s: State, run1: seq<State>, schedule1: seq<Action>, m: Message, n: nat, k: nat)
    returns (run: seq<State>, schedule: seq<Action>)
    requires k < n <= WORD32 && run1 != [] && Leads(run1, schedule1, s, run1[|run1| - 1])
    requires Announced(run1[|run1| - 1], n, k) && Sendable(m, run1[|run1| - 1].ceiling)
    ensures run != [] && Leads(run, schedule, s, run[|run| - 1])
    ensures Announced(run[|run| - 1], n, k + 1) && run[|run| - 1].ceiling == run1[|run1| - 1].ceiling
  {
    var mid := run1[|run1| - 1];
    var run2, schedule2, c := TransmitAlone(mid, 0, m, 0);
    Concat(run1, schedule1, run2, schedule2);
    InvAt(run2, schedule2, |schedule2|);
    AnnouncedOneMore(mid, run2[|run2| - 1], n, k, m, c);
    run, schedule := run1 + run2[1..], schedule1 + schedule2;
  }

  /**
   For every number of laps there is a run of a segment with two processes, one transmitting and one reading,
   in which the transmitter searches in vain for that many laps, without spurious failures, although at each
   instant all blocks but one at most are free.
   */
  lemma SearchCanStarve(realMsgSize: nat, m: Message, laps: nat)
    returns (run: seq<State>, schedule: seq<Action>, from: nat)
    requires Sendable(m, ConfFor(realMsgSize).ceilingMsgSize)
    ensures Execution(run, schedule) && run[0] == Init(ConfFor(realMsgSize), 2) && from <= |schedule|
    ensures Starves(run, 0, from) && NoneSpurious(schedule[from..]) && OwnSteps(schedule[from..], 0) == 2 * laps
  {
    var s0, begin := Init(ConfFor(realMsgSize), 2), Action(0, Transmit(m));
    InitInv(realMsgSize, 2);
    BlockCounts(realMsgSize, 0);
    var run1, schedule1 := AnnounceAll(s0, m, |s0.blocks|, |s0.blocks|);
    var s1 := run1[|run1| - 1];
    StepKeepsInv(s1, 0, begin.event);
    var s2 := Step(s1, 0, begin.event);
    var run2, schedule2 := Laps(s2, 0, 1, laps);
    Runs.Append<State, Action>(Inv, Follows, run1, schedule1, begin, s2);
    var run12, schedule12 := run1 + [s2], schedule1 + [begin];
    Concat(run12, schedule12, run2, schedule2);
    run, schedule, from := run12 + run2[1..], schedule12 + schedule2, |schedule12|;
    assert schedule[from..] == schedule2;
    forall i | from <= i < |run|
      ensures Searching(run[i].threads[0]) && AnyFree(run[i])
    {
      assert run[i] == run2[i - from];
    }
  }
}
