/**
 How long the search for a writable block takes while other transmitters search too and readers come and go.
 */
module TransportSearch {
  import opened Modular
  import opened Counting
  import opened SharedWords
  import opened TransportProtocol
  import opened TransportInvariant
  import S = SegmentModel

  predicate Searching(l: Thread) {
    l.FetchSeq? || l.TryLock?
  }

  predicate Fetches(s: State, a: Action) {
    a.event.Advance? && a.thread < |s.threads| && s.threads[a.thread].FetchSeq?
  }

  /** The steps that thread `t` takes in a schedule. */
  function OwnSteps(schedule: seq<Action>, t: nat): nat {
    if schedule == [] then 0
    else
      var a := schedule[|schedule| - 1];
      OwnSteps(schedule[..|schedule| - 1], t) + (if a.thread == t && a.event.Advance? then 1 else 0)
  }

  /** The block that the `j`-th ticket from `c0` on leads to. */
  function Turn(c0: nat, j: nat, n: nat): nat
    requires 0 < n
  {
    (c0 + j) % n
  }

  /** After `k` steps of its search, which began at counter `c0`, every other one a FetchSeq and a try to lock. */
  ghost predicate SearchAt(s: State, t: nat, c0: nat, n: nat, k: nat) {
    && 0 < n == |s.blocks| && t < |s.threads| && s.counter % n == Turn(c0, (k + 1) / 2, n)
    && (if k % 2 == 0 then s.threads[t].FetchSeq? else s.threads[t].TryLock? && s.threads[t].b == Turn(c0, k / 2, n))
  }

  /** A block is free as long as thread `t` is searching. */
  predicate FreeWhileSearching(run: seq<State>, t: nat, b: nat, i: nat)
    requires i < |run|
  {
    b < |run[i].blocks| && t < |run[i].threads| && Searching(run[i].threads[t]) ==> run[i].blocks[b].lockNum == 0
  }

  /** Thread `t` is the only one that fetches tickets, and its compare-exchanges do not fail spuriously. */
  predicate SoleWriter(run: seq<State>, schedule: seq<Action>, t: nat, i: nat)
    requires i < |schedule| && i < |run|
  {
    if schedule[i].thread == t then schedule[i].event != Advance(true) else !Fetches(run[i], schedule[i])
  }

  lemma OthersKeepCounter(s: State, a: Action, t: nat)
    requires Inv(s) && t < |s.threads| && a.thread != t && !Fetches(s, a)
    ensures var s' := Step(s, a.thread, a.event);
            && s'.counter == s.counter && |s'.blocks| == |s.blocks|
            && |s'.threads| == |s.threads| && s'.threads[t] == s.threads[t]
  {
    OthersWait(s, a, t);
    if a.thread < |s.threads| && a.event.Advance? {
      if IsWriter(s.threads[a.thread]) {
        WriterKeepsCounter(s, a.thread, a.event.spurious);
      } else {
        ReaderKeepsCounter(s, a.thread, a.event.spurious);
      }
    }
  }

  lemma WriterKeepsCounter(s: State, t: nat, spurious: bool)
    requires Shape(s) && t < |s.threads| && IsWriter(s.threads[t])
    ensures NextWriter(s, t, spurious).counter == s.counter && |NextWriter(s, t, spurious).blocks| == |s.blocks|
  {}

  lemma ReaderKeepsCounter(s: State, t: nat, spurious: bool)
    requires Shape(s) && t < |s.threads|
    ensures NextReader(s, t, spurious).counter == s.counter && |NextReader(s, t, spurious).blocks| == |s.blocks|
  {}

  /** The counter wraps at a multiple of the number of blocks, so its remainder goes up by one. */
  lemma NextRemainder(counter: nat, c: nat, n: nat)
    requires 0 < n && WORD32 % n == 0 && counter % n == c % n
    ensures (counter + 1) % WORD32 % n == (c + 1) % n
  {
    RemainderOfRemainder(counter + 1, WORD32, n);
    EqualResidues(c, counter, n);
    ShiftedResidue(c + 1, counter / n - c / n, n);
  }

  lemma SearchStep(s: State, t: nat, c0: nat, n: nat, k: nat)
    requires Inv(s) && SearchAt(s, t, c0, n, k)
    ensures var s' := Step(s, t, Advance(false));
            if k % 2 == 1 && s.blocks[Turn(c0, k / 2, n)].lockNum == 0
            then t < |s'.threads| && s'.threads[t].CopyPayload?
            else SearchAt(s', t, c0, n, k + 1)
  {
    if k % 2 == 0 {
      NextRemainder(s.counter, c0 + (k + 1) / 2, n);
    }
  }

  /** None of the first `tries` blocks tried is `b`. */
  ghost predicate NoneOf(c0: nat, n: nat, b: nat, tries: nat)
    requires 0 < n
  {
    forall j :: 0 <= j < tries ==> Turn(c0, j, n) != b
  }

  lemma SearchGoesOn(s: State, a: Action, t: nat, b: nat, c0: nat, n: nat, k: nat)
    requires Inv(s) && SearchAt(s, t, c0, n, k)
    requires b < n && s.blocks[b].lockNum == 0 && NoneOf(c0, n, b, k / 2)
    requires if a.thread == t then a.event != Advance(true) else !Fetches(s, a)
    requires var s' := Step(s, a.thread, a.event); t < |s'.threads| && Searching(s'.threads[t])
    ensures var k' := k + if a.thread == t && a.event.Advance? then 1 else 0;
            SearchAt(Step(s, a.thread, a.event), t, c0, n, k') && NoneOf(c0, n, b, k' / 2)
  {
    if a.thread != t {
      OthersKeepCounter(s, a, t);
    } else if a.event.Advance? {
      SearchStep(s, t, c0, n, k);
    }
  }

  /** While the search goes on, its steps alternate and no block it has tried is the one that stays free. */
  lemma {:induction false} SearchSoFar(run: seq<State>, schedule: seq<Action>, t: nat, b: nat, n: nat, i: nat)
    requires Execution(run, schedule) && i < |run| && SearchAt(run[0], t, run[0].counter, n, 0)
    requires WORD32 % n == 0 && b < n
    requires forall j :: 0 <= j < i ==> FreeWhileSearching(run, t, b, j) && SoleWriter(run, schedule, t, j)
    requires forall j :: 0 <= j <= i ==> t < |run[j].threads| && Searching(run[j].threads[t])
    ensures var k := OwnSteps(schedule[..i], t);
            SearchAt(run[i], t, run[0].counter, n, k) && NoneOf(run[0].counter, n, b, k / 2)
    decreases i
  {
    if i > 0 {
      var h := i - 1;
      SearchSoFar(run, schedule, t, b, n, h);
      assert schedule[..i][..h] == schedule[..h];
      StepAt(run, schedule, h);
      assert FreeWhileSearching(run, t, b, h) && SoleWriter(run, schedule, t, h);
      SearchGoesOn(run[h], schedule[h], t, b, run[0].counter, n, OwnSteps(schedule[..h], t));
    }
  }

  /** As long as the search goes on it has taken fewer than two steps for each block. */
  lemma SearchIsBounded(run: seq<State>, schedule: seq<Action>, t: nat, b: nat, i: nat)
    requires Execution(run, schedule) && i < |run| && t < |run[0].threads| && run[0].threads[t].FetchSeq?
    requires b < |run[0].blocks|
    requires forall j :: 0 <= j < i ==> FreeWhileSearching(run, t, b, j) && SoleWriter(run, schedule, t, j)
    requires forall j :: 0 <= j <= i ==> t < |run[j].threads| && Searching(run[j].threads[t])
    ensures OwnSteps(schedule[..i], t) < 2 * |run[0].blocks|
  {
    var n, c0 := |run[0].blocks|, run[0].counter;
    InvAt(run, schedule, 0);
    SearchSoFar(run, schedule, t, b, n, i);
    var j := S.EveryBlockIsACandidate(c0, n, b);
    RemainderOfRemainder(c0 + j, WORD32, n);
    assert Turn(c0, j, n) == b;
  }

  /** A thread leaves its search only with a block that it has locked. */
  lemma LeavesWithBlock(s: State, a: Action, t: nat)
    requires Inv(s) && t < |s.threads| && Searching(s.threads[t])
    ensures var s' := Step(s, a.thread, a.event);
            t < |s'.threads| && (Searching(s'.threads[t]) || s'.threads[t].CopyPayload?)
  {
    if a.thread != t {
      OthersWait(s, a, t);
    }
  }

  /**
   A sole writer's search ends: whatever the readers do, and whatever transmitters that are past their own
   search do, if some block is free as long as the search goes on, the writer has locked a block after at most
   two steps of its own for each block there is.
   */
  lemma SearchEnds(run: seq<State>, schedule: seq<Action>, t: nat, b: nat) returns (i: nat)
    requires Execution(run, schedule) && t < |run[0].threads| && run[0].threads[t].FetchSeq?
    requires b < |run[0].blocks|
    requires forall j :: 0 <= j < |schedule| ==> FreeWhileSearching(run, t, b, j) && SoleWriter(run, schedule, t, j)
    requires OwnSteps(schedule, t) >= 2 * |run[0].blocks|
    ensures 0 < i < |run| && t < |run[i].threads| && run[i].threads[t].CopyPayload?
    ensures OwnSteps(schedule[..i], t) <= 2 * |run[0].blocks|
  {
    i := 0;
    while true
      invariant i <= |schedule|
      invariant forall j :: 0 <= j <= i ==> t < |run[j].threads| && Searching(run[j].threads[t])
      decreases |schedule| - i
    {
      SearchIsBounded(run, schedule, t, b, i);
      assert schedule[..|schedule|] == schedule;
      StepAt(run, schedule, i);
      LeavesWithBlock(run[i], schedule[i], t);
      i := i + 1;
      assert schedule[..i][..i - 1] == schedule[..i - 1];
      if !Searching(run[i].threads[t]) {
        return;
      }
    }
  }

  // ----- any number of searching transmitters

  /** Standing before the attempt to lock block `b`. */
  function Trying(b: nat): Thread -> bool {
    (l: Thread) => l.TryLock? && l.b == b
  }

  /** How many tickets all threads together have drawn in the first `i` steps. */
  function Drawn(run: seq<State>, schedule: seq<Action>, i: nat): nat
    requires i <= |schedule| < |run|
  {
    if i == 0 then 0 else Drawn(run, schedule, i - 1) + B2N(Fetches(run[i - 1], schedule[i - 1]))
  }

  /** How many of the first `i` steps have their compare-exchange fail spuriously, if they make one. */
  function Spurious(schedule: seq<Action>, i: nat): nat
    requires i <= |schedule|
  {
    if i == 0 then 0 else Spurious(schedule, i - 1) + B2N(schedule[i - 1].event == Advance(true))
  }

  /** How many of the first `d` tickets from `c0` on lead to block `b`. */
  function TurnsOf(b: nat, c0: nat, d: nat, n: nat): nat
    requires 0 < n
  {
    if d == 0 then 0 else TurnsOf(b, c0, d - 1, n) + B2N(Turn(c0, d - 1, n) == b)
  }

  lemma {:induction false} TurnsGrow(b: nat, c0: nat, d: nat, e: nat, n: nat)
    requires 0 < n && d <= e
    ensures TurnsOf(b, c0, d, n) <= TurnsOf(b, c0, e, n)
    decreases e
  {
    if d < e {
      TurnsGrow(b, c0, d, e - 1, n);
    }
  }

  /** Every block has its turn once in as many tickets as there are blocks. */
  lemma {:induction false} TurnsOften(b: nat, c0: nat, laps: nat, n: nat)
    requires b < n && WORD32 % n == 0
    ensures laps <= TurnsOf(b, c0, laps * n, n)
  {
    if laps > 0 {
      var d := (laps - 1) * n;
      assert d + n == laps * n;
      TurnsOften(b, c0, laps - 1, n);
      var j := S.EveryBlockIsACandidate(c0 + d, n, b);
      S.CandidateIsResidue(c0 + d, j, n);
      assert Turn(c0, d + j, n) == b;
      TurnsGrow(b, c0, d, d + j, n);
      TurnsGrow(b, c0, d + j + 1, d + n, n);
    }
  }

  /** What one step of a thread does to the counter and to the thread itself while block `b` stays free. */
  lemma ThreadTries(s: State, a: Action, b: nat)
    requires Inv(s) && a.thread < |s.threads| && b < |s.blocks| && s.blocks[b].lockNum == 0
    requires var s' := Step(s, a.thread, a.event); b < |s'.blocks| && s'.blocks[b].lockNum == 0
    ensures var l, s' := s.threads[a.thread], Step(s, a.thread, a.event);
            && |s'.blocks| == |s.blocks| && |s'.threads| == |s.threads|
            && s'.threads == s.threads[a.thread := s'.threads[a.thread]]
            && (if Fetches(s, a)
                then && s'.threads[a.thread] == TryLock(l.m, s.counter % |s.blocks|)
                     && s'.counter == (s.counter + 1) % WORD32
                else s'.counter == s.counter)
            && (Trying(b)(l) ==> a.event == Advance(true) || s'.threads[a.thread] == l)
  {
    var t := a.thread;
    if a.event.Advance? {
      if s.threads[t].TryLock? || s.threads[t].FetchSeq? {
      } else if IsWriter(s.threads[t]) {
        WriterKeepsCounter(s, t, a.event.spurious);
        OnlyThread(s, a);
      } else {
        ReaderKeepsCounter(s, t, a.event.spurious);
        OnlyThread(s, a);
      }
    }
  }

  lemma OnlyThread(s: State, a: Action)
    requires Shape(s) && a.thread < |s.threads|
    ensures var s' := Step(s, a.thread, a.event);
            |s'.threads| == |s.threads| && s'.threads == s.threads[a.thread := s'.threads[a.thread]]
  {
    var s' := Step(s, a.thread, a.event);
    if a.event.Advance? {
      if s.threads[a.thread].FetchSeq? || IsWriter(s.threads[a.thread]) {
        OnlyWriter(s, a.thread, a.event.spurious);
      } else {
        OnlyReader(s, a.thread, a.event.spurious);
      }
    }
  }

  lemma OnlyWriter(s: State, t: nat, spurious: bool)
    requires Shape(s) && t < |s.threads| && (s.threads[t].FetchSeq? || IsWriter(s.threads[t]))
    ensures var s' := NextWriter(s, t, spurious);
            |s'.threads| == |s.threads| && s'.threads == s.threads[t := s'.threads[t]]
  {}

  lemma OnlyReader(s: State, t: nat, spurious: bool)
    requires Shape(s) && t < |s.threads|
    ensures var s' := NextReader(s, t, spurious);
            |s'.threads| == |s.threads| && s'.threads == s.threads[t := s'.threads[t]]
  {}

  /**
   While block `b` stays free, each ticket that leads to it puts one more thread before the attempt to lock it,
   and none gets away from there except by a spurious failure.
   */
  lemma TriesAfter(s: State, a: Action, b: nat)
    requires Inv(s) && b < |s.blocks| && s.blocks[b].lockNum == 0
    requires var s' := Step(s, a.thread, a.event); b < |s'.blocks| && s'.blocks[b].lockNum == 0
    ensures var s', n := Step(s, a.thread, a.event), |s.blocks|;
            && |s'.blocks| == n && |s'.threads| == |s.threads|
            && s'.counter == (if Fetches(s, a) then (s.counter + 1) % WORD32 else s.counter)
            && Count(s'.threads, Trying(b)) + B2N(a.event == Advance(true))
               >= Count(s.threads, Trying(b)) + B2N(Fetches(s, a) && s.counter % n == b)
  {
    if a.thread < |s.threads| {
      ThreadTries(s, a, b);
      CountUpdate(s.threads, Trying(b), a.thread, Step(s, a.thread, a.event).threads[a.thread]);
    }
  }

  /** Block `b` is free at the first `i` instants and the next. */
  predicate StaysFree(run: seq<State>, b: nat, i: nat) {
    forall j :: 0 <= j <= i < |run| ==> b < |run[j].blocks| && run[j].blocks[b].lockNum == 0
  }

  lemma {:induction false} TriesSoFar(run: seq<State>, schedule: seq<Action>, b: nat, n: nat, i: nat)
    requires Execution(run, schedule) && i < |run| && StaysFree(run, b, i) && n == |run[0].blocks| && b < n
    ensures var d := Drawn(run, schedule, i);
            && |run[i].blocks| == n && |run[i].threads| == |run[0].threads|
            && run[i].counter % n == Turn(run[0].counter, d, n)
            && TurnsOf(b, run[0].counter, d, n) <= Count(run[i].threads, Trying(b)) + Spurious(schedule, i)
    decreases i
  {
    if i > 0 {
      var h := i - 1;
      TriesSoFar(run, schedule, b, n, h);
      StepAt(run, schedule, h);
      assert run[h + 1].blocks[b].lockNum == 0;
      TriesAfter(run[h], schedule[h], b);
      if Fetches(run[h], schedule[h]) {
        NextRemainder(run[h].counter, run[0].counter + Drawn(run, schedule, h), n);
      }
    }
  }

  lemma {:induction false} CountAtMost<T>(s: seq<T>, p: T -> bool)
    ensures Count(s, p) <= |s|
    decreases s
  {
    if s != [] {
      CountAtMost(s[1..], p);
    }
  }

  /**
   However many transmitters search at once: while some block stays free they draw, all together, fewer tickets
   than there are blocks, times one more than there are threads and spurious failures.
   */
  lemma TicketsAreBounded(run: seq<State>, schedule: seq<Action>, b: nat, i: nat)
    requires Execution(run, schedule) && i < |run| && b < |run[0].blocks| && StaysFree(run, b, i)
    ensures Drawn(run, schedule, i) < (|run[0].threads| + Spurious(schedule, i) + 1) * |run[0].blocks|
  {
    var n, laps := |run[0].blocks|, |run[0].threads| + Spurious(schedule, i) + 1;
    InvAt(run, schedule, 0);
    TriesSoFar(run, schedule, b, n, i);
    CountAtMost(run[i].threads, Trying(b));
    TurnsOften(b, run[0].counter, laps, n);
    if Drawn(run, schedule, i) >= laps * n {
      TurnsGrow(b, run[0].counter, laps * n, Drawn(run, schedule, i), n);
    }
  }

  /** While a thread searches, every other step of its own draws a ticket. */
  lemma {:induction false} OwnStepsDraw(run: seq<State>, schedule: seq<Action>, t: nat, i: nat)
    requires Execution(run, schedule) && i < |run| && t < |run[0].threads| && run[0].threads[t].FetchSeq?
    requires forall j :: 0 <= j <= i ==> t < |run[j].threads| && Searching(run[j].threads[t])
    ensures OwnSteps(schedule[..i], t) + B2N(run[i].threads[t].TryLock?) <= 2 * Drawn(run, schedule, i)
    decreases i
  {
    if i > 0 {
      var h := i - 1;
      OwnStepsDraw(run, schedule, t, h);
      assert schedule[..i][..h] == schedule[..h];
      StepAt(run, schedule, h);
      if schedule[h].thread != t {
        OthersWait(run[h], schedule[h], t);
      }
    }
  }

  /** So each of them takes fewer than twice as many steps, as long as it has not locked a block. */
  lemma EverySearchIsBounded(run: seq<State>, schedule: seq<Action>, t: nat, b: nat, i: nat)
    requires Execution(run, schedule) && i < |run| && t < |run[0].threads| && run[0].threads[t].FetchSeq?
    requires b < |run[0].blocks| && StaysFree(run, b, i)
    requires forall j :: 0 <= j <= i ==> t < |run[j].threads| && Searching(run[j].threads[t])
    ensures OwnSteps(schedule[..i], t) < 2 * ((|run[0].threads| + Spurious(schedule, i) + 1) * |run[0].blocks|)
  {
    TicketsAreBounded(run, schedule, b, i);
    OwnStepsDraw(run, schedule, t, i);
  }

  /** And after that many it has locked one. */
  lemma EverySearchEnds(run: seq<State>, schedule: seq<Action>, t: nat, b: nat) returns (i: nat)
    requires Execution(run, schedule) && t < |run[0].threads| && run[0].threads[t].FetchSeq?
    requires b < |run[0].blocks| && StaysFree(run, b, |schedule|)
    requires OwnSteps(schedule, t)
             >= 2 * ((|run[0].threads| + Spurious(schedule, |schedule|) + 1) * |run[0].blocks|)
    ensures 0 < i < |run| && t < |run[i].threads| && run[i].threads[t].CopyPayload?
  {
    i := 0;
    while i < |schedule|
      invariant i <= |schedule|
      invariant forall j :: 0 <= j <= i ==> t < |run[j].threads| && Searching(run[j].threads[t])
      decreases |schedule| - i
    {
      StepAt(run, schedule, i);
      LeavesWithBlock(run[i], schedule[i], t);
      i := i + 1;
      if run[i].threads[t].CopyPayload? {
        return;
      }
    }
    assert schedule[..i] == schedule;
    EverySearchIsBounded(run, schedule, t, b, i);
  }
}
