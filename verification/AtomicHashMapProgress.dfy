/**
 That calls on the table of base/atomic_hash_map.h return: a call left alone, however far other threads had
 moved the table on while it waited, is done within a number of steps set by the length of its bucket's chain.
 */
module AtomicHashMapProgress {
  import Runs
  import opened Bits
  import opened Wrappers
  import opened AtomicHashMapProtocol
  import opened AtomicHashMapInvariant
  import opened AtomicHashMapProperties

  /** What the thread has read and will rely on has not been overtaken. */
  predicate Current<V>(s: State<V>, l: Thread<V>) {
    match l
    case Compare(_, prev, target) => prev < |s.entries| && s.entries[prev].next == target
    case CasValue(_, at, oldBox) => at < |s.entries| && s.entries[at].box == oldBox
    case StoreNext(_, prev, target) => prev < |s.entries| && s.entries[prev].next == target
    case CasNext(_, prev, target) => prev < |s.entries| && s.entries[prev].next == target
    case _ => true
  }

  /** The number of keys in the chain of a key's bucket. */
  ghost function ChainLength<V>(s: State<V>, key: int): nat
    requires InRange(s)
  {
    |After(s, Bucket(key, s.bits))|
  }

  /** At most so many steps separate a call that is left alone from its return. */
  ghost function Remaining<V>(s: State<V>, t: nat): nat
    requires Inv(s) && t < |s.threads|
  {
    assert ThreadOk(s, t);
    match s.threads[t]
    case Idle => 0
    case Returned(_, _) => 0
    case LoadNext(l, prev) => 2 * |After(s, prev)| + 6
    case Compare(l, prev, target) =>
      if Current(s, s.threads[t]) then 2 * |After(s, prev)| + 5 else 2 * ChainLength(s, l.call.key) + 9
    case LoadValue(_, _) => 1
    case LoadOldValue(_, _) => 2
    case CasValue(l, _, _) => if Current(s, s.threads[t]) then 1 else 2 * ChainLength(s, l.call.key) + 7
    case StoreNext(l, _, _) => if Current(s, s.threads[t]) then 2 else 2 * ChainLength(s, l.call.key) + 8
    case CasNext(l, _, _) => if Current(s, s.threads[t]) then 1 else 2 * ChainLength(s, l.call.key) + 7
  }

  lemma SmallerSet(a: set<int>, b: set<int>)
    requires a <= b
    ensures |a| <= |b| && (a != b ==> |a| < |b|)
  {
    assert b == a + (b - a);
    if b - a == {} {
      assert forall x :: x in b ==> x in a;
    }
  }

  /** The keys after an entry are among those of its chain. */
  lemma AfterWithin<V>(s: State<V>, a: nat)
    requires InRange(s) && Published(s, a) && Home(s, a) < |s.entries|
    ensures Published(s, Home(s, a)) && |After(s, a)| <= |After(s, Home(s, a))|
  {
    SmallerSet(After(s, a), After(s, Home(s, a)));
  }

  /** The next entry has fewer keys after it. */
  lemma AfterShrinks<V>(s: State<V>, a: nat, b: nat)
    requires InRange(s) && Published(s, a) && TargetOk(s, a, Some(b))
    ensures |After(s, b)| < |After(s, a)|
  {
    var key := s.entries[b].key;
    assert key in After(s, a) && key !in After(s, b);
    SmallerSet(After(s, b), After(s, a));
  }

  lemma AfterSame<V>(s: State<V>, s': State<V>, a: nat)
    requires InRange(s) && InRange(s') && Published(s, a) && Published(s', a)
    requires s'.linked == s.linked && s'.bits == s.bits
    requires |s.entries| <= |s'.entries| && s'.entries[a].key == s.entries[a].key
    ensures After(s', a) == After(s, a)
  {}

  lemma RemainingBounded<V>(s: State<V>, t: nat)
    requires Inv(s) && t < |s.threads| && !Resting(s.threads[t])
    ensures Remaining(s, t) <= 2 * ChainLength(s, s.threads[t].l.call.key) + 9
  {
    assert ThreadOk(s, t);
    if s.threads[t].LoadNext? || s.threads[t].Compare? {
      AfterWithin(s, s.threads[t].prev);
    }
  }

  /** A step that moves only thread `t`, and perhaps allocates or fills an entry nobody can see. */
  ghost predicate Local<V>(s: State<V>, s': State<V>, t: nat) {
    && t < |s.threads| == |s'.threads| && s'.linked == s.linked && s'.bits == s.bits
    && |s.entries| <= |s'.entries|
    && (forall a :: 0 <= a < |s.entries| ==>
          s'.entries[a].key == s.entries[a].key && s'.entries[a].box == s.entries[a].box)
    && (forall a :: 0 <= a < |s.entries| && Pow2(s.bits) <= |s.entries| && Published(s, a) ==>
          s'.entries[a].next == s.entries[a].next)
  }

  lemma LocalKeeps<V>(s: State<V>, s': State<V>, t: nat, a: nat)
    requires InRange(s) && InRange(s') && Local(s, s', t) && Published(s, a)
    ensures Published(s', a) && After(s', a) == After(s, a)
    ensures forall key :: ChainLength(s', key) == ChainLength(s, key)
  {
    AfterSame(s, s', a);
    forall key
      ensures ChainLength(s', key) == ChainLength(s, key)
    {
      AfterSame(s, s', Bucket(key, s.bits));
    }
  }

  lemma StepIsLocal<V>(s: State<V>, t: nat)
    requires Inv(s) && t < |s.threads| && !Resting(s.threads[t])
    ensures Next(s, t).threads[t].Returned? || Local(s, Next(s, t), t)
  {
    assert ThreadOk(s, t);
  }

  /** Reading a link brings a traversal one step closer, and what it read is current. */
  lemma LoadNextCloser<V>(s: State<V>, t: nat)
    requires Inv(s) && t < |s.threads| && Inv(Next(s, t)) && s.threads[t].LoadNext?
    ensures Remaining(Next(s, t), t) < Remaining(s, t)
  {
    StepIsLocal(s, t);
    assert ThreadOk(s, t);
    LocalKeeps(s, Next(s, t), t, s.threads[t].prev);
  }

  lemma PassCloser<V>(s: State<V>, t: nat)
    requires Inv(s) && t < |s.threads| && Inv(Next(s, t)) && s.threads[t].Compare? && s.threads[t].target.Some?
    requires s.threads[t].target.value < |s.entries|
    requires s.entries[s.threads[t].target.value].key < s.threads[t].l.call.key
    ensures Remaining(Next(s, t), t) < Remaining(s, t)
  {
    assert ThreadOk(s, t);
    var Compare(l, prev, target) := s.threads[t];
    StepIsLocal(s, t);
    LocalKeeps(s, Next(s, t), t, prev);
    AfterShrinks(s, prev, target.value);
    LocalKeeps(s, Next(s, t), t, target.value);
    AfterWithin(s, prev);
  }

  /** Whether the key is there or not, a query returns and a Set goes on to its last steps. */
  lemma StopCloser<V>(s: State<V>, t: nat)
    requires Inv(s) && t < |s.threads| && Inv(Next(s, t)) && s.threads[t].Compare?
    requires !Next(s, t).threads[t].LoadNext?
    ensures Remaining(Next(s, t), t) < Remaining(s, t)
  {
    assert ThreadOk(s, t);
    if !Next(s, t).threads[t].Returned? {
      StepIsLocal(s, t);
      LocalKeeps(s, Next(s, t), t, s.threads[t].prev);
    }
  }

  lemma CompareCloser<V>(s: State<V>, t: nat)
    requires Inv(s) && t < |s.threads| && Inv(Next(s, t)) && s.threads[t].Compare?
    ensures Remaining(Next(s, t), t) < Remaining(s, t)
  {
    if Next(s, t).threads[t].LoadNext? {
      assert ThreadOk(s, t);
      PassCloser(s, t);
    } else {
      StopCloser(s, t);
    }
  }

  /** The last steps of a Set: with what was read still current they succeed, else the call starts over. */
  lemma ReplaceCloser<V>(s: State<V>, t: nat)
    requires Inv(s) && t < |s.threads| && Inv(Next(s, t))
    requires s.threads[t].LoadOldValue? || s.threads[t].CasValue?
    ensures Remaining(Next(s, t), t) < Remaining(s, t)
  {
    assert ThreadOk(s, t);
    if !Next(s, t).threads[t].Returned? {
      StepIsLocal(s, t);
      LocalKeeps(s, Next(s, t), t, Bucket(s.threads[t].l.call.key, s.bits));
    }
  }

  lemma StoreCloser<V>(s: State<V>, t: nat)
    requires Inv(s) && t < |s.threads| && Inv(Next(s, t)) && s.threads[t].StoreNext?
    ensures Remaining(Next(s, t), t) < Remaining(s, t)
  {
    assert ThreadOk(s, t);
    var s', prev := Next(s, t), s.threads[t].prev;
    StepIsLocal(s, t);
    LocalKeeps(s, s', t, prev);
    assert s'.entries[prev].next == s.entries[prev].next;
    assert Current(s', s'.threads[t]) == Current(s, s.threads[t]);
  }

  lemma LinkCloser<V>(s: State<V>, t: nat)
    requires Inv(s) && t < |s.threads| && Inv(Next(s, t)) && s.threads[t].CasNext?
    ensures Remaining(Next(s, t), t) < Remaining(s, t)
  {
    assert ThreadOk(s, t);
    if !Next(s, t).threads[t].Returned? {
      StepIsLocal(s, t);
      LocalKeeps(s, Next(s, t), t, Bucket(s.threads[t].l.call.key, s.bits));
    }
  }

  lemma StepCloser<V>(s: State<V>, t: nat)
    requires Inv(s) && t < |s.threads| && !Resting(s.threads[t])
    ensures Inv(Next(s, t)) && t < |Next(s, t).threads| && !Next(s, t).threads[t].Idle?
    ensures Remaining(Next(s, t), t) < Remaining(s, t)
  {
    StepKeepsInv(s, t, Advance);
    assert ThreadOk(s, t);
    match s.threads[t]
    case LoadNext(_, _) => LoadNextCloser(s, t);
    case Compare(_, _, _) => CompareCloser(s, t);
    case LoadValue(_, _) =>
    case LoadOldValue(_, _) => ReplaceCloser(s, t);
    case CasValue(_, _, _) => ReplaceCloser(s, t);
    case StoreNext(_, _, _) => StoreCloser(s, t);
    case CasNext(_, _, _) => LinkCloser(s, t);
  }

  /** A run in which only thread `t` takes steps. */
  ghost predicate Alone<V>(run: seq<State<V>>, schedule: seq<Action<V>>, t: nat) {
    Execution(run, schedule) && forall i :: 0 <= i < |schedule| ==> schedule[i] == Action(t, Advance)
  }

  lemma Prepended<V>(s: State<V>, t: nat, run: seq<State<V>>, schedule: seq<Action<V>>)
    requires Inv(s) && t < |s.threads| && Alone(run, schedule, t) && run[0] == Next(s, t)
    ensures Alone([s] + run, [Action(t, Advance)] + schedule, t)
  {
    Runs.Prepend<State<V>, Action<V>>(Inv, Follows, s, Action(t, Advance), run, schedule);
  }

  lemma Finished<V>(s: State<V>, t: nat)
    requires Inv(s)
    ensures Alone([s], [], t)
  {
    assert Runs.HoldsAt<State<V>>(Inv, [s], 0);
  }

  /**
   From every reachable state a call left alone returns, within twice as many steps as its bucket has keys and
   nine more: it may find once that what it had read has been overtaken, and start over.
   */
  lemma {:induction false} CallReturnsAlone<V>(s: State<V>, t: nat)
    returns (run: seq<State<V>>, schedule: seq<Action<V>>)
    requires Inv(s) && t < |s.threads| && !Resting(s.threads[t])
    ensures Alone(run, schedule, t) && run[0] == s
    ensures |schedule| <= Remaining(s, t) <= 2 * ChainLength(s, s.threads[t].l.call.key) + 9
    ensures t < |run[|schedule|].threads| && run[|schedule|].threads[t].Returned?
    decreases Remaining(s, t)
  {
    var s' := Next(s, t);
    StepCloser(s, t);
    RemainingBounded(s, t);
    if s'.threads[t].Returned? {
      run, schedule := [s'], [];
      Finished(s', t);
    } else {
      run, schedule := CallReturnsAlone(s', t);
    }
    Prepended(s, t, run, schedule);
    run, schedule := [s] + run, [Action(t, Advance)] + schedule;
  }
}
