/** Small shared vocabulary: optional values, bytes, sequences, counting over a thread table, and runs. */
module Wrappers {
  datatype Option<+T> = None | Some(value: T)
}

/** Bytes of memory. */
module Bytes {

  type Byte = x: int | 0 <= x < 256
}

module Sequences {

  /** A sequence of numbers that climbs by at most one at a time passes through every value in between. */
  lemma {:induction false} IntermediateValue(h: seq<nat>, i: nat, j: nat, value: nat) returns (m: nat)
    requires i <= j < |h| && h[i] <= value <= h[j]
    requires forall k :: i <= k < j ==> h[k + 1] <= h[k] + 1
    ensures i <= m <= j && h[m] == value
    decreases j
  {
    if h[j] == value {
      m := j;
    } else {
      assert h[j - 1 + 1] <= h[j - 1] + 1;
      m := IntermediateValue(h, i, j - 1, value);
    }
  }

  /** A sequence of numbers that ends higher than it began rises somewhere. */
  lemma {:induction false} LastRise(h: seq<nat>, i: nat, j: nat) returns (m: nat)
    requires i <= j < |h| && h[i] < h[j]
    ensures i <= m < j && h[m] < h[m + 1]
    decreases j
  {
    if h[j - 1] < h[j] {
      m := j - 1;
    } else {
      m := LastRise(h, i, j - 1);
    }
  }

  /** If each sequence is a prefix of the next one, each is a prefix of every later one. */
  lemma {:induction false} PrefixOfLater<T>(hs: seq<seq<T>>, i: nat, j: nat)
    requires i <= j < |hs|
    requires forall k :: 0 <= k < |hs| - 1 ==> hs[k] <= hs[k + 1]
    ensures hs[i] <= hs[j]
    decreases j
  {
    if i < j {
      PrefixOfLater(hs, i, j - 1);
      assert hs[j - 1] <= hs[j - 1 + 1];
    }
  }
}

module Counting {

  function B2N(p: bool): nat {
    if p then 1 else 0
  }

  function Count<T>(s: seq<T>, p: T -> bool): nat {
    if s == [] then 0 else (if p(s[0]) then 1 else 0) + Count(s[1..], p)
  }

  lemma {:induction false} CountUpdate<T>(s: seq<T>, p: T -> bool, i: nat, x: T)
    requires i < |s|
    ensures Count(s[i := x], p) == Count(s, p) - (if p(s[i]) then 1 else 0) + (if p(x) then 1 else 0)
    decreases s
  {
    var s' := s[i := x];
    if i == 0 {
      assert s'[1..] == s[1..];
    } else {
      assert s'[1..] == s[1..][i - 1 := x];
      CountUpdate(s[1..], p, i - 1, x);
    }
  }

  lemma {:induction false} CountNone<T>(s: seq<T>, p: T -> bool)
    ensures Count(s, p) == 0 <==> forall i :: 0 <= i < |s| ==> !p(s[i])
    decreases s
  {
    if s != [] {
      CountNone(s[1..], p);
      assert (forall i :: 0 <= i < |s| ==> !p(s[i])) ==> forall i :: 0 <= i < |s[1..]| ==> !p(s[1..][i]);
      assert forall i :: 1 <= i < |s| ==> s[i] == s[1..][i - 1];
    }
  }

  /** Two positions that satisfy the predicate make the count at least two. */
  lemma CountTwo<T>(s: seq<T>, p: T -> bool, i: nat, j: nat)
    requires i < j < |s| && p(s[i]) && p(s[j])
    ensures Count(s, p) >= 2
  {
    CountSplit(s, p, j);
    CountNone(s[..j], p);
    assert s[..j][i] == s[i];
    CountNone(s[j..], p);
    assert s[j..][0] == s[j];
  }

  lemma {:induction false} CountSplit<T>(s: seq<T>, p: T -> bool, k: nat)
    requires k <= |s|
    ensures Count(s, p) == Count(s[..k], p) + Count(s[k..], p)
    decreases k
  {
    if k > 0 {
      CountSplit(s[1..], p, k - 1);
      assert s[..k][1..] == s[1..][..k - 1];
      assert s[1..][k - 1..] == s[k..];
    } else {
      assert s[..0] == [] && s[0..] == s;
    }
  }
}

/** Runs of a step system as the sequence of its states, one more than there are steps. */
module Runs {

  ghost predicate HoldsAt<S>(inv: S -> bool, run: seq<S>, i: nat)
    requires i < |run|
  {
    inv(run[i])
  }

  ghost predicate StepsTo<S, A>(follows: (S, A, S) -> bool, run: seq<S>, schedule: seq<A>, i: nat)
    requires i < |schedule| < |run|
  {
    follows(run[i], schedule[i], run[i + 1])
  }

  ghost predicate Execution<S, A>(inv: S -> bool, follows: (S, A, S) -> bool, run: seq<S>, schedule: seq<A>) {
    && |run| == |schedule| + 1
    && (forall i :: 0 <= i < |run| ==> HoldsAt(inv, run, i))
    && (forall i :: 0 <= i < |schedule| ==> StepsTo(follows, run, schedule, i))
  }

  lemma Front<S, A>(inv: S -> bool, follows: (S, A, S) -> bool, run: seq<S>, schedule: seq<A>, n: nat)
    requires Execution(inv, follows, run, schedule) && n <= |schedule|
    ensures Execution(inv, follows, run[..n + 1], schedule[..n])
  {
    var before, steps := run[..n + 1], schedule[..n];
    forall i | 0 <= i <= n
      ensures HoldsAt(inv, before, i)
    {
      assert HoldsAt(inv, run, i);
    }
    forall i | 0 <= i < n
      ensures StepsTo(follows, before, steps, i)
    {
      assert StepsTo(follows, run, schedule, i);
    }
  }

  lemma Append<S, A>(inv: S -> bool, follows: (S, A, S) -> bool, run: seq<S>, schedule: seq<A>, a: A, s: S)
    requires Execution(inv, follows, run, schedule) && follows(run[|schedule|], a, s) && inv(s)
    ensures Execution(inv, follows, run + [s], schedule + [a])
  {
    var longer, more := run + [s], schedule + [a];
    forall i | 0 <= i < |longer|
      ensures HoldsAt(inv, longer, i)
    {
      assert i < |run| ==> HoldsAt(inv, run, i);
    }
    forall i | 0 <= i < |more|
      ensures StepsTo(follows, longer, more, i)
    {
      assert i < |schedule| ==> StepsTo(follows, run, schedule, i);
    }
  }

  ghost predicate CanStep<S(!new), A>(inv: S -> bool, follows: (S, A, S) -> bool, s: S, a: A) {
    exists s' :: follows(s, a, s') && inv(s')
  }

  /** Any action can be taken in any state with the invariant, and keeps it. */
  ghost predicate Total<S(!new), A(!new)>(inv: S -> bool, follows: (S, A, S) -> bool) {
    forall s, a :: inv(s) ==> CanStep(inv, follows, s, a)
  }

  /** Then every schedule can be run. */
  lemma {:induction false} EveryScheduleRuns<S(!new), A(!new)>(
    inv: S -> bool, follows: (S, A, S) -> bool, s: S, schedule: seq<A>)
    returns (run: seq<S>)
    requires inv(s) && Total(inv, follows)
    ensures Execution(inv, follows, run, schedule) && run[0] == s
    decreases |schedule|
  {
    if schedule == [] {
      run := [s];
      assert HoldsAt(inv, run, 0);
    } else {
      var n := |schedule| - 1;
      var front, a := schedule[..n], schedule[n];
      var before := EveryScheduleRuns(inv, follows, s, front);
      assert HoldsAt(inv, before, n) && CanStep(inv, follows, before[n], a);
      var next :| follows(before[n], a, next) && inv(next);
      Append(inv, follows, before, front, a, next);
      assert schedule == front + [a];
      run := before + [next];
    }
  }

  lemma Prepend<S, A>(inv: S -> bool, follows: (S, A, S) -> bool, s: S, a: A, run: seq<S>, schedule: seq<A>)
    requires Execution(inv, follows, run, schedule) && inv(s) && follows(s, a, run[0])
    ensures Execution(inv, follows, [s] + run, [a] + schedule)
  {
    var longer, more := [s] + run, [a] + schedule;
    forall i | 0 <= i < |longer|
      ensures HoldsAt(inv, longer, i)
    {
      assert i > 0 ==> HoldsAt(inv, run, i - 1);
    }
    forall i | 0 <= i < |more|
      ensures StepsTo(follows, longer, more, i)
    {
      assert i > 0 ==> StepsTo(follows, run, schedule, i - 1);
    }
  }

  lemma Concat<S, A>(
    inv: S -> bool, follows: (S, A, S) -> bool, run: seq<S>, schedule: seq<A>, run2: seq<S>, schedule2: seq<A>)
    requires Execution(inv, follows, run, schedule) && Execution(inv, follows, run2, schedule2)
    requires run2[0] == run[|schedule|]
    ensures Execution(inv, follows, run + run2[1..], schedule + schedule2)
    ensures (run + run2[1..])[|schedule + schedule2|] == run2[|schedule2|]
  {
    var all, actions, m := run + run2[1..], schedule + schedule2, |schedule|;
    forall i | 0 <= i < |all|
      ensures HoldsAt(inv, all, i)
    {
      assert if i <= m then HoldsAt(inv, run, i) else HoldsAt(inv, run2, i - m);
    }
    forall i | 0 <= i < |actions|
      ensures StepsTo(follows, all, actions, i)
    {
      assert if i < m then StepsTo(follows, run, schedule, i) else StepsTo(follows, run2, schedule2, i - m);
    }
  }
}
