/** What every run of the table of base/atomic_hash_map.h promises its callers. */
module AtomicHashMapProperties {
  import Modular
  import opened Wrappers
  import opened Bits
  import opened Sequences
  import opened AtomicHashMapProtocol
  import opened AtomicHashMapInvariant

  predicate Resting<V>(l: Thread<V>) {
    l.Idle? || l.Returned?
  }

  /** The step completes a Set call of thread `t`. */
  predicate Stores<V>(s: State<V>, s': State<V>, t: nat)
    requires t < |s.threads| == |s'.threads|
  {
    s'.threads[t].Returned? && s'.threads[t].answer.Stored? && !Resting(s.threads[t])
  }

  /**
   Each step leaves the plain map alone, except the one that completes a Set, which changes it by
   exactly that call's update.
   */
  lemma StepRefinesMap<V>(s: State<V>, t: nat, e: Event<V>)
    requires Inv(s) && t < |s.threads|
    ensures var s' := Step(s, t, e);
            && Inv(s') && |s'.threads| == |s.threads|
            && (if Stores(s, s', t)
                then && s.threads[t].l.call.Set?
                     && Contents(s') == Contents(s)[s.threads[t].l.call.key := s.threads[t].l.call.value]
                     && s'.history == s.history + [Contents(s')]
                else Contents(s') == Contents(s) && s'.history == s.history)
    ensures forall u :: 0 <= u < |s.threads| && u != t ==> Step(s, t, e).threads[u] == s.threads[u]
  {
    StepKeepsInv(s, t, e);
    StepHistory(s, t, e);
  }

  lemma StepHistory<V>(s: State<V>, t: nat, e: Event<V>)
    requires Inv(s) && t < |s.threads|
    ensures var s' := Step(s, t, e);
            && |s'.threads| == |s.threads|
            && (if Stores(s, s', t)
                then && s.threads[t].l.call.Set?
                     && s'.history == s.history + [Contents(s)[s.threads[t].l.call.key := s.threads[t].l.call.value]]
                else s'.history == s.history)
            && (forall u :: 0 <= u < |s.threads| && u != t ==> s'.threads[u] == s.threads[u])
  {
    assert ThreadOk(s, t);
    if e.Advance? {
      match s.threads[t]
      case Compare(l, prev, target) =>
        assert Next(s, t).history == s.history;
      case _ =>
    }
  }

  // ----- the history along a run

  lemma HistoryStep<V>(run: seq<State<V>>, schedule: seq<Action<V>>, i: nat)
    requires Execution(run, schedule) && i < |schedule|
    ensures var before, after := run[i], run[i + 1];
            && before.history != [] && before.history <= after.history && |after.history| <= |before.history| + 1
            && (|before.history| < |after.history| ==>
                  schedule[i].thread < |before.threads| == |after.threads| && Stores(before, after, schedule[i].thread))
  {
    StepAt(run, schedule, i);
    if schedule[i].thread < |run[i].threads| {
      StepHistory(run[i], schedule[i].thread, schedule[i].event);
    }
  }

  ghost function Histories<V>(run: seq<State<V>>): (hs: seq<seq<map<int, V>>>)
    ensures |hs| == |run| && forall i :: 0 <= i < |run| ==> hs[i] == run[i].history
  {
    seq(|run|, i requires 0 <= i < |run| => run[i].history)
  }

  lemma HistoriesGrow<V>(run: seq<State<V>>, schedule: seq<Action<V>>)
    requires Execution(run, schedule)
    ensures var hs := Histories(run);
            forall i :: 0 <= i < |hs| - 1 ==> hs[i] <= hs[i + 1] && |hs[i + 1]| <= |hs[i]| + 1
  {
    forall i | 0 <= i < |schedule|
      ensures var hs := Histories(run);
              hs[i] <= hs[i + 1] && |hs[i + 1]| <= |hs[i]| + 1
    {
      HistoryStep(run, schedule, i);
    }
  }

  lemma HistoryAt<V>(run: seq<State<V>>, schedule: seq<Action<V>>, i: nat)
    requires Execution(run, schedule) && i < |run|
    ensures run[i].history != []
  {
    InvAt(run, schedule, i);
  }

  /** Every position of the history between two instants was the latest one at some instant between them. */
  lemma LatestAtSomeInstant<V>(run: seq<State<V>>, schedule: seq<Action<V>>, i: nat, j: nat, position: nat)
    returns (m: nat)
    requires Execution(run, schedule) && i <= j < |run|
    requires |run[i].history| <= position + 1 <= |run[j].history|
    ensures i <= m <= j && |run[m].history| == position + 1 && run[m].history <= run[j].history
  {
    var hs := Histories(run);
    HistoriesGrow(run, schedule);
    var lengths: seq<nat> := seq(|hs|, k requires 0 <= k < |hs| => |hs[k]|);
    m := IntermediateValue(lengths, i, j, position + 1);
    PrefixOfLater(hs, m, j);
  }

  /** If the history is longer at a later instant, some step in between completed a Set. */
  lemma SomeStepStored<V>(run: seq<State<V>>, schedule: seq<Action<V>>, i: nat, j: nat) returns (m: nat)
    requires Execution(run, schedule) && i <= j < |run| && |run[i].history| < |run[j].history|
    ensures i <= m < j && schedule[m].thread < |run[m].threads| == |run[m + 1].threads|
    ensures Stores(run[m], run[m + 1], schedule[m].thread)
  {
    var hs := Histories(run);
    var lengths: seq<nat> := seq(|hs|, k requires 0 <= k < |hs| => |hs[k]|);
    m := LastRise(lengths, i, j);
    HistoryStep(run, schedule, m);
  }

  // ----- linearizability

  /** Thread `t` is in the middle of a call. */
  predicate Busy<V>(run: seq<State<V>>, t: nat, m: nat)
    requires m < |run|
  {
    t < |run[m].threads| && !Resting(run[m].threads[t])
  }

  /** Thread `t` takes up `call` in step `i` and is busy with it until instant `j`. */
  ghost predicate CallBetween<V>(run: seq<State<V>>, schedule: seq<Action<V>>, t: nat, call: Call<V>, i: nat, j: nat)
    requires |run| == |schedule| + 1
  {
    && i < j <= |schedule| && schedule[i] == Action(t, Start(call))
    && t < |run[i].threads| && Resting(run[i].threads[t])
    && (forall m :: i < m < j ==> Busy(run, t, m))
  }

  ghost predicate Remembers<V>(l: Thread<V>, call: Call<V>, start: int) {
    !l.Idle? && l.l.call == call && l.l.start == start
  }

  /** A call keeps its arguments and remembers the history as it stood when it began. */
  lemma {:induction false} CallRemembersStart<V>(
    run: seq<State<V>>, schedule: seq<Action<V>>, t: nat, call: Call<V>, i: nat, j: nat)
    requires Execution(run, schedule) && CallBetween(run, schedule, t, call, i, j)
    ensures t < |run[j].threads| && Remembers(run[j].threads[t], call, |run[i].history| - 1)
    ensures j == i + 1 ==> !Resting(run[j].threads[t])
    decreases j
  {
    var m := j - 1;
    StepAt(run, schedule, m);
    if m == i {
      StartTaken(run[m], t, call);
    } else {
      CallRemembersStart(run, schedule, t, call, i, m);
      assert Busy(run, t, m);
      if schedule[m].thread < |run[m].threads| {
        KeepsCall(run[m], schedule[m].thread, schedule[m].event, t);
      }
    }
  }

  lemma StartTaken<V>(s: State<V>, t: nat, call: Call<V>)
    requires Inv(s) && t < |s.threads| && Resting(s.threads[t])
    ensures var s' := Step(s, t, Start(call));
            t < |s'.threads| && !Resting(s'.threads[t]) && Remembers(s'.threads[t], call, |s.history| - 1)
  {}

  lemma KeepsCall<V>(s: State<V>, u: nat, e: Event<V>, t: nat)
    requires Inv(s) && t < |s.threads| && u < |s.threads|
    ensures t < |Step(s, u, e).threads|
    ensures u != t ==> Step(s, u, e).threads[t] == s.threads[t]
    ensures var l, l' := s.threads[t], Step(s, u, e).threads[t];
            !Resting(l) ==> Remembers(l', l.l.call, l.l.start)
  {
    assert ThreadOk(s, u);
  }

  /** What the plain map answers to a query. */
  ghost function Reply<V>(m: map<int, V>, call: Call<V>): Answer<V> {
    match call
    case Has(k) => Present(k in m)
    case Get(k) => Value(if k in m then Some(m[k]) else None)
    case Set(_, _) => Stored
  }

  /** A call that has returned carries an answer that was right at one position of the history since it began. */
  lemma ReturnedAnswer<V>(s: State<V>, t: nat)
    requires Inv(s) && t < |s.threads| && s.threads[t].Returned?
    ensures var l := s.threads[t].l;
            && l.start <= l.seen < |s.history|
            && (l.call.Set? ==> l.start < l.seen)
            && (!l.call.Set? ==> s.threads[t].answer == Reply(s.history[l.seen], l.call))
  {
    assert ThreadOk(s, t);
  }

  lemma LatestIsContents<V>(run: seq<State<V>>, schedule: seq<Action<V>>, m: nat)
    requires Execution(run, schedule) && m < |run|
    ensures InRange(run[m]) && Contents(run[m]) == run[m].history[|run[m].history| - 1]
  {
    InvAt(run, schedule, m);
  }

  /**
   Every answer of Has and Get, hit or miss, is the plain map's answer at some instant between the
   call's first step and its return, however stale the traversal was by then.
   */
  lemma QueryAnswersAtSomeInstant<V>(
    run: seq<State<V>>, schedule: seq<Action<V>>, t: nat, call: Call<V>, i: nat, j: nat)
    returns (m: nat)
    requires Execution(run, schedule) && CallBetween(run, schedule, t, call, i, j) && !call.Set?
    requires t < |run[j].threads| && run[j].threads[t].Returned?
    ensures i <= m <= j && InRange(run[m])
    ensures run[j].threads[t].answer == Reply(Contents(run[m]), call)
  {
    CallRemembersStart(run, schedule, t, call, i, j);
    InvAt(run, schedule, j);
    ReturnedAnswer(run[j], t);
    HistoryAt(run, schedule, i);
    m := LatestAtSomeInstant(run, schedule, i, j, run[j].threads[t].l.seen);
    LatestIsContents(run, schedule, m);
  }

  /** A Set that has returned made exactly one update, and made it during the call. */
  lemma SetUpdatesDuringCall<V>(run: seq<State<V>>, schedule: seq<Action<V>>, t: nat, call: Call<V>, i: nat, j: nat)
    returns (m: nat)
    requires Execution(run, schedule) && CallBetween(run, schedule, t, call, i, j) && call.Set?
    requires t < |run[j].threads| && run[j].threads[t].Returned?
    ensures i < m < j && schedule[m].thread == t
    ensures InRange(run[m]) && InRange(run[m + 1])
    ensures Contents(run[m + 1]) == Contents(run[m])[call.key := call.value]
    ensures forall n :: i < n < j && n != m && schedule[n].thread == t ==>
              InRange(run[n]) && InRange(run[n + 1]) && Contents(run[n + 1]) == Contents(run[n])
  {
    m := j - 1;
    LastStepStores(run, schedule, t, call, i, j);
    forall n | i < n < j && n != m && schedule[n].thread == t
      ensures InRange(run[n]) && InRange(run[n + 1]) && Contents(run[n + 1]) == Contents(run[n])
    {
      StepAt(run, schedule, n);
      assert Busy(run, t, n) && Busy(run, t, n + 1);
      StepRefinesMap(run[n], t, schedule[n].event);
    }
  }

  /** The step that returns from a Set is the calling thread's own, not the one that began it, and makes the update. */
  lemma LastStepStores<V>(run: seq<State<V>>, schedule: seq<Action<V>>, t: nat, call: Call<V>, i: nat, j: nat)
    requires Execution(run, schedule) && CallBetween(run, schedule, t, call, i, j) && call.Set?
    requires t < |run[j].threads| && run[j].threads[t].Returned?
    ensures i < j - 1 && schedule[j - 1].thread == t
    ensures InRange(run[j - 1]) && InRange(run[j])
    ensures Contents(run[j]) == Contents(run[j - 1])[call.key := call.value]
  {
    CallRemembersStart(run, schedule, t, call, i, j);
    var m := j - 1;
    assert Busy(run, t, m);
    CallRemembersStart(run, schedule, t, call, i, m);
    StepAt(run, schedule, m);
    ReturningStep(run[m], schedule[m], t);
  }

  lemma ReturningStep<V>(s: State<V>, a: Action<V>, t: nat)
    requires Inv(s) && t < |s.threads| && !Resting(s.threads[t]) && s.threads[t].l.call.Set?
    requires t < |Step(s, a.thread, a.event).threads| && Step(s, a.thread, a.event).threads[t].Returned?
    ensures var s' := Step(s, a.thread, a.event);
            && a.thread == t && InRange(s')
            && Contents(s') == Contents(s)[s.threads[t].l.call.key := s.threads[t].l.call.value]
  {
    if a.thread < |s.threads| {
      KeepsCall(s, a.thread, a.event, t);
      StepRefinesMap(s, a.thread, a.event);
      ReturnedAnswerOfStep(s, a, t);
    }
  }

  lemma ReturnedAnswerOfStep<V>(s: State<V>, a: Action<V>, t: nat)
    requires Inv(s) && t < |s.threads| && !Resting(s.threads[t]) && s.threads[t].l.call.Set? && a.thread < |s.threads|
    requires t < |Step(s, a.thread, a.event).threads| && Step(s, a.thread, a.event).threads[t].Returned?
    ensures a.thread == t && Step(s, a.thread, a.event).threads[t].answer.Stored?
  {
    KeepsCall(s, a.thread, a.event, t);
    StepKeepsInv(s, a.thread, a.event);
    assert ThreadOk(Step(s, a.thread, a.event), t);
  }

  // ----- lock-freedom

  /** The step about to be taken is a compare-exchange that will fail. */
  predicate CasWillFail<V>(s: State<V>, t: nat)
    requires t < |s.threads|
  {
    match s.threads[t]
    case CasValue(_, at, oldBox) => at < |s.entries| && s.entries[at].box != oldBox
    case CasNext(_, prev, target) => prev < |s.entries| && s.entries[prev].next != target
    case _ => false
  }

  /**
   If a CAS of thread `t` fails at instant `j`, then another thread completed a Set after instant `i`,
   when `t` read the pointer it compared with.
   */
  lemma FailedCasMeansProgress<V>(run: seq<State<V>>, schedule: seq<Action<V>>, t: nat, i: nat, j: nat) returns (m: nat)
    requires Execution(run, schedule) && i <= j < |run|
    requires forall n :: i <= n <= j ==> Busy(run, t, n)
    requires t < |run[j].threads| && CasWillFail(run[j], t)
    requires run[j].threads[t].l.seen == |run[i].history| - 1
    ensures i <= m < j && schedule[m].thread != t && schedule[m].thread < |run[m].threads| == |run[m + 1].threads|
    ensures Stores(run[m], run[m + 1], schedule[m].thread)
  {
    InvAt(run, schedule, j);
    FailingRead(run[j], t);
    m := SomeStepStored(run, schedule, i, j);
    assert Busy(run, t, m + 1);
  }

  /** What a compare-exchange that will fail compares with was read before the latest update. */
  lemma FailingRead<V>(s: State<V>, t: nat)
    requires Inv(s) && t < |s.threads| && CasWillFail(s, t)
    ensures s.threads[t].l.seen + 1 < |s.history|
  {
    assert ThreadOk(s, t);
  }

  // ----- the chains

  /** The linked keys of `a`'s bucket that come after `a`. */
  ghost function After<V>(s: State<V>, a: nat): set<int>
    requires InRange(s) && Published(s, a)
  {
    set k | k in s.linked && Bucket(k, s.bits) == Home(s, a) && Before(s, a, k)
  }

  /** The entries met by following `next` from `a`: a finite walk. */
  ghost function Chain<V>(s: State<V>, a: nat): (chain: seq<nat>)
    requires Inv(s) && Published(s, a)
    ensures forall i :: 0 <= i < |chain| ==> chain[i] < |s.entries|
    decreases After(s, a)
  {
    assert LinkOk(s, a);
    match s.entries[a].next
    case None => []
    case Some(b) =>
      assert s.entries[b].key in After(s, a) && s.entries[b].key !in After(s, b);
      [b] + Chain(s, b)
  }

  /**
   Each chain is finite and acyclic, its keys strictly increase, and they are exactly the linked keys of
   the bucket that come after its start.
   */
  lemma {:induction false} ChainIsLinked<V>(s: State<V>, a: nat)
    requires Inv(s) && Published(s, a)
    ensures var chain := Chain(s, a);
            && (forall i :: 0 <= i < |chain| ==> Before(s, a, s.entries[chain[i]].key))
            && (forall i, j :: 0 <= i < j < |chain| ==> s.entries[chain[i]].key < s.entries[chain[j]].key)
            && Keys(s, chain) == After(s, a)
    decreases After(s, a)
  {
    assert LinkOk(s, a);
    match s.entries[a].next
    case None =>
    case Some(b) =>
      assert s.entries[b].key in After(s, a) && s.entries[b].key !in After(s, b);
      ChainIsLinked(s, b);
      assert After(s, a) == {s.entries[b].key} + After(s, b);
      KeysOfCons(s, b, Chain(s, b));
  }

  /** The keys of a walk, as a set. */
  ghost function Keys<V>(s: State<V>, chain: seq<nat>): set<int>
    requires forall i :: 0 <= i < |chain| ==> chain[i] < |s.entries|
  {
    set i | 0 <= i < |chain| :: s.entries[chain[i]].key
  }

  lemma KeysOfCons<V>(s: State<V>, b: nat, rest: seq<nat>)
    requires b < |s.entries| && forall i :: 0 <= i < |rest| ==> rest[i] < |s.entries|
    ensures Keys(s, [b] + rest) == {s.entries[b].key} + Keys(s, rest)
  {
    var chain := [b] + rest;
    assert chain[0] == b;
    forall i | 0 <= i < |rest|
      ensures s.entries[rest[i]].key in Keys(s, chain)
    {
      assert chain[i + 1] == rest[i];
    }
    forall i | 0 <= i < |chain|
      ensures s.entries[chain[i]].key in {s.entries[b].key} + Keys(s, rest)
    {
      assert i > 0 ==> chain[i] == rest[i - 1];
    }
  }

  /** The keys stored in a bucket's chain are the plain map's keys that hash to it, in every reachable state. */
  lemma BucketHoldsItsKeys<V>(s: State<V>, bucket: nat)
    requires Inv(s) && bucket < Pow2(s.bits)
    ensures var chain := Chain(s, bucket);
            forall k :: (exists i :: 0 <= i < |chain| && s.entries[chain[i]].key == k)
                        <==> k in Contents(s) && Bucket(k, s.bits) == bucket
  {
    ChainIsLinked(s, bucket);
    var chain := Chain(s, bucket);
    forall k
      ensures k in Keys(s, chain) <==> k in Contents(s) && Bucket(k, s.bits) == bucket
    {
      assert k in After(s, bucket) <==> k in s.linked && Bucket(k, s.bits) == bucket;
    }
  }

  /** No run ever unlinks an entry. */
  lemma {:induction false} EntriesStayLinked<V>(run: seq<State<V>>, schedule: seq<Action<V>>, i: nat, j: nat)
    requires Execution(run, schedule) && i <= j < |run|
    ensures forall k :: k in run[i].linked ==> k in run[j].linked && run[j].linked[k] == run[i].linked[k]
    decreases j
  {
    if i < j {
      EntriesStayLinked(run, schedule, i, j - 1);
      StepAt(run, schedule, j - 1);
      if schedule[j - 1].thread < |run[j - 1].threads| {
        LinkedGrows(run[j - 1], schedule[j - 1].thread, schedule[j - 1].event);
      }
    }
  }

  lemma LinkedGrows<V>(s: State<V>, t: nat, e: Event<V>)
    requires Inv(s) && t < |s.threads|
    ensures forall k :: k in s.linked ==> k in Step(s, t, e).linked && Step(s, t, e).linked[k] == s.linked[k]
  {
    assert ThreadOk(s, t);
    if e.Advance? && s.threads[t].CasNext? && s.entries[s.threads[t].prev].next == s.threads[t].target {
      InsertedKeyIsNew(s, t);
    }
  }

  /** The hash table starts out as the empty map. */
  lemma InitIsEmpty<V>(bits: nat, threads: nat)
    ensures Inv(Init<V>(bits, threads)) && Contents(Init<V>(bits, threads)) == map[]
  {
    InitInv<V>(bits, threads);
  }

  /** With 64-bit keys and at most 2^64 buckets, the masked bucket index is the key's remainder. */
  lemma BucketIsRemainder(key: int, bits: nat)
    requires bits <= 64
    ensures Bucket(key, bits) == key % Pow2(bits)
  {
    MaskIsRemainder(key % WORD, bits);
    Pow2Divides(bits, 64);
    WordSizes();
    Modular.RemainderOfRemainder(key, WORD, Pow2(bits));
  }
}
