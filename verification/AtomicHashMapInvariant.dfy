/** Every step of the table of base/atomic_hash_map.h keeps the invariant. */
module AtomicHashMapInvariant {
  import Runs
  import opened Wrappers
  import opened Bits
  import opened AtomicHashMapProtocol

  /** What any step may do to memory, as far as a thread that did not take it can tell. */
  ghost predicate Evolves<V>(s: State<V>, s': State<V>)
    requires InRange(s) && InRange(s')
  {
    && s'.bits == s.bits
    && |s.entries| <= |s'.entries| && s.boxes <= s'.boxes && s.history <= s'.history
    && (forall a :: 0 <= a < |s.entries| ==> s'.entries[a].key == s.entries[a].key)
    && (forall k :: k in s.linked ==> k in s'.linked && s'.linked[k] == s.linked[k])
    && (forall a: nat :: Published(s, a) ==>
          |s.history| < |s'.history|
          || (s'.entries[a].next == s.entries[a].next && s'.entries[a].box == s.entries[a].box))
  }

  lemma GapStable<V>(s: State<V>, s': State<V>, a: nat, target: Option<nat>, keys: set<int>)
    requires InRange(s) && InRange(s') && Evolves(s, s')
    requires Published(s, a) && TargetOk(s, a, target) && Gap(s, a, target, keys)
    ensures Published(s', a) && TargetOk(s', a, target) && Gap(s', a, target, keys)
  {}

  lemma OtherThread<V>(s: State<V>, s': State<V>, u: nat)
    requires InRange(s) && InRange(s') && Evolves(s, s')
    requires u < |s.threads| == |s'.threads| && s'.threads[u] == s.threads[u] && ThreadOk(s, u)
    requires var e := Private(s.threads[u]);
             e.Some? && e.value < |s.entries| ==> s'.entries[e.value] == s.entries[e.value] && !Published(s', e.value)
    ensures ThreadOk(s', u)
  {
    match s.threads[u]
    case Compare(l, prev, target) => GapStable(s, s', prev, target, s.history[l.seen].Keys);
    case StoreNext(l, prev, target) => GapStable(s, s', prev, target, s.history[l.seen].Keys);
    case CasNext(l, prev, target) => GapStable(s, s', prev, target, s.history[l.seen].Keys);
    case _ =>
  }

  /** Steps that leave every published entry, the links and the history alone. */
  ghost predicate OnlyPrivate<V>(s: State<V>, s': State<V>, t: nat)
    requires InRange(s) && t < |s.threads|
  {
    && s'.bits == s.bits && s'.linked == s.linked && s'.history == s.history
    && |s.entries| <= |s'.entries| && s.boxes <= s'.boxes
    && |s'.threads| == |s.threads|
    && (forall u :: 0 <= u < |s.threads| && u != t ==> s'.threads[u] == s.threads[u])
    && (forall a :: 0 <= a < |s.entries| && s'.entries[a] != s.entries[a] ==>
          && !Published(s, a) && Private(s.threads[t]) == Some(a)
          && s'.entries[a].key == s.entries[a].key && s'.entries[a].box == s.entries[a].box)
    && (forall a :: |s.entries| <= a < |s'.entries| ==> s'.entries[a].box < |s'.boxes|)
  }

  lemma PrivateStep<V>(s: State<V>, s': State<V>, t: nat)
    requires Inv(s) && t < |s.threads| && OnlyPrivate(s, s', t)
    requires InRange(s') ==> ThreadOk(s', t)
    requires var e := Private(s'.threads[t]);
             e.Some? ==> e == Private(s.threads[t]) || e.value == |s.entries|
    ensures Inv(s')
  {
    assert InRange(s');
    assert Evolves(s, s');
    forall k | k in s.linked
      ensures Contents(s')[k] == Contents(s)[k]
    {
      assert Published(s, s.linked[k]);
    }
    assert Contents(s') == Contents(s);
    forall a: nat | Published(s', a)
      ensures LinkOk(s', a)
    {
      assert Published(s, a) && LinkOk(s, a);
      GapStable(s, s', a, s.entries[a].next, s.linked.Keys);
    }
    forall u | 0 <= u < |s.threads|
      ensures ThreadOk(s', u)
    {
      if u != t {
        assert ThreadOk(s, u);
        OtherThread(s, s', u);
      }
    }
    forall u, v | 0 <= u < v < |s'.threads| && Private(s'.threads[u]).Some?
      ensures Private(s'.threads[u]) != Private(s'.threads[v])
    {
      assert ThreadOk(s, u) && ThreadOk(s, v);
      assert Private(s.threads[u]).Some? ==> Private(s.threads[u]) != Private(s.threads[v]);
    }
  }

  lemma RestartOk<V>(s: State<V>, l: Locals<V>)
    requires InRange(s) && LocalsOk(s, l)
    ensures PrevOk(s, l, Bucket(l.call.key, s.bits))
  {}

  lemma StartKeepsInv<V>(s: State<V>, t: nat, call: Call<V>)
    requires Inv(s)
    ensures Inv(Step(s, t, Start(call)))
  {
    var s' := Step(s, t, Start(call));
    if s' != s {
      PrivateStep(s, s', t);
    }
  }

  lemma LoadNextKeepsInv<V>(s: State<V>, t: nat)
    requires Inv(s) && t < |s.threads| && s.threads[t].LoadNext?
    ensures Inv(Next(s, t))
  {
    assert ThreadOk(s, t);
    assert LinkOk(s, s.threads[t].prev);
    assert s.history[Now(s)].Keys == s.linked.Keys;
    PrivateStep(s, Next(s, t), t);
  }

  /** The pointer that was read leads past the key: at that instant the key was not there. */
  lemma MissMeansAbsent<V>(s: State<V>, l: Locals<V>, prev: nat, target: Option<nat>)
    requires InRange(s) && ReadOk(s, l, prev, target) && Beyond(s, target, l.call.key)
    ensures l.call.key !in s.history[l.seen]
  {}

  lemma PassKeepsInv<V>(s: State<V>, t: nat)
    requires Inv(s) && t < |s.threads| && s.threads[t].Compare? && s.threads[t].target.Some?
    requires s.threads[t].target.value < |s.entries|
    requires s.entries[s.threads[t].target.value].key < s.threads[t].l.call.key
    ensures Inv(Next(s, t))
  {
    assert ThreadOk(s, t);
    PrivateStep(s, Next(s, t), t);
  }

  lemma HitKeepsInv<V>(s: State<V>, t: nat)
    requires Inv(s) && t < |s.threads| && s.threads[t].Compare? && s.threads[t].target.Some?
    requires s.threads[t].target.value < |s.entries|
    requires s.entries[s.threads[t].target.value].key == s.threads[t].l.call.key
    ensures Inv(Next(s, t))
  {
    assert ThreadOk(s, t);
    assert s.threads[t].l.call.key in Contents(s);
    PrivateStep(s, Next(s, t), t);
  }

  lemma MissKeepsInv<V>(s: State<V>, t: nat)
    requires Inv(s) && t < |s.threads| && s.threads[t].Compare?
    requires Beyond(s, s.threads[t].target, s.threads[t].l.call.key)
    ensures Inv(Next(s, t))
  {
    assert ThreadOk(s, t);
    var Compare(l, prev, target) := s.threads[t];
    var s' := Next(s, t);
    assert s' == Goto(s, t, OnMiss(l, prev, target));
    MissOk(s, t);
    PrivateStep(s, s', t);
  }

  lemma MissOk<V>(s: State<V>, t: nat)
    requires Inv(s) && t < |s.threads| && s.threads[t].Compare?
    requires Beyond(s, s.threads[t].target, s.threads[t].l.call.key)
    ensures var Compare(l, prev, target) := s.threads[t];
            ThreadOk(Goto(s, t, OnMiss(l, prev, target)), t)
  {
    assert ThreadOk(s, t);
    var Compare(l, prev, target) := s.threads[t];
    MissMeansAbsent(s, l, prev, target);
    if l.call.Set? {
      var s' := Goto(s, t, OnMiss(l, prev, target));
      GapStable(s, s', prev, target, s.history[l.seen].Keys);
    }
  }

  lemma CompareKeepsInv<V>(s: State<V>, t: nat)
    requires Inv(s) && t < |s.threads| && s.threads[t].Compare?
    ensures Inv(Next(s, t))
  {
    assert ThreadOk(s, t);
    var Compare(l, prev, target) := s.threads[t];
    if target.Some? && s.entries[target.value].key < l.call.key {
      PassKeepsInv(s, t);
    } else if target.Some? && s.entries[target.value].key == l.call.key {
      HitKeepsInv(s, t);
    } else {
      MissKeepsInv(s, t);
    }
  }

  lemma LoadValueKeepsInv<V>(s: State<V>, t: nat)
    requires Inv(s) && t < |s.threads| && s.threads[t].LoadValue?
    ensures Inv(Next(s, t))
  {
    assert ThreadOk(s, t);
    assert s.threads[t].l.call.key in Contents(s);
    PrivateStep(s, Next(s, t), t);
  }

  lemma LoadOldValueKeepsInv<V>(s: State<V>, t: nat)
    requires Inv(s) && t < |s.threads| && s.threads[t].LoadOldValue?
    ensures Inv(Next(s, t))
  {
    assert ThreadOk(s, t);
    PrivateStep(s, Next(s, t), t);
  }

  lemma ReuseKeepsInv<V>(s: State<V>, t: nat)
    requires Inv(s) && t < |s.threads| && s.threads[t].StoreNext? && s.threads[t].l.entry.Some?
    ensures Inv(Next(s, t))
  {
    assert ThreadOk(s, t);
    var StoreNext(l, prev, target) := s.threads[t];
    var s' := Next(s, t);
    assert OnlyPrivate(s, s', t);
    if InRange(s') {
      GapStable(s, s', prev, target, s.history[l.seen].Keys);
      assert LocalsOk(s', l);
    }
    PrivateStep(s, s', t);
  }

  lemma AllocateKeepsInv<V>(s: State<V>, t: nat)
    requires Inv(s) && t < |s.threads| && s.threads[t].StoreNext? && s.threads[t].l.entry.None?
    ensures Inv(Next(s, t))
  {
    assert ThreadOk(s, t);
    var StoreNext(l, prev, target) := s.threads[t];
    var s' := Next(s, t);
    assert OnlyPrivate(s, s', t);
    if InRange(s') {
      GapStable(s, s', prev, target, s.history[l.seen].Keys);
      assert LocalsOk(s', s'.threads[t].l);
    }
    PrivateStep(s, s', t);
  }

  lemma CasFails<V>(s: State<V>, t: nat)
    requires Inv(s) && t < |s.threads|
    requires match s.threads[t]
             case CasValue(_, at, oldBox) => at < |s.entries| && s.entries[at].box != oldBox
             case CasNext(_, prev, target) => prev < |s.entries| && s.entries[prev].next != target
             case _ => false
    ensures Inv(Next(s, t))
  {
    assert ThreadOk(s, t);
    RestartOk(s, s.threads[t].l);
    PrivateStep(s, Next(s, t), t);
  }

  lemma ReplacedContents<V>(s: State<V>, s': State<V>, t: nat)
    requires Inv(s) && t < |s.threads| && s.threads[t].CasValue? && s' == Next(s, t)
    requires s.threads[t].at < |s.entries| && s.entries[s.threads[t].at].box == s.threads[t].oldBox
    ensures InRange(s') && Evolves(s, s') && Contents(s') == s'.history[Now(s')]
    ensures s'.linked == s.linked && forall a :: 0 <= a < |s.entries| ==> s'.entries[a].next == s.entries[a].next
  {
    assert ThreadOk(s, t);
    var CasValue(l, at, _) := s.threads[t];
    assert Contents(s') == Contents(s)[l.call.key := l.call.value] by {
      forall k | k in s.linked && k != l.call.key
        ensures Contents(s')[k] == Contents(s)[k]
      {
        assert s.linked[k] != at;
      }
    }
  }

  /** A successful update of a value: the plain map changes at that key and nowhere else. */
  lemma CasValueKeepsInv<V>(s: State<V>, t: nat)
    requires Inv(s) && t < |s.threads| && s.threads[t].CasValue?
    requires s.threads[t].at < |s.entries| && s.entries[s.threads[t].at].box == s.threads[t].oldBox
    ensures Inv(Next(s, t))
  {
    assert ThreadOk(s, t);
    var CasValue(l, at, _) := s.threads[t];
    var s' := Next(s, t);
    ReplacedContents(s, s', t);
    forall a: nat | Published(s', a)
      ensures LinkOk(s', a)
    {
      assert Published(s, a) && LinkOk(s, a);
      GapStable(s, s', a, s.entries[a].next, s.linked.Keys);
    }
    forall u | 0 <= u < |s.threads| && u != t && Private(s.threads[u]).Some?
      ensures var p := Private(s.threads[u]).value;
              p < |s.entries| ==> s'.entries[p] == s.entries[p] && !Published(s', p)
    {
      assert ThreadOk(s, u);
    }
    OthersAfterCommit(s, s', t);
  }

  lemma OthersAfterCommit<V>(s: State<V>, s': State<V>, t: nat)
    requires Inv(s) && t < |s.threads| && InRange(s') && Evolves(s, s')
    requires |s.threads| == |s'.threads|
    requires forall u :: 0 <= u < |s.threads| && u != t ==> s'.threads[u] == s.threads[u]
    requires s'.threads[t].Returned? && ThreadOk(s', t)
    requires forall u :: 0 <= u < |s.threads| && u != t && Private(s.threads[u]).Some? ==>
               var e := Private(s.threads[u]).value;
               e < |s.entries| ==> s'.entries[e] == s.entries[e] && !Published(s', e)
    ensures forall u :: 0 <= u < |s'.threads| ==> ThreadOk(s', u)
    ensures PrivateApart(s')
  {
    forall u | 0 <= u < |s'.threads|
      ensures ThreadOk(s', u)
    {
      if u != t {
        assert ThreadOk(s, u);
        OtherThread(s, s', u);
      }
    }
    forall u, v | 0 <= u < v < |s'.threads| && Private(s'.threads[u]).Some?
      ensures Private(s'.threads[u]) != Private(s'.threads[v])
    {
      assert Private(s.threads[u]).Some? ==> Private(s.threads[u]) != Private(s.threads[v]);
    }
  }

  /** A successful insertion: the new entry sits between the two entries it was meant to sit between. */
  lemma CasNextKeepsInv<V>(s: State<V>, t: nat)
    requires Inv(s) && t < |s.threads| && s.threads[t].CasNext?
    requires s.threads[t].prev < |s.entries| && s.entries[s.threads[t].prev].next == s.threads[t].target
    ensures Inv(Next(s, t))
  {
    assert ThreadOk(s, t);
    var CasNext(l, prev, target) := s.threads[t];
    var k, e := l.call.key, l.entry.value;
    var s' := Next(s, t);
    InsertedContents(s, s', t);
    forall a: nat | Published(s', a)
      ensures LinkOk(s', a)
    {
      InsertedLink(s, s', t, a);
    }
    forall u | 0 <= u < |s.threads| && u != t && Private(s.threads[u]).Some?
      ensures var p := Private(s.threads[u]).value;
              p < |s.entries| ==> s'.entries[p] == s.entries[p] && !Published(s', p)
    {
      InsertedPrivate(s, s', t, u);
    }
    OthersAfterCommit(s, s', t);
  }

  /** An insertion can only succeed when the key is not there. */
  lemma InsertedKeyIsNew<V>(s: State<V>, t: nat)
    requires Inv(s) && t < |s.threads| && s.threads[t].CasNext?
    requires s.threads[t].prev < |s.entries| && s.entries[s.threads[t].prev].next == s.threads[t].target
    ensures s.threads[t].l.call.key !in s.linked
  {
    assert ThreadOk(s, t);
    assert LinkOk(s, s.threads[t].prev);
  }

  lemma InsertedContents<V>(s: State<V>, s': State<V>, t: nat)
    requires Inv(s) && t < |s.threads| && s.threads[t].CasNext? && s' == Next(s, t)
    requires s.threads[t].prev < |s.entries| && s.entries[s.threads[t].prev].next == s.threads[t].target
    ensures s.threads[t].l.call.Set? && s.threads[t].l.call.key !in s.linked
    ensures InRange(s') && Evolves(s, s') && Contents(s') == s'.history[Now(s')]
  {
    InsertedKeyIsNew(s, t);
    InsertedEvolves(s, s', t);
    var l := s.threads[t].l;
    assert Contents(s') == Contents(s)[l.call.key := l.call.value] by {
      forall j | j in s.linked
        ensures Contents(s')[j] == Contents(s)[j]
      {
        assert Published(s, s.linked[j]);
      }
    }
  }

  lemma InsertedEvolves<V>(s: State<V>, s': State<V>, t: nat)
    requires Inv(s) && t < |s.threads| && s.threads[t].CasNext? && s' == Next(s, t)
    requires s.threads[t].prev < |s.entries| && s.entries[s.threads[t].prev].next == s.threads[t].target
    requires s.threads[t].l.call.key !in s.linked
    ensures InRange(s') && Evolves(s, s')
    ensures ThreadOk(s, t) && Pow2(s.bits) <= s.threads[t].l.entry.value
    ensures var CasNext(l, prev, target) := s.threads[t];
            && l.call.Set? && l.entry.Some? && s'.linked == s.linked[l.call.key := l.entry.value]
            && s'.boxes == s.boxes && l.entry.value < |s.entries| == |s'.entries|
            && s.boxes[s.entries[l.entry.value].box] == l.call.value
            && (forall a :: 0 <= a < |s.entries| ==> s'.entries[a].box == s.entries[a].box)
            && s'.history == s.history + [Contents(s)[l.call.key := l.call.value]]
  {
    assert ThreadOk(s, t);
  }

  lemma InsertedPrivate<V>(s: State<V>, s': State<V>, t: nat, u: nat)
    requires Inv(s) && t < |s.threads| && s.threads[t].CasNext? && s' == Next(s, t)
    requires s.threads[t].prev < |s.entries| && s.entries[s.threads[t].prev].next == s.threads[t].target
    requires InRange(s') && u < |s.threads| && u != t && Private(s.threads[u]).Some?
    ensures var p := Private(s.threads[u]).value;
            p < |s.entries| ==> s'.entries[p] == s.entries[p] && !Published(s', p)
  {
    assert ThreadOk(s, t) && ThreadOk(s, u);
    if u < t {
      assert Private(s.threads[u]) != Private(s.threads[t]);
    } else {
      assert Private(s.threads[t]) != Private(s.threads[u]);
    }
  }

  /** The new entry points where the pointer to it pointed. */
  lemma InsertedLinkOfNew<V>(s: State<V>, s': State<V>, t: nat)
    requires Inv(s) && t < |s.threads| && s.threads[t].CasNext? && s' == Next(s, t)
    requires s.threads[t].prev < |s.entries| && s.entries[s.threads[t].prev].next == s.threads[t].target
    requires InRange(s') && Evolves(s, s')
    ensures s.threads[t].l.entry.Some?
    ensures var e := s.threads[t].l.entry.value; Published(s', e) && LinkOk(s', e)
  {
    assert ThreadOk(s, t);
    var CasNext(l, prev, target) := s.threads[t];
    assert LinkOk(s, prev);
    assert s'.entries[l.entry.value].next == target;
  }

  lemma InsertedLinkOfPrev<V>(s: State<V>, s': State<V>, t: nat)
    requires Inv(s) && t < |s.threads| && s.threads[t].CasNext? && s' == Next(s, t)
    requires s.threads[t].prev < |s.entries| && s.entries[s.threads[t].prev].next == s.threads[t].target
    requires InRange(s') && Evolves(s, s')
    ensures Published(s', s.threads[t].prev) && LinkOk(s', s.threads[t].prev)
  {
    assert ThreadOk(s, t);
    var CasNext(l, prev, target) := s.threads[t];
    assert LinkOk(s, prev);
    assert s'.entries[prev].next == l.entry;
  }

  lemma InsertedLinkOfOther<V>(s: State<V>, s': State<V>, t: nat, a: nat)
    requires Inv(s) && t < |s.threads| && s.threads[t].CasNext? && s' == Next(s, t)
    requires s.threads[t].prev < |s.entries| && s.entries[s.threads[t].prev].next == s.threads[t].target
    requires InRange(s') && Evolves(s, s')
    requires Published(s, a) && a != s.threads[t].prev
    ensures Published(s', a) && LinkOk(s', a)
  {
    assert ThreadOk(s, t);
    var CasNext(l, prev, target) := s.threads[t];
    assert LinkOk(s, prev) && LinkOk(s, a);
    GapStable(s, s', a, s.entries[a].next, s.linked.Keys);
    assert s'.entries[a].next == s.entries[a].next && s'.linked.Keys == s.linked.Keys + {l.call.key};
    if Home(s, a) == Home(s, prev) && Before(s, a, l.call.key) {
      // The new key lies beyond the entry that `a` points to.
      if Sentinel(s, a) {
        assert s.entries[prev].key in s.linked;
      } else {
        assert s.entries[a].key in s.linked;
      }
    }
  }

  lemma InsertedLink<V>(s: State<V>, s': State<V>, t: nat, a: nat)
    requires Inv(s) && t < |s.threads| && s.threads[t].CasNext? && s' == Next(s, t)
    requires s.threads[t].prev < |s.entries| && s.entries[s.threads[t].prev].next == s.threads[t].target
    requires InRange(s') && Evolves(s, s') && Published(s', a)
    ensures LinkOk(s', a)
  {
    assert ThreadOk(s, t);
    if Some(a) == s.threads[t].l.entry {
      InsertedLinkOfNew(s, s', t);
    } else if a == s.threads[t].prev {
      InsertedLinkOfPrev(s, s', t);
    } else {
      assert Published(s, a);
      InsertedLinkOfOther(s, s', t, a);
    }
  }

  lemma StepKeepsInv<V>(s: State<V>, t: nat, e: Event<V>)
    requires Inv(s)
    ensures Inv(Step(s, t, e))
  {
    if e.Start? {
      StartKeepsInv(s, t, e.call);
    } else if t < |s.threads| {
      assert ThreadOk(s, t);
      match s.threads[t]
      case Idle =>
      case LoadNext(_, _) => LoadNextKeepsInv(s, t);
      case Compare(_, _, _) => CompareKeepsInv(s, t);
      case LoadValue(_, _) => LoadValueKeepsInv(s, t);
      case LoadOldValue(_, _) => LoadOldValueKeepsInv(s, t);
      case CasValue(_, at, oldBox) =>
        if s.entries[at].box == oldBox { CasValueKeepsInv(s, t); } else { CasFails(s, t); }
      case StoreNext(l, _, _) =>
        if l.entry.Some? { ReuseKeepsInv(s, t); } else { AllocateKeepsInv(s, t); }
      case CasNext(_, prev, target) =>
        if s.entries[prev].next == target { CasNextKeepsInv(s, t); } else { CasFails(s, t); }
      case Returned(_, _) => PrivateStep(s, Next(s, t), t);
    }
  }

  lemma InitInv<V>(bits: nat, threads: nat)
    ensures Inv(Init<V>(bits, threads))
  {}

  ghost predicate Follows<V>(s: State<V>, a: Action<V>, s': State<V>) {
    Inv(s) && s' == Step(s, a.thread, a.event)
  }

  /**
   That the invariant holds at each instant of a run is no restriction: any schedule has such a run from any
   state with the invariant (EveryScheduleRuns).
   */
  ghost predicate Execution<V>(run: seq<State<V>>, schedule: seq<Action<V>>) {
    Runs.Execution<State<V>, Action<V>>(Inv, Follows, run, schedule)
  }

  lemma InvAt<V>(run: seq<State<V>>, schedule: seq<Action<V>>, i: nat)
    requires Execution(run, schedule) && i < |run|
    ensures Inv(run[i])
  {
    assert Runs.HoldsAt<State<V>>(Inv, run, i);
  }

  lemma StepAt<V>(run: seq<State<V>>, schedule: seq<Action<V>>, i: nat)
    requires Execution(run, schedule) && i < |schedule|
    ensures Inv(run[i]) && run[i + 1] == Step(run[i], schedule[i].thread, schedule[i].event)
  {
    assert Runs.StepsTo<State<V>, Action<V>>(Follows, run, schedule, i);
  }

  /** Every schedule can be run, from any state with the invariant, and never leaves it. */
  lemma EveryScheduleRuns<V(!new)>(s: State<V>, schedule: seq<Action<V>>) returns (run: seq<State<V>>)
    requires Inv(s)
    ensures Execution(run, schedule) && run[0] == s
  {
    forall s: State<V>, a: Action<V> | Inv(s)
      ensures Runs.CanStep<State<V>, Action<V>>(Inv, Follows, s, a)
    {
      StepKeepsInv(s, a.thread, a.event);
      assert Follows(s, a, Step(s, a.thread, a.event));
    }
    run := Runs.EveryScheduleRuns<State<V>, Action<V>>(Inv, Follows, s, schedule);
  }
}
