/**
 The table of base/atomic_hash_map.h as a step system: any number of threads, each repeatedly calling
 Has, Get or Set, one access to shared memory per step, in any order.

 A bucket is a chain of entries behind a sentinel. Addresses are indices: entry `b` below the table
 size is the sentinel of bucket `b`; boxes are the heap cells that hold values. Memory is garbage
 collected, so an address is never reused.
 */
module AtomicHashMapProtocol {
  import opened Wrappers
  import opened Bits

  datatype Entry = Entry(key: int, box: nat, next: Option<nat>)

  datatype Call<V> = Has(key: int) | Get(key: int) | Set(key: int, value: V)

  datatype Answer<V> = Present(found: bool) | Value(value: Option<V>) | Stored

  /**
   The locals of a call: the entry and the box an Insert has allocated so far, and two positions in the
   history: where the call began, and where it last read the pointer it is deciding on.
   */
  datatype Locals<V> = Locals(call: Call<V>, entry: Option<nat>, box: Option<nat>, start: nat, seen: nat)

  datatype Thread<V> =
    | Idle
    | LoadNext(l: Locals<V>, prev: nat)
    | Compare(l: Locals<V>, prev: nat, target: Option<nat>)
    | LoadValue(l: Locals<V>, at: nat)
    | LoadOldValue(l: Locals<V>, at: nat)
    | CasValue(l: Locals<V>, at: nat, oldBox: nat)
    | StoreNext(l: Locals<V>, prev: nat, target: Option<nat>)
    | CasNext(l: Locals<V>, prev: nat, target: Option<nat>)
    | Returned(l: Locals<V>, answer: Answer<V>)

  /**
   Memory and the thread table, and two records nobody reads: which entry was linked in for a key, and
   the plain map that the table stood for after each successful CAS.
   */
  datatype State<V> = State(
    bits: nat, entries: seq<Entry>, boxes: seq<V>, threads: seq<Thread<V>>,
    linked: map<int, nat>, history: seq<map<int, V>>)

  datatype Event<V> = Start(call: Call<V>) | Advance

  datatype Action<V> = Action(thread: nat, event: Event<V>)

  /** The bucket of a key: the key as a 64-bit word, masked. */
  function Bucket(key: int, bits: nat): (index: nat)
    ensures index < Pow2(bits)
  {
    MaskIsRemainder(key % WORD, bits);
    And(key % WORD, Pow2(bits) - 1)
  }

  function Init<V>(bits: nat, threads: nat): State<V> {
    State(bits, seq(Pow2(bits), i => Entry(0, 0, None)), [], seq(threads, i => Idle), map[], [map[]])
  }

  function Now<V>(s: State<V>): nat
    requires s.history != []
  {
    |s.history| - 1
  }

  function Goto<V>(s: State<V>, t: nat, l: Thread<V>): State<V>
    requires t < |s.threads|
  {
    s.(threads := s.threads[t := l])
  }

  /** From the sentinel of the key's bucket. */
  function Restart<V>(s: State<V>, l: Locals<V>): Thread<V> {
    LoadNext(l, Bucket(l.call.key, s.bits))
  }

  /** One step of thread `t`; an event it cannot take changes nothing. */
  function Step<V>(s: State<V>, t: nat, e: Event<V>): State<V>
    requires Inv(s)
  {
    if t >= |s.threads| then s else
    assert ThreadOk(s, t);
    match e
    case Start(call) =>
      if s.threads[t].Idle? || s.threads[t].Returned?
      then Goto(s, t, Restart(s, Locals(call, None, None, Now(s), Now(s))))
      else s
    case Advance => Next(s, t)
  }

  function Next<V>(s: State<V>, t: nat): State<V>
    requires Inv(s) && t < |s.threads|
  {
    assert ThreadOk(s, t);
    match s.threads[t]
    case Idle => s
    case LoadNext(l, prev) =>
      Goto(s, t, Compare(l.(seen := Now(s)), prev, s.entries[prev].next))
    case Compare(l, prev, target) =>
      if target.Some? && s.entries[target.value].key < l.call.key
      then Goto(s, t, LoadNext(l, target.value))
      else if target.Some? && s.entries[target.value].key == l.call.key
      then Goto(s, t, OnHit(s, l, target.value))
      else Goto(s, t, OnMiss(l, prev, target))
    case LoadValue(l, at) =>
      Goto(s, t, Returned(l.(seen := Now(s)), Value(Some(s.boxes[s.entries[at].box]))))
    case LoadOldValue(l, at) =>
      // A new value is allocated unless an earlier attempt has left one.
      var box := if l.box.Some? then l.box.value else |s.boxes|;
      var boxes := if l.box.Some? then s.boxes else s.boxes + [l.call.value];
      Goto(s, t, CasValue(l.(box := Some(box), seen := Now(s)), at, s.entries[at].box)).(boxes := boxes)
    case CasValue(l, at, oldBox) =>
      if s.entries[at].box == oldBox
      then
        var entries := s.entries[at := s.entries[at].(box := l.box.value)];
        Commit(s, t, l).(entries := entries)
      else Goto(s, t, Restart(s, l))
    case StoreNext(l, prev, target) =>
      // A new entry is allocated unless an earlier attempt has left one; nobody else can see it yet.
      if l.entry.Some?
      then
        var entries := s.entries[l.entry.value := s.entries[l.entry.value].(next := target)];
        Goto(s, t, CasNext(l, prev, target)).(entries := entries)
      else
        var entries := s.entries + [Entry(l.call.key, |s.boxes|, target)];
        Goto(s, t, CasNext(l.(entry := Some(|s.entries|)), prev, target)).(
          entries := entries, boxes := s.boxes + [l.call.value])
    case CasNext(l, prev, target) =>
      if s.entries[prev].next == target
      then
        var entries := s.entries[prev := s.entries[prev].(next := l.entry)];
        Commit(s, t, l).(entries := entries, linked := s.linked[l.call.key := l.entry.value])
      else Goto(s, t, Restart(s, l))
    case Returned(_, _) => Goto(s, t, Idle)
  }

  function OnHit<V>(s: State<V>, l: Locals<V>, at: nat): Thread<V>
    requires s.history != []
  {
    match l.call
    case Has(_) => Returned(l.(seen := Now(s)), Present(true))
    case Get(_) => LoadValue(l, at)
    case Set(_, _) => LoadOldValue(l, at)
  }

  function OnMiss<V>(l: Locals<V>, prev: nat, target: Option<nat>): Thread<V> {
    match l.call
    case Has(_) => Returned(l, Present(false))
    case Get(_) => Returned(l, Value(None))
    case Set(_, _) => StoreNext(l, prev, target)
  }

  /** The history grows by the one update of the Set call that has just succeeded. */
  function Commit<V>(s: State<V>, t: nat, l: Locals<V>): State<V>
    requires t < |s.threads| && s.history != [] && l.call.Set?
  {
    var latest := s.history[Now(s)][l.call.key := l.call.value];
    Goto(s, t, Returned(l.(seen := |s.history|), Stored)).(history := s.history + [latest])
  }

  // ----- the invariant

  ghost predicate InRange<V>(s: State<V>) {
    && Pow2(s.bits) <= |s.entries|
    && s.history != []
    && (forall a :: Pow2(s.bits) <= a < |s.entries| ==> s.entries[a].box < |s.boxes|)
    && (forall k :: k in s.linked ==>
          Pow2(s.bits) <= s.linked[k] < |s.entries| && s.entries[s.linked[k]].key == k)
  }

  predicate Sentinel<V>(s: State<V>, a: nat) {
    a < Pow2(s.bits)
  }

  /** Reachable from a sentinel, as far as the record goes (see ChainIsLinked). */
  predicate Published<V>(s: State<V>, a: nat)
    requires Pow2(s.bits) <= |s.entries|
  {
    Sentinel(s, a) || (a < |s.entries| && s.entries[a].key in s.linked && s.linked[s.entries[a].key] == a)
  }

  function Home<V>(s: State<V>, a: nat): nat
    requires a < |s.entries|
  {
    if Sentinel(s, a) then a else Bucket(s.entries[a].key, s.bits)
  }

  /** Entry `a` comes before key `k` in its chain. */
  predicate Before<V>(s: State<V>, a: nat, k: int)
    requires a < |s.entries|
  {
    Sentinel(s, a) || s.entries[a].key < k
  }

  /** `target` is a published entry of the bucket after `a`, or the end of the chain. */
  ghost predicate TargetOk<V>(s: State<V>, a: nat, target: Option<nat>)
    requires InRange(s) && Published(s, a)
  {
    target.Some? ==>
      && !Sentinel(s, target.value)
      && Published(s, target.value)
      && Home(s, target.value) == Home(s, a)
      && Before(s, a, s.entries[target.value].key)
  }

  /** No key of `keys` in the bucket of `a` lies strictly between `a` and `target`. */
  ghost predicate Gap<V>(s: State<V>, a: nat, target: Option<nat>, keys: set<int>)
    requires InRange(s) && Published(s, a) && TargetOk(s, a, target)
  {
    forall k | k in keys :: Bucket(k, s.bits) == Home(s, a) && Before(s, a, k)
      ==> target.Some? && s.entries[target.value].key <= k
  }

  /** An entry points to the entry with the next larger linked key of its bucket. */
  ghost predicate LinkOk<V>(s: State<V>, a: nat)
    requires InRange(s) && Published(s, a)
  {
    TargetOk(s, a, s.entries[a].next) && Gap(s, a, s.entries[a].next, s.linked.Keys)
  }

  /** The plain map the table stands for. */
  ghost function Contents<V>(s: State<V>): map<int, V>
    requires InRange(s)
  {
    map k | k in s.linked :: s.boxes[s.entries[s.linked[k]].box]
  }

  ghost predicate LocalsOk<V>(s: State<V>, l: Locals<V>)
    requires InRange(s)
  {
    && l.start <= l.seen <= Now(s)
    && (l.entry.Some? ==>
          && l.call.Set?
          && l.entry.value < |s.entries| && !Published(s, l.entry.value)
          && s.entries[l.entry.value].key == l.call.key
          && s.boxes[s.entries[l.entry.value].box] == l.call.value)
    && (l.box.Some? ==> l.call.Set? && l.box.value < |s.boxes| && s.boxes[l.box.value] == l.call.value)
  }

  /** The position of a call: before its key in the key's bucket. */
  ghost predicate PrevOk<V>(s: State<V>, l: Locals<V>, prev: nat)
    requires InRange(s)
  {
    Published(s, prev) && Home(s, prev) == Bucket(l.call.key, s.bits) && Before(s, prev, l.call.key)
  }

  /** The pointer read at `seen` was right then, and if it is not right now an update happened since. */
  ghost predicate ReadOk<V>(s: State<V>, l: Locals<V>, prev: nat, target: Option<nat>)
    requires InRange(s)
  {
    && PrevOk(s, l, prev)
    && TargetOk(s, prev, target)
    && l.seen <= Now(s)
    && Gap(s, prev, target, s.history[l.seen].Keys)
    && (s.entries[prev].next == target || l.seen < Now(s))
  }

  ghost predicate AtKey<V>(s: State<V>, l: Locals<V>, at: nat)
    requires InRange(s)
  {
    !Sentinel(s, at) && Published(s, at) && s.entries[at].key == l.call.key
  }

  predicate Beyond<V>(s: State<V>, target: Option<nat>, k: int) {
    target.Some? ==> target.value < |s.entries| && k < s.entries[target.value].key
  }

  /** The answer is the plain map's at position `seen`. */
  ghost predicate AnswerOk<V>(s: State<V>, l: Locals<V>, answer: Answer<V>)
    requires l.seen < |s.history|
  {
    var m, k := s.history[l.seen], l.call.key;
    match l.call
    case Has(_) => answer == Present(k in m)
    case Get(_) => answer == Value(if k in m then Some(m[k]) else None)
    case Set(_, v) => answer == Stored && l.start < l.seen && m == s.history[l.seen - 1][k := v]
  }

  ghost predicate ThreadOk<V>(s: State<V>, t: nat)
    requires InRange(s) && t < |s.threads|
  {
    match s.threads[t]
    case Idle => true
    case LoadNext(l, prev) => LocalsOk(s, l) && PrevOk(s, l, prev)
    case Compare(l, prev, target) => LocalsOk(s, l) && ReadOk(s, l, prev, target)
    case LoadValue(l, at) => LocalsOk(s, l) && l.call.Get? && AtKey(s, l, at)
    case LoadOldValue(l, at) => LocalsOk(s, l) && l.call.Set? && AtKey(s, l, at)
    case CasValue(l, at, oldBox) =>
      LocalsOk(s, l) && l.call.Set? && l.box.Some? && AtKey(s, l, at)
      && (s.entries[at].box == oldBox || l.seen < Now(s))
    case StoreNext(l, prev, target) =>
      LocalsOk(s, l) && l.call.Set? && ReadOk(s, l, prev, target) && Beyond(s, target, l.call.key)
    case CasNext(l, prev, target) =>
      LocalsOk(s, l) && l.call.Set? && ReadOk(s, l, prev, target) && Beyond(s, target, l.call.key)
      && l.entry.Some? && s.entries[l.entry.value].next == target
    case Returned(l, answer) => l.start <= l.seen <= Now(s) && AnswerOk(s, l, answer)
  }

  /** The unpublished entry a call has allocated. */
  function Private<V>(l: Thread<V>): Option<nat> {
    if l.Idle? || l.Returned? then None else l.l.entry
  }

  ghost predicate PrivateApart<V>(s: State<V>) {
    forall t, u | 0 <= t < u < |s.threads| ::
      Private(s.threads[t]).Some? ==> Private(s.threads[t]) != Private(s.threads[u])
  }

  ghost predicate Inv<V>(s: State<V>) {
    && InRange(s)
    && (forall a: nat :: Published(s, a) ==> LinkOk(s, a))
    && Contents(s) == s.history[Now(s)]
    && PrivateApart(s)
    && (forall t :: 0 <= t < |s.threads| ==> ThreadOk(s, t))
  }
}
