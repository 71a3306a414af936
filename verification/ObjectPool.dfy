/**
 The pool of base/object_pool.h: nodes of one arena, those not handed out chained through their next fields.
 A pointer to a node is its index in the arena.
 */
module ObjectPoolModel {
  import opened Wrappers

  const NULL: int := -1

  /** The free list from its head on, and the nodes handed out. */
  datatype Pool = Pool(free: seq<nat>, outstanding: set<nat>)

  datatype Request = Get | Release(node: nat)

  predicate Distinct(s: seq<nat>) {
    forall i, j :: 0 <= i < j < |s| ==> s[i] != s[j]
  }

  /** Every node of the arena is either once in the free list or handed out. */
  ghost predicate Whole(p: Pool, n: nat) {
    && (forall i :: 0 <= i < |p.free| ==> p.free[i] < n)
    && Distinct(p.free)
    && (forall x: nat :: x in p.outstanding <==> x < n && x !in p.free)
  }

  function Taken(p: Pool): Pool {
    if p.free == [] then p else Pool(p.free[1..], p.outstanding + {p.free[0]})
  }

  function Returned(p: Pool, x: nat): Pool {
    Pool([x] + p.free, p.outstanding - {x})
  }

  /** The deleter of a shared pointer gives back a node that is handed out. */
  predicate Allowed(p: Pool, r: Request) {
    r.Get? || r.node in p.outstanding
  }

  function Serve(p: Pool, r: Request): Pool {
    if r.Get? then Taken(p) else if Allowed(p, r) then Returned(p, r.node) else p
  }

  function ServeAll(p: Pool, requests: seq<Request>): Pool
    decreases |requests|
  {
    if requests == [] then p
    else Serve(ServeAll(p, requests[..|requests| - 1]), requests[|requests| - 1])
  }

  /** What the constructor builds: the node made last comes first. */
  function Full(n: nat): Pool {
    Pool(Downward(n), {})
  }

  function Downward(n: nat): (s: seq<nat>)
    ensures |s| == n && forall i :: 0 <= i < n ==> s[i] == n - 1 - i
  {
    if n == 0 then [] else [n - 1] + Downward(n - 1)
  }

  lemma ServeKeepsWhole(p: Pool, n: nat, r: Request)
    requires Whole(p, n)
    ensures Whole(Serve(p, r), n)
  {
    if r.Get? && p.free != [] {
      var x := p.free[0];
      assert p.free == [x] + p.free[1..];
      forall y | y in p.free[1..]
        ensures y != x
      {
        var i :| 0 <= i < |p.free[1..]| && p.free[1..][i] == y;
        assert p.free[i + 1] == y;
      }
    }
  }

  lemma FullIsWhole(n: nat)
    ensures Whole(Full(n), n)
  {
    forall x | 0 <= x < n
      ensures x in Downward(n)
    {
      assert Downward(n)[n - 1 - x] == x;
    }
  }

  /** The numbers below `n`. */
  function Below(n: nat): (s: set<nat>)
    ensures |s| == n && forall x: nat :: x in s <==> x < n
  {
    if n == 0 then {} else Below(n - 1) + {n - 1}
  }

  function Elements(s: seq<nat>): set<nat> {
    set x | x in s
  }

  lemma {:induction false} DistinctCount(s: seq<nat>)
    requires Distinct(s)
    ensures |Elements(s)| == |s|
  {
    if s != [] {
      var rest := s[1..];
      forall i, j | 0 <= i < j < |rest|
        ensures rest[i] != rest[j]
      {
        assert s[i + 1] != s[j + 1];
      }
      DistinctCount(rest);
      assert s == [s[0]] + rest;
      assert Elements(s) == Elements(rest) + {s[0]};
    }
  }

  /** Conservation: free and outstanding nodes together are always as many as the arena has. */
  lemma FreePlusOutstanding(p: Pool, n: nat)
    requires Whole(p, n)
    ensures |p.free| + |p.outstanding| == n
  {
    DistinctCount(p.free);
    var free := Elements(p.free);
    assert free !! p.outstanding;
    forall x: nat
      ensures x in free + p.outstanding <==> x in Below(n)
    {
    }
    assert free + p.outstanding == Below(n);
  }

  /**
   After any sequence of requests every node is in the free list once or handed out, never both or twice, the
   two make up the arena, and the pool has nothing to give exactly when every node is handed out.
   */
  lemma {:induction false} EveryRunKeepsWhole(n: nat, requests: seq<Request>)
    ensures var p := ServeAll(Full(n), requests);
            Whole(p, n) && |p.free| + |p.outstanding| == n && (p.free == [] <==> |p.outstanding| == n)
    decreases |requests|
  {
    if requests == [] {
      FullIsWhole(n);
    } else {
      EveryRunKeepsWhole(n, requests[..|requests| - 1]);
      ServeKeepsWhole(ServeAll(Full(n), requests[..|requests| - 1]), n, requests[|requests| - 1]);
    }
    FreePlusOutstanding(ServeAll(Full(n), requests), n);
  }

  /** The `i`-th request hands out node `x`. */
  predicate HandsOut(n: nat, requests: seq<Request>, i: nat, x: nat)
    requires i < |requests|
  {
    var p := ServeAll(Full(n), requests[..i]);
    requests[i].Get? && p.free != [] && p.free[0] == x
  }

  /** The node has been handed out and not been given back since. */
  ghost predicate Kept(n: nat, requests: seq<Request>, x: nat) {
    exists i :: 0 <= i < |requests| && HandsOut(n, requests, i, x)
                && forall j :: i < j < |requests| ==> requests[j] != Release(x)
  }

  lemma KeptOneMore(n: nat, requests: seq<Request>, x: nat)
    requires requests != []
    ensures var last, before := |requests| - 1, requests[..|requests| - 1];
            Kept(n, requests, x) <==>
              HandsOut(n, requests, last, x) || (Kept(n, before, x) && requests[last] != Release(x))
  {
    var last, before := |requests| - 1, requests[..|requests| - 1];
    forall i | 0 <= i < last
      ensures HandsOut(n, requests, i, x) <==> HandsOut(n, before, i, x)
    {
      assert before[..i] == requests[..i];
    }
    if Kept(n, requests, x) {
      var i :| 0 <= i < |requests| && HandsOut(n, requests, i, x)
               && forall j :: i < j < |requests| ==> requests[j] != Release(x);
      assert i < last ==> HandsOut(n, before, i, x);
    }
    if Kept(n, before, x) && requests[last] != Release(x) {
      var i :| 0 <= i < last && HandsOut(n, before, i, x) && forall j :: i < j < last ==> before[j] != Release(x);
      assert HandsOut(n, requests, i, x);
      forall j | i < j < |requests|
        ensures requests[j] != Release(x)
      {
        assert j < last ==> requests[j] == before[j];
      }
    }
  }

  /** After any requests a node is handed out exactly if its last hand-out has not been followed by its release. */
  lemma {:induction false} OutstandingIffKept(n: nat, requests: seq<Request>, x: nat)
    ensures x in ServeAll(Full(n), requests).outstanding <==> Kept(n, requests, x)
    decreases |requests|
  {
    if requests != [] {
      var last, before := |requests| - 1, requests[..|requests| - 1];
      OutstandingIffKept(n, before, x);
      KeptOneMore(n, requests, x);
      EveryRunKeepsWhole(n, before);
    }
  }

  /** Where `k` links lead to from a node. */
  function Follow(next: seq<int>, from: int, k: nat): int {
    if k == 0 then from
    else
      var x := Follow(next, from, k - 1);
      if 0 <= x < |next| then next[x] else NULL
  }

  /** The node at a position of the free list, and null after its end. */
  function At(free: seq<nat>, i: nat): int {
    if i < |free| then free[i] else NULL
  }

  /** The links run through the free list and end. */
  ghost predicate Chained(next: seq<int>, head: int, free: seq<nat>) {
    && head == At(free, 0)
    && forall i :: 0 <= i < |free| ==> free[i] < |next| && next[free[i]] == At(free, i + 1)
  }

  lemma ChainPop(next: seq<int>, head: int, free: seq<nat>)
    requires Chained(next, head, free) && free != []
    ensures Chained(next, next[head], free[1..])
  {
    var rest := free[1..];
    forall i | 0 <= i < |rest|
      ensures rest[i] < |next| && next[rest[i]] == At(rest, i + 1)
    {
      assert rest[i] == free[i + 1];
    }
  }

  lemma ChainPush(next: seq<int>, head: int, free: seq<nat>, x: nat)
    requires Chained(next, head, free) && x < |next| && x !in free
    ensures Chained(next[x := head], x, [x] + free)
  {
    var longer, after := [x] + free, next[x := head];
    forall i | 0 <= i < |longer|
      ensures longer[i] < |after| && after[longer[i]] == At(longer, i + 1)
    {
      if i > 0 {
        assert longer[i] == free[i - 1];
      }
    }
  }

  /** Following the links from the head meets the nodes of the free list, in order, and then null: no cycle. */
  lemma {:induction false} LinksVisitFreeList(next: seq<int>, head: int, free: seq<nat>, k: nat)
    requires Chained(next, head, free)
    ensures Follow(next, head, k) == At(free, k)
  {
    if k > 0 {
      LinksVisitFreeList(next, head, free, k - 1);
      assert k - 1 < |free| ==> next[free[k - 1]] == At(free, k);
    }
  }

  class ObjectPool {
    const numObjects: nat
    const next: array<int>
    var freeHead: int
    ghost var pool: Pool

    ghost predicate Valid()
      reads this, next
    {
      next.Length == numObjects && Whole(pool, numObjects) && Chained(next[..], freeHead, pool.free)
    }

    constructor (numObjects: nat)
      ensures Valid() && this.numObjects == numObjects && pool == Full(numObjects) && fresh(next)
    {
      this.numObjects := numObjects;
      next := new int[numObjects];
      freeHead, pool := NULL, Pool([], {});
      new;
      for i := 0 to numObjects
        invariant pool == Pool(Downward(i), {}) && Chained(next[..], freeHead, pool.free)
      {
        ChainPush(next[..], freeHead, pool.free, i);
        ghost var links := next[..];
        next[i] := freeHead;
        assert next[..] == links[i := freeHead];
        freeHead := i;
        pool := Pool([i] + pool.free, {});
      }
      FullIsWhole(numObjects);
    }

    /** The first free node, or null if and only if all are handed out. */
    method GetObject() returns (obj: int)
      requires Valid()
      modifies this`freeHead, this`pool
      ensures Valid() && pool == Serve(old(pool), Get)
      ensures obj == NULL <==> |old(pool).outstanding| == numObjects
      ensures obj != NULL ==>
                obj >= 0 && obj !in old(pool).outstanding && pool.outstanding == old(pool).outstanding + {obj}
    {
      FreePlusOutstanding(pool, numObjects);
      ServeKeepsWhole(pool, numObjects, Get);
      if freeHead == NULL {
        return NULL;
      }
      ChainPop(next[..], freeHead, pool.free);
      obj := freeHead;
      freeHead := next[freeHead];
      pool := Taken(pool);
    }

    /** Gives a node back, which is the next to be handed out; null is ignored. */
    method ReleaseObject(obj: int)
      requires Valid() && (obj == NULL || (0 <= obj && obj in pool.outstanding))
      modifies this`freeHead, this`pool, next
      ensures Valid() && pool == if obj == NULL then old(pool) else Serve(old(pool), Release(obj))
      ensures obj != NULL ==> pool.outstanding == old(pool).outstanding - {obj} && pool.free == [obj] + old(pool).free
    {
      if obj == NULL {
        return;
      }
      ServeKeepsWhole(pool, numObjects, Release(obj));
      ChainPush(next[..], freeHead, pool.free, obj);
      ghost var links := next[..];
      next[obj] := freeHead;
      assert next[..] == links[obj := freeHead];
      freeHead := obj;
      pool := Returned(pool, obj);
    }
  }
}
