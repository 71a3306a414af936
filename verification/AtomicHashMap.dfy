/**
 The table of base/atomic_hash_map.h as its single-threaded callers see it: sorted linked chains behind
 an array of sentinels, updated in place, that behave like a map.
 */
module AtomicHashMapClass {
  import opened Wrappers
  import opened Bits
  import opened AtomicHashMapProtocol

  /** The largest value of a 64-bit integral key type. */
  const MAX_KEY: int := 0xFFFF_FFFF_FFFF_FFFF

  class Node<V> {
    const key: int
    var value: Option<V>
    var next: Node?<V>
    ghost const home: nat
    ghost const sentinel: bool

    constructor Head(ghost bucket: nat)
      ensures sentinel && home == bucket && next == null
    {
      key, value, next := 0, None, null;
      home, sentinel := bucket, true;
    }

    constructor (key: int, value: V, next: Node?<V>, ghost bucket: nat)
      ensures this.key == key && this.value == Some(value) && this.next == next
      ensures !sentinel && home == bucket
    {
      this.key, this.value, this.next := key, Some(value), next;
      home, sentinel := bucket, false;
    }

    /** This node comes before key `k` in its chain. */
    ghost predicate Before(k: int) {
      sentinel || key < k
    }
  }

  /** The node after `n` is the one with the next larger key of the bucket. */
  ghost predicate PointsToSuccessor<V>(n: Node<V>, next: Node?<V>, nodes: set<Node<V>>, keys: set<int>, bits: nat) {
    && (next != null ==> next in nodes && !next.sentinel && next.home == n.home && n.Before(next.key))
    && (forall k :: k in keys && Bucket(k, bits) == n.home && n.Before(k) ==> next != null && next.key <= k)
  }

  /** Linking `entry` in between `prev` and `target` leaves every node pointing to its successor. */
  lemma InsertedLink<V>(n: Node<V>, next: Node?<V>, prev: Node<V>, target: Node?<V>, entry: Node<V>,
                        nodes: set<Node<V>>, keys: set<int>, bits: nat)
    requires PointsToSuccessor(n, next, nodes, keys, bits) && PointsToSuccessor(prev, target, nodes, keys, bits)
    requires !entry.sentinel && entry.home == Bucket(entry.key, bits) == prev.home && prev.Before(entry.key)
    requires target != null ==> entry.key < target.key
    requires n == prev ==> next == target
    requires forall m :: m in {n, prev} && !m.sentinel ==> m.key in keys && m.home == Bucket(m.key, bits)
    requires n != prev && n.home == prev.home ==>
               if n.sentinel then !prev.sentinel else prev.sentinel || n.key != prev.key
    ensures PointsToSuccessor(n, if n == prev then entry else next, nodes + {entry}, keys + {entry.key}, bits)
    ensures PointsToSuccessor(entry, target, nodes + {entry}, keys + {entry.key}, bits)
  {}

  class AtomicHashMap<V> {
    const bits: nat
    const table: array<Node<V>>
    ghost var linked: map<int, Node<V>>
    ghost var nodes: set<Node<V>>
    /** The plain map the table stands for. */
    ghost var contents: map<int, V>

    ghost predicate Valid()
      reads this, table, nodes
    {
      && table.Length == Pow2(bits)
      && (forall b :: 0 <= b < table.Length ==> table[b] in nodes && table[b].sentinel && table[b].home == b)
      && (forall k :: k in linked ==>
            && linked[k] in nodes && !linked[k].sentinel && linked[k].key == k
            && linked[k].home == Bucket(k, bits) && k <= MAX_KEY)
      && contents.Keys == linked.Keys
      && (forall k :: k in linked ==> linked[k].value == Some(contents[k]))
      && (forall n :: n in nodes ==> Placed(n) && LinkOk(n))
    }

    ghost predicate Placed(n: Node<V>)
      reads this, table
    {
      if n.sentinel then n.home < table.Length && table[n.home] == n
      else n.key in linked && linked[n.key] == n && n.home == Bucket(n.key, bits)
    }

    ghost predicate LinkOk(n: Node<V>)
      reads this, n
    {
      PointsToSuccessor(n, n.next, nodes, linked.Keys, bits)
    }

    constructor (bits: nat)
      ensures Valid() && fresh(table) && fresh(nodes)
      ensures contents == map[] && this.bits == bits
    {
      var size := Pow2(bits);
      var first := new Node<V>.Head(0);
      var heads := new Node<V>[size](i => first);
      for b := 1 to size
        invariant heads[0] == first && first.sentinel && first.home == 0 && first.next == null
        invariant fresh(heads)
        invariant forall c :: 1 <= c < b ==>
                    fresh(heads[c]) && heads[c].sentinel && heads[c].home == c && heads[c].next == null
      {
        heads[b] := new Node<V>.Head(b);
      }
      this.bits, table := bits, heads;
      linked, contents := map[], map[];
      nodes := set b | 0 <= b < size :: heads[b];
    }

    /** The first node of the bucket whose key is not below `key`, and the one before it. */
    method Find(key: int) returns (found: bool, prev: Node<V>, target: Node?<V>)
      requires Valid()
      ensures found == (key in linked)
      ensures found ==> target == linked[key]
      ensures prev in nodes && prev.home == Bucket(key, bits) && prev.Before(key) && prev.next == target
      ensures !found && target != null ==> key < target.key
    {
      prev := table[Bucket(key, bits)];
      target := prev.next;
      found := false;
      while target != null
        invariant prev in nodes && prev.home == Bucket(key, bits) && prev.Before(key) && prev.next == target
        invariant !found
        decreases if target == null then 0 else 1 + MAX_KEY - target.key
      {
        assert Placed(prev) && LinkOk(prev) && Placed(target);
        if target.key == key {
          found := true;
          return;
        } else if target.key > key {
          return;
        } else {
          prev := target;
          target := target.next;
          assert LinkOk(prev);
        }
      }
      assert LinkOk(prev);
    }

    method Has(key: int) returns (found: bool)
      requires Valid()
      ensures found == (key in contents)
    {
      var target := table[Bucket(key, bits)].next;
      ghost var prev := table[Bucket(key, bits)];
      while target != null
        invariant prev in nodes && prev.home == Bucket(key, bits) && prev.Before(key) && prev.next == target
        decreases if target == null then 0 else 1 + MAX_KEY - target.key
      {
        assert LinkOk(prev) && Placed(target);
        if target.key < key {
          prev := target;
          target := target.next;
          assert LinkOk(prev);
        } else {
          return target.key == key;
        }
      }
      assert LinkOk(prev);
      return false;
    }

    method Get(key: int) returns (value: Option<V>)
      requires Valid()
      ensures value == if key in contents then Some(contents[key]) else None
    {
      var found, prev, target := Find(key);
      if found {
        value := target.value;
      } else {
        value := None;
      }
    }

    /** Stores the value under the key, in place if the key is there and in a new node if not. */
    method Set(key: int, value: V)
      requires Valid() && key <= MAX_KEY
      modifies this, nodes
      ensures Valid() && fresh(nodes - old(nodes))
      ensures contents == old(contents)[key := value]
    {
      var found, prev, target := Find(key);
      if found {
        Replace(key, value, target);
      } else {
        Insert(key, value, prev, target);
      }
    }

    method Replace(key: int, value: V, target: Node<V>)
      requires Valid() && key in linked && target == linked[key]
      modifies this`contents, target`value
      ensures Valid() && contents == old(contents)[key := value]
    {
      target.value := Some(value);
      contents := contents[key := value];
      forall n | n in nodes
        ensures Placed(n) && LinkOk(n)
      {
        assert old(Placed(n)) && old(LinkOk(n));
      }
    }

    /** What every node will point to once `prev` points to `entry`. */
    lemma Spliced(prev: Node<V>, target: Node?<V>, entry: Node<V>)
      requires Valid() && prev in nodes && prev.next == target && prev.Before(entry.key)
      requires !entry.sentinel && entry.home == Bucket(entry.key, bits) == prev.home && entry.next == target
      requires target != null ==> entry.key < target.key
      ensures forall n :: n in nodes + {entry} ==>
                PointsToSuccessor(
                  n, if n == prev then entry else n.next, nodes + {entry}, linked.Keys + {entry.key}, bits)
    {
      assert Placed(prev) && LinkOk(prev);
      forall n | n in nodes + {entry}
        ensures PointsToSuccessor(
          n, if n == prev then entry else n.next, nodes + {entry}, linked.Keys + {entry.key}, bits)
      {
        var m := if n in nodes then n else prev;
        assert Placed(m) && LinkOk(m);
        InsertedLink(m, m.next, prev, target, entry, nodes, linked.Keys, bits);
      }
    }

    method Insert(key: int, value: V, prev: Node<V>, target: Node?<V>)
      requires Valid() && key !in linked && key <= MAX_KEY
      requires prev in nodes && prev.home == Bucket(key, bits) && prev.Before(key) && prev.next == target
      requires target != null ==> key < target.key
      modifies this`linked, this`nodes, this`contents, prev`next
      ensures Valid() && fresh(nodes - old(nodes)) && old(nodes) <= nodes
      ensures contents == old(contents)[key := value]
    {
      assert Placed(prev) && LinkOk(prev);
      var entry := new Node(key, value, target, Bucket(key, bits));
      Spliced(prev, target, entry);
      Link(prev, entry, value);
    }

    /** The compare-exchange that makes a finished entry reachable. */
    method Link(prev: Node<V>, entry: Node<V>, value: V)
      requires Valid() && prev in nodes && entry !in nodes
      requires entry.key !in linked && entry.key <= MAX_KEY && entry.value == Some(value)
      requires !entry.sentinel && entry.home == Bucket(entry.key, bits)
      requires forall n :: n in nodes + {entry} ==>
                 PointsToSuccessor(
                   n, if n == prev then entry else n.next, nodes + {entry}, linked.Keys + {entry.key}, bits)
      modifies this`linked, this`nodes, this`contents, prev`next
      ensures Valid() && nodes == old(nodes) + {entry} && contents == old(contents)[entry.key := value]
    {
      ghost var keys' := linked.Keys + {entry.key};
      prev.next := entry;
      linked, contents := linked[entry.key := entry], contents[entry.key := value];
      nodes := nodes + {entry};
      assert linked.Keys == keys';
      forall n | n in nodes
        ensures Placed(n) && LinkOk(n)
      {
        assert n != entry ==> old(Placed(n));
      }
    }
  }
}
