/**
 Name registration of common/global_data.cpp: linear probing for an id, on top of the hash map. Ids are 64-bit
 words, and `++id` wraps.
 */
module GlobalDataModel {
  import opened Wrappers
  import opened Modular
  import opened Bits
  import opened AtomicHashMapClass

  /** How many increments lead from `start` to `id`. */
  function Distance(start: int, id: int): (d: nat)
    ensures d < WORD
  {
    (id - start) % WORD
  }

  /** The next id, with wrap-around. */
  function Increment(id: nat): (next: nat)
    ensures next < WORD
  {
    (id + 1) % WORD
  }

  /** The id reached from a hash value after `d` increments. */
  function Probe(start: int, d: nat): (id: nat)
    ensures id < WORD
  {
    if d == 0 then start % WORD else Increment(Probe(start, d - 1))
  }

  lemma {:induction false} ProbeIsSum(start: int, d: nat)
    ensures Probe(start, d) == (start + d) % WORD
  {
    if d > 0 {
      ProbeIsSum(start, d - 1);
      var q := (start + d - 1) / WORD;
      assert start + d == Probe(start, d - 1) + 1 + q * WORD;
      ShiftedResidue(Probe(start, d - 1) + 1, q, WORD);
    }
  }

  lemma ProbeDistance(start: int, d: nat)
    requires d < WORD
    ensures Distance(start, Probe(start, d)) == d
  {
    ProbeIsSum(start, d);
    var q := (start + d) / WORD;
    assert Probe(start, d) - start == d + (-q) * WORD;
    ShiftedResidue(d, -q, WORD);
  }

  lemma DistanceProbe(start: int, id: nat)
    requires id < WORD
    ensures Probe(start, Distance(start, id)) == id
  {
    ProbeIsSum(start, Distance(start, id));
    var q := (id - start) / WORD;
    assert start + Distance(start, id) == id + (-q) * WORD;
    ShiftedResidue(id, -q, WORD);
  }

  /**
   What registration keeps true of an id table: ids are words, no two ids have the same name, and the
   ids from a name's hash value up to its own id are all taken.
   */
  ghost predicate Consistent(m: map<int, string>, hash: string -> int) {
    && (forall id :: id in m ==> 0 <= id < WORD)
    && (forall i, j :: i in m && j in m && m[i] == m[j] ==> i == j)
    && (forall id :: id in m ==> TakenBefore(m, hash(m[id]), Distance(hash(m[id]), id)))
  }

  /** The first `n` ids probed from `start` are taken. */
  ghost predicate TakenBefore(m: map<int, string>, start: int, n: nat) {
    forall d :: 0 <= d < n ==> Probe(start, d) in m
  }

  ghost predicate HasName(m: map<int, string>, name: string) {
    exists id :: id in m && m[id] == name
  }

  /** What registering `name` is to do: keep its id, or give it the first free id from its hash value on. */
  ghost predicate Registers(m: map<int, string>, hash: string -> int, name: string, id: int, m': map<int, string>) {
    if HasName(m, name)
    then id in m && m[id] == name && m' == m
    else && 0 <= id < WORD && id !in m && m' == m[id := name]
         && TakenBefore(m, hash(name), Distance(hash(name), id))
  }

  lemma RegistersKeepsConsistent(m: map<int, string>, hash: string -> int, name: string, id: int, m': map<int, string>)
    requires Consistent(m, hash) && Registers(m, hash, name, id, m')
    ensures Consistent(m', hash)
  {
    forall i | i in m'
      ensures TakenBefore(m', hash(m'[i]), Distance(hash(m'[i]), i))
    {
      if i in m && i != id {
        assert TakenBefore(m, hash(m[i]), Distance(hash(m[i]), i));
      }
    }
  }

  /** A consistent table leaves a registration no choice. */
  lemma RegistersDetermined(
    m: map<int, string>, hash: string -> int, name: string, i: int, j: int, m1: map<int, string>, m2: map<int, string>)
    requires Consistent(m, hash) && Registers(m, hash, name, i, m1) && Registers(m, hash, name, j, m2)
    ensures i == j && m1 == m2
  {
    if !HasName(m, name) {
      var di, dj := Distance(hash(name), i), Distance(hash(name), j);
      DistanceProbe(hash(name), i);
      DistanceProbe(hash(name), j);
      assert di < dj ==> Probe(hash(name), di) in m;
      assert dj < di ==> Probe(hash(name), dj) in m;
    }
  }

  /** The ids probed first are as many as there were probes. */
  lemma ProbedAreMany(m: map<int, string>, start: int, n: nat)
    requires TakenBefore(m, start, n) && n <= WORD
    ensures n <= |m|
  {
    var probed := ProbedIds(start, n);
    forall id | id in probed
      ensures id in m
    {
      DistanceProbe(start, id);
    }
    SubsetSize(probed, m.Keys);
  }

  ghost function ProbedIds(start: int, n: nat): (ids: set<int>)
    requires n <= WORD
    ensures |ids| == n
    ensures forall id :: id in ids ==> 0 <= id < WORD && Distance(start, id) < n
  {
    if n == 0 then {}
    else
      ProbeDistance(start, n - 1);
      ProbedIds(start, n - 1) + {Probe(start, n - 1)}
  }

  lemma SubsetSize(a: set<int>, b: set<int>)
    requires a <= b
    ensures |a| <= |b|
  {
    assert b == (b - a) + a;
  }

  /** A name that is in a consistent table is met before the first free id. */
  lemma MetBeforeFreeId(m: map<int, string>, hash: string -> int, name: string, n: nat)
    requires Consistent(m, hash) && n < WORD
    requires AllOthers(m, hash(name), n, name)
    requires Probe(hash(name), n) !in m
    ensures !HasName(m, name)
  {
    forall id | id in m
      ensures m[id] != name
    {
      var d := Distance(hash(name), id);
      DistanceProbe(hash(name), id);
      assert m[id] == name ==> TakenBefore(m, hash(name), d);
      assert d < n ==> m[Probe(hash(name), d)] != name;
      assert n < d && m[id] == name ==> Probe(hash(name), n) in m;
    }
  }

  /** The first `n` ids probed from `start` are taken by other names. */
  ghost predicate AllOthers(m: map<int, string>, start: int, n: nat, name: string) {
    forall d :: 0 <= d < n ==> Probe(start, d) in m && m[Probe(start, d)] != name
  }

  /** Storing the name where the probing stopped is what registering it is to do. */
  lemma ProbingRegisters(m: map<int, string>, hash: string -> int, name: string, probes: nat)
    requires Consistent(m, hash) && probes < WORD && AllOthers(m, hash(name), probes, name)
    requires var id := Probe(hash(name), probes);
             id in m ==> m[id] == name
    ensures var id := Probe(hash(name), probes);
            Registers(m, hash, name, id, m[id := name])
  {
    var id := Probe(hash(name), probes);
    if id in m {
      assert m == m[id := name];
    } else {
      MetBeforeFreeId(m, hash, name, probes);
      ProbeDistance(hash(name), probes);
    }
  }

  lemma MoreIdsThanProbes(m: map<int, string>, start: int, n: nat, name: string)
    requires AllOthers(m, start, n, name) && Probe(start, n) in m && n < WORD
    ensures n < |m|
  {
    ProbedAreMany(m, start, n + 1);
  }

  lemma OneMoreOther(m: map<int, string>, start: int, n: nat, name: string)
    requires 1 <= n && AllOthers(m, start, n - 1, name)
    requires Probe(start, n - 1) in m && m[Probe(start, n - 1)] != name
    ensures AllOthers(m, start, n, name)
  {}

  /**
   The probing loop of RegisterChannel and RegisterNode: the id at which it stops, and the number of
   collisions on the way. The table must not hold every 64-bit id already: the source would probe for ever.
   */
  method ProbeFor(table: AtomicHashMap<string>, start: int, name: string) returns (id: int, collisions: nat)
    requires table.Valid() && |table.contents| < WORD
    ensures id == Probe(start, collisions) && collisions < WORD
    ensures AllOthers(table.contents, start, collisions, name)
    ensures id in table.contents ==> table.contents[id] == name
  {
    ghost var m := table.contents;
    id, collisions := start % WORD, 0;
    var taken := table.Has(id);
    while taken
      invariant table.Valid() && table.contents == m
      invariant id == Probe(start, collisions) && collisions < WORD && taken == (id in m)
      invariant AllOthers(m, start, collisions, name)
      decreases |m| - collisions
    {
      MoreIdsThanProbes(m, start, collisions, name);
      var other := table.Get(id);
      if other == Some(name) {
        break;
      }
      id := Increment(id);
      collisions := collisions + 1;
      OneMoreOther(m, start, collisions, name);
      taken := table.Has(id);
    }
  }

  method Register(table: AtomicHashMap<string>, hash: string -> int, name: string) returns (id: int)
    requires table.Valid() && Consistent(table.contents, hash) && |table.contents| < WORD
    modifies table, table.nodes
    ensures table.Valid() && Consistent(table.contents, hash) && fresh(table.nodes - old(table.nodes))
    ensures Registers(old(table.contents), hash, name, id, table.contents)
  {
    var collisions;
    id, collisions := ProbeFor(table, hash(name), name);
    ghost var m := table.contents;
    ProbingRegisters(m, hash, name, collisions);
    RegistersKeepsConsistent(m, hash, name, id, m[id := name]);
    table.Set(id, name);
  }

  class GlobalData {
    const channelIdMap: AtomicHashMap<string>
    const nodeIdMap: AtomicHashMap<string>
    const hash: string -> int

    ghost predicate Valid()
      reads this, channelIdMap, channelIdMap.table, channelIdMap.nodes, nodeIdMap, nodeIdMap.table, nodeIdMap.nodes
    {
      && channelIdMap.Valid() && Consistent(channelIdMap.contents, hash)
      && nodeIdMap.Valid() && Consistent(nodeIdMap.contents, hash)
      && channelIdMap != nodeIdMap && channelIdMap.nodes !! nodeIdMap.nodes
      && channelIdMap.table != nodeIdMap.table
    }

    constructor (hash: string -> int)
      ensures Valid() && this.hash == hash
      ensures channelIdMap.contents == map[] == nodeIdMap.contents
    {
      this.hash := hash;
      var channels := new AtomicHashMap<string>(8);
      var nodes := new AtomicHashMap<string>(9);
      channelIdMap, nodeIdMap := channels, nodes;
    }

    method RegisterChannel(channel: string) returns (id: int)
      requires Valid() && |channelIdMap.contents| < WORD
      modifies channelIdMap, channelIdMap.nodes
      ensures Valid() && nodeIdMap.contents == old(nodeIdMap.contents)
      ensures Registers(old(channelIdMap.contents), hash, channel, id, channelIdMap.contents)
    {
      id := Register(channelIdMap, hash, channel);
    }

    method RegisterNode(nodeName: string) returns (id: int)
      requires Valid() && |nodeIdMap.contents| < WORD
      modifies nodeIdMap, nodeIdMap.nodes
      ensures Valid() && channelIdMap.contents == old(channelIdMap.contents)
      ensures Registers(old(nodeIdMap.contents), hash, nodeName, id, nodeIdMap.contents)
    {
      id := Register(nodeIdMap, hash, nodeName);
    }

    /** The name registered under an id, or the empty string. */
    method GetChannelById(id: int) returns (name: string)
      requires Valid()
      ensures name == if id in channelIdMap.contents then channelIdMap.contents[id] else ""
    {
      var channel := channelIdMap.Get(id);
      match channel
      case Some(c) => name := c;
      case None => name := "";
    }
  }

  /** A run of registrations, from an empty table. */
  ghost predicate Registrations(ms: seq<map<int, string>>, hash: string -> int, names: seq<string>, ids: seq<int>) {
    && |names| == |ids| && |ms| == |names| + 1 && ms[0] == map[]
    && (forall i :: 0 <= i < |names| ==> Registers(ms[i], hash, names[i], ids[i], ms[i + 1]))
  }

  lemma {:induction false} RegistrationsConsistent(
    ms: seq<map<int, string>>, hash: string -> int, names: seq<string>, ids: seq<int>, j: nat)
    requires Registrations(ms, hash, names, ids) && j < |ms|
    ensures Consistent(ms[j], hash)
    ensures forall i :: 0 <= i < j ==> ids[i] in ms[j] && ms[j][ids[i]] == names[i]
    decreases j
  {
    if j > 0 {
      RegistrationsConsistent(ms, hash, names, ids, j - 1);
      assert Registers(ms[j - 1], hash, names[j - 1], ids[j - 1], ms[j - 1 + 1]);
      RegistersKeepsConsistent(ms[j - 1], hash, names[j - 1], ids[j - 1], ms[j]);
    }
  }

  /**
   In any run of registrations, with any hash function, ids and names correspond one to one, and an id
   still leads to its name after all later registrations.
   */
  lemma IdsAndNamesCorrespond(ms: seq<map<int, string>>, hash: string -> int, names: seq<string>, ids: seq<int>)
    requires Registrations(ms, hash, names, ids)
    ensures forall i, j :: 0 <= i < |names| && 0 <= j < |names| ==> (names[i] == names[j] <==> ids[i] == ids[j])
    ensures forall i, j :: 0 <= i < j <= |names| ==> ids[i] in ms[j] && ms[j][ids[i]] == names[i]
  {
    forall j | 0 <= j <= |names|
      ensures forall i :: 0 <= i < j ==> ids[i] in ms[j] && ms[j][ids[i]] == names[i]
    {
      RegistrationsConsistent(ms, hash, names, ids, j);
    }
    RegistrationsConsistent(ms, hash, names, ids, |names|);
  }
}
