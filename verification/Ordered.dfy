/** Sets and maps sorted by an ordering of the values, as std::set and std::map keep them. */
module Ordered {
  import opened Bytes
  import opened Wrappers
  import opened Numbers
  import opened Codec

  type Less = (Value, Value) -> bool

  /** Each type that occurs as the element of a set or the key of a map has an ordering of its own. */
  type Orders = Type -> Less

  /** No two values come each before the other, and the ordering is transitive: so it is for any set or map. */
  ghost predicate Ordering(less: Less) {
    && (forall a, b :: less(a, b) ==> !less(b, a))
    && (forall a, b, c :: less(a, b) && less(b, c) ==> less(a, c))
  }

  ghost predicate AllOrderings(orders: Orders) {
    forall ty :: Ordering(orders(ty))
  }

  /** What a container with elements of a type is sorted by: a map by its keys. */
  function KeyType(elem: Type): Type {
    if elem.PairT? then elem.key else elem
  }

  function Key(v: Value): Value {
    if v.Pair? then v.key else v
  }

  predicate Sorted(elems: seq<Value>, less: Less) {
    forall i, j :: 0 <= i < j < |elems| ==> less(Key(elems[i]), Key(elems[j]))
  }

  /**
   std::set::insert, which does nothing if an equivalent element is there; or, for a map, operator[] and an
   assignment, which keeps an equivalent key and replaces its value.
   */
  function Insert(less: Less, replace: bool, elems: seq<Value>, v: Value): seq<Value> {
    if elems == [] || less(Key(v), Key(elems[0])) then [v] + elems
    else if less(Key(elems[0]), Key(v)) then [elems[0]] + Insert(less, replace, elems[1..], v)
    else if replace && v.Pair? then [Pair(Key(elems[0]), v.value)] + elems[1..]
    else elems
  }

  function Inserted(less: Less, replace: bool, elems: seq<Value>): seq<Value> {
    var n := |elems|;
    if n == 0 then [] else Insert(less, replace, Inserted(less, replace, elems[..n - 1]), elems[n - 1])
  }

  function SortedBy(orders: Orders): Containers {
    Containers((elem, elems) => Inserted(orders(KeyType(elem)), false, elems),
               (elem, elems) => Inserted(orders(KeyType(elem)), true, elems))
  }

  /** Inserting a value that comes after all the others puts it at the end. */
  lemma {:induction false} InsertLast(less: Less, replace: bool, elems: seq<Value>, v: Value)
    requires Ordering(less) && Sorted(elems + [v], less)
    ensures Insert(less, replace, elems, v) == elems + [v]
    decreases |elems|
  {
    if elems != [] {
      var all := elems + [v];
      assert less(Key(all[0]), Key(all[|elems|]));
      assert elems[1..] + [v] == all[1..];
      forall i, j | 0 <= i < j < |all[1..]|
        ensures less(Key(all[1..][i]), Key(all[1..][j]))
      {
        assert less(Key(all[i + 1]), Key(all[j + 1]));
      }
      InsertLast(less, replace, elems[1..], v);
    }
  }

  /** Things in order make up the set or map they came from. */
  lemma {:induction false} InsertedInOrder(less: Less, replace: bool, elems: seq<Value>)
    requires Ordering(less) && Sorted(elems, less)
    ensures Inserted(less, replace, elems) == elems
    decreases |elems|
  {
    var n := |elems|;
    if n > 0 {
      var front := elems[..n - 1];
      assert elems == front + [elems[n - 1]];
      InsertedInOrder(less, replace, front);
      InsertLast(less, replace, front, elems[n - 1]);
    }
  }

  /**
   What an insertion at place `k`, where all before it come before the key, is to make of `elems`: a key that comes
   before what is there is put in, and nothing is lost; at an equivalent key nothing changes in a set, and in a map
   the value is replaced and the key kept.
   */
  predicate Puts(less: Less, replace: bool, elems: seq<Value>, v: Value, k: nat, after: seq<Value>) {
    && k <= |elems| && (forall i :: 0 <= i < k ==> less(Key(elems[i]), Key(v)))
    && if k == |elems| || less(Key(v), Key(elems[k])) then after == elems[..k] + [v] + elems[k..]
       else && !less(Key(elems[k]), Key(v))
            && after == elems[k := if replace && v.Pair? then Pair(Key(elems[k]), v.value) else elems[k]]
  }

  lemma PutsLater(less: Less, replace: bool, first: Value, rest: seq<Value>, v: Value, k: nat, after: seq<Value>)
    requires less(Key(first), Key(v)) && Puts(less, replace, rest, v, k, after)
    ensures Puts(less, replace, [first] + rest, v, k + 1, [first] + after)
  {
    var elems := [first] + rest;
    assert elems[..k + 1] == [first] + rest[..k] && elems[k + 1..] == rest[k..];
    assert k < |rest| ==> elems[k + 1] == rest[k];
  }

  /** Insertion does just that. */
  lemma {:induction false} InsertExact(less: Less, replace: bool, elems: seq<Value>, v: Value) returns (k: nat)
    ensures Puts(less, replace, elems, v, k, Insert(less, replace, elems, v))
    decreases |elems|
  {
    k := 0;
    if elems != [] && !less(Key(v), Key(elems[0])) && less(Key(elems[0]), Key(v)) {
      var rest := elems[1..];
      k := InsertExact(less, replace, rest, v);
      PutsLater(less, replace, elems[0], rest, v, k, Insert(less, replace, rest, v));
      assert elems == [elems[0]] + rest;
      k := k + 1;
    }
  }

  /** Insertion keeps a set or a map sorted. */
  lemma InsertSorted(less: Less, replace: bool, elems: seq<Value>, v: Value)
    requires Ordering(less) && Sorted(elems, less)
    ensures Sorted(Insert(less, replace, elems, v), less)
  {
    var k := InsertExact(less, replace, elems, v);
    PutsSorted(less, replace, elems, v, k, Insert(less, replace, elems, v));
  }

  lemma PutsSorted(less: Less, replace: bool, elems: seq<Value>, v: Value, k: nat, after: seq<Value>)
    requires Ordering(less) && Sorted(elems, less) && Puts(less, replace, elems, v, k, after)
    ensures Sorted(after, less)
  {
    forall i, j | 0 <= i < j < |after|
      ensures less(Key(after[i]), Key(after[j]))
    {
      if |after| == |elems| {
        assert less(Key(elems[i]), Key(elems[j]));
      } else {
        PutPlaces(less, elems, v, k, i, j);
      }
    }
  }

  lemma PutPlaces(less: Less, elems: seq<Value>, v: Value, k: nat, i: nat, j: nat)
    requires Ordering(less) && Sorted(elems, less) && k <= |elems| && i < j <= |elems|
    requires forall h :: 0 <= h < k ==> less(Key(elems[h]), Key(v))
    requires k < |elems| ==> less(Key(v), Key(elems[k]))
    ensures var after := elems[..k] + [v] + elems[k..]; less(Key(after[i]), Key(after[j]))
  {
    if j < k {
      assert less(Key(elems[i]), Key(elems[j]));
    } else if i > k {
      assert less(Key(elems[i - 1]), Key(elems[j - 1]));
    } else if j > k {
      assert j - 1 > k ==> less(Key(elems[k]), Key(elems[j - 1]));
    }
  }

  lemma {:induction false} InsertedSorted(less: Less, replace: bool, elems: seq<Value>)
    requires Ordering(less)
    ensures Sorted(Inserted(less, replace, elems), less)
    decreases |elems|
  {
    var n := |elems|;
    if n > 0 {
      InsertedSorted(less, replace, elems[..n - 1]);
      InsertSorted(less, replace, Inserted(less, replace, elems[..n - 1]), elems[n - 1]);
    }
  }

  /** The sets and maps that come back unchanged from inserting their contents in order are exactly the sorted ones. */
  lemma RebuiltIffSorted(less: Less, replace: bool, elems: seq<Value>)
    requires Ordering(less)
    ensures Inserted(less, replace, elems) == elems <==> Sorted(elems, less)
  {
    InsertedSorted(less, replace, elems);
    if Sorted(elems, less) {
      InsertedInOrder(less, replace, elems);
    }
  }

  /** The typing of values in a program whose sets and maps are sorted: no mention of inserting anything. */
  predicate Typed(v: Value, ty: Type, orders: Orders)
    decreases ty
  {
    match ty
    case BoolT => v.Bool?
    case NumT(kind) => v.Num? && InRange(kind, v.n)
    case StringT => v.Text? && LengthOk(|v.text|)
    case SeqT(shape, elem) =>
      v.Many? && LengthOk(|v.elems|) && ((shape.Set? || shape.Map?) ==> Sorted(v.elems, orders(KeyType(elem))))
      && forall i :: 0 <= i < |v.elems| ==> Typed(v.elems[i], elem, orders)
    case PairT(key, value) => v.Pair? && Typed(v.key, key, orders) && Typed(v.value, value, orders)
    case RecordT(_, fields) =>
      v.Many? && |v.elems| == |fields| && forall i :: 0 <= i < |fields| ==> Typed(v.elems[i], fields[i], orders)
  }

  lemma {:induction false} TypedHasType(v: Value, ty: Type, orders: Orders)
    requires AllOrderings(orders) && Typed(v, ty, orders)
    ensures HasType(v, ty, SortedBy(orders))
    decreases ty
  {
    match ty
    case BoolT =>
    case NumT(_) =>
    case StringT =>
    case SeqT(shape, elem) =>
      forall i | 0 <= i < |v.elems|
        ensures HasType(v.elems[i], elem, SortedBy(orders))
      {
        TypedHasType(v.elems[i], elem, orders);
      }
      if shape.Set? || shape.Map? {
        InsertedInOrder(orders(KeyType(elem)), shape.Map?, v.elems);
      }
    case PairT(key, value) =>
      TypedHasType(v.key, key, orders);
      TypedHasType(v.value, value, orders);
    case RecordT(_, fields) =>
      forall i | 0 <= i < |v.elems|
        ensures HasType(v.elems[i], fields[i], SortedBy(orders))
      {
        TypedHasType(v.elems[i], fields[i], orders);
      }
  }

  /**
   Reading inverts writing, for any pairing of byte orders and any orderings of sets and maps, one for each
   type of element or key: wherever the
   encoding of a value stands in a buffer, followed by anything, reading at its position gives the value back
   and moves on by exactly the length of the encoding.
   */
  lemma ReadingInvertsWriting(v: Value, ty: Type, orders: Orders, w: ByteOrder, r: ByteOrder, buf: seq<Byte>, pos: nat)
    requires AllOrderings(orders) && Typed(v, ty, orders) && At(buf, pos, Encode(v, ty, MachineOf(w)))
    ensures Decode(ty, SortedBy(orders), MachineOf(r), buf, pos) == Some((v, pos + |Encode(v, ty, MachineOf(w))|))
  {
    TypedHasType(v, ty, orders);
    ByteOrdersPortable(w, r);
    RoundTrip(v, ty, SortedBy(orders), MachineOf(w), MachineOf(r), buf, pos);
  }
}
