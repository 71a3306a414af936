/** Which byte stands where in what serialize/data_stream.cpp writes, on a machine of either byte order. */
module WireLayout {
  import opened Bytes
  import opened Numbers
  import opened Codec

  /** The `width` bytes from position `at` on are the number, least significant byte first. */
  predicate NumberAt(wire: seq<Byte>, at: nat, width: nat, n: int) {
    at + width <= |wire| && forall i :: 0 <= i < width ==> wire[at + i] == n / Radix(i) % 256
  }

  /** A tag, the tag of a 32-bit integer, and a length. */
  predicate LengthFirst(wire: seq<Byte>, tag: nat, n: nat) {
    6 <= |wire| && wire[0] == tag && wire[1] == 2 && NumberAt(wire, 2, 4, n)
  }

  lemma NumLayout(kind: Kind, n: int, order: ByteOrder)
    ensures var wire := Encode(Num(n), NumT(kind), MachineOf(order));
            |wire| == 1 + kind.width && wire[0] == kind.tag && NumberAt(wire, 1, kind.width, n)
  {
    WireIsLittleEndian(kind, n, order);
  }

  lemma BoolLayout(b: bool, order: ByteOrder)
    ensures Encode(Bool(b), BoolT, MachineOf(order)) == [0, if b then 1 else 0]
  {}

  lemma LengthLayout(ty: Type, n: nat, rest: seq<Byte>, order: ByteOrder)
    ensures var wire := EncodeLength(ty, n, MachineOf(order)) + rest;
            LengthFirst(wire, Tag(ty), n) && |wire| == 6 + |rest| && wire[6..] == rest
  {
    WireIsLittleEndian(INT32, n, order);
    var stored := MachineOf(order).store(INT32, n);
    assert EncodeLength(ty, n, MachineOf(order)) == [Tag(ty), 2] + stored;
    assert forall i :: 0 <= i < 4 ==> ([Tag(ty), 2] + stored + rest)[2 + i] == stored[i];
  }

  /** A string: 9, its length, and its bytes. */
  lemma TextLayout(text: seq<Byte>, order: ByteOrder)
    ensures var wire := Encode(Text(text), StringT, MachineOf(order));
            LengthFirst(wire, 9, |text|) && |wire| == 6 + |text| && wire[6..] == text
  {
    LengthLayout(StringT, |text|, text, order);
  }

  function ContainerTag(shape: Shape): nat {
    match shape
    case Vector => 10
    case List => 11
    case Map => 12
    case Set => 13
  }

  /** The number of bytes of the first `k` parts. */
  function Start(parts: seq<seq<Byte>>, k: nat): nat
    requires k <= |parts|
  {
    if k == 0 then 0 else Start(parts, k - 1) + |parts[k - 1]|
  }

  /** Part `k` stands in the bytes from position `at` on after all parts before it. */
  predicate PartAt(wire: seq<Byte>, at: nat, parts: seq<seq<Byte>>, k: nat)
    requires k < |parts|
  {
    var from, to := at + Start(parts, k), at + Start(parts, k + 1);
    to <= |wire| && wire[from..to] == parts[k]
  }

  /** From position `at` to the end there are just the parts, one after the other. */
  predicate InARow(wire: seq<Byte>, at: nat, parts: seq<seq<Byte>>) {
    && |wire| == at + Start(parts, |parts|)
    && forall k :: 0 <= k < |parts| ==> PartAt(wire, at, parts, k)
  }

  lemma {:induction false} StartOfPrefix(parts: seq<seq<Byte>>, part: seq<Byte>, k: nat)
    requires k <= |parts|
    ensures Start(parts + [part], k) == Start(parts, k)
  {
    if k > 0 { StartOfPrefix(parts, part, k - 1); }
  }

  lemma OneMorePart(wire: seq<Byte>, at: nat, parts: seq<seq<Byte>>, part: seq<Byte>)
    requires InARow(wire, at, parts)
    ensures InARow(wire + part, at, parts + [part])
  {
    var more, n := parts + [part], |parts|;
    StartOfPrefix(parts, part, n);
    forall k | 0 <= k < |more|
      ensures PartAt(wire + part, at, more, k)
    {
      StartOfPrefix(parts, part, k);
      if k < n {
        StartOfPrefix(parts, part, k + 1);
        assert PartAt(wire, at, parts, k);
        var from, to := at + Start(parts, k), at + Start(parts, k + 1);
        assert (wire + part)[from..to] == wire[from..to];
      } else {
        assert (wire + part)[|wire|..|wire| + |part|] == part;
      }
    }
  }

  /** The encodings of the values, each at its type. */
  function Encodings(elems: seq<Value>, types: seq<Type>, m: Machine): (parts: seq<seq<Byte>>)
    requires |elems| == |types|
    ensures |parts| == |elems|
  {
    seq(|elems|, i requires 0 <= i < |elems| => Encode(elems[i], types[i], m))
  }

  lemma {:induction false} ElemRows(head: seq<Byte>, elems: seq<Value>, elem: Type, m: Machine, k: nat)
    requires k <= |elems|
    ensures InARow(head + EncodeElems(elems, elem, m, k), |head|, Encodings(elems[..k], seq(k, i => elem), m))
  {
    if k == 0 {
      assert head + [] == head;
    } else {
      var before := EncodeElems(elems, elem, m, k - 1);
      var parts, last := Encodings(elems[..k - 1], seq(k - 1, i => elem), m), Encode(elems[k - 1], elem, m);
      ElemRows(head, elems, elem, m, k - 1);
      OneMorePart(head + before, |head|, parts, last);
      assert head + before + last == head + (before + last);
      assert Encodings(elems[..k], seq(k, i => elem), m) == parts + [last];
    }
  }

  lemma {:induction false} FieldRows(head: seq<Byte>, elems: seq<Value>, ty: Type, m: Machine, k: nat)
    requires ty.RecordT? && k <= |ty.fields| == |elems|
    ensures InARow(head + EncodeFields(elems, ty, m, k), |head|, Encodings(elems[..k], ty.fields[..k], m))
  {
    if k == 0 {
      assert head + [] == head;
    } else {
      var before := EncodeFields(elems, ty, m, k - 1);
      var parts := Encodings(elems[..k - 1], ty.fields[..k - 1], m);
      var last := Encode(elems[k - 1], ty.fields[k - 1], m);
      FieldRows(head, elems, ty, m, k - 1);
      OneMorePart(head + before, |head|, parts, last);
      assert head + before + last == head + (before + last);
      assert Encodings(elems[..k], ty.fields[..k], m) == parts + [last];
    }
  }

  /** A container: its tag, the number of its elements, and the elements in a row. */
  lemma ContainerLayout(elems: seq<Value>, shape: Shape, elem: Type, order: ByteOrder)
    ensures var wire, m := Encode(Many(elems), SeqT(shape, elem), MachineOf(order)), MachineOf(order);
            && LengthFirst(wire, ContainerTag(shape), |elems|)
            && InARow(wire, 6, Encodings(elems, seq(|elems|, i => elem), m))
  {
    var ty, m := SeqT(shape, elem), MachineOf(order);
    var rows := EncodeElems(elems, elem, m, |elems|);
    LengthLayout(ty, |elems|, rows, order);
    ElemRows(EncodeLength(ty, |elems|, m), elems, elem, m, |elems|);
    assert elems[..|elems|] == elems;
  }

  /** A record: 14, and its fields in a row. */
  lemma RecordLayout(elems: seq<Value>, name: string, fields: seq<Type>, order: ByteOrder)
    requires |elems| == |fields|
    ensures var wire, m := Encode(Many(elems), RecordT(name, fields), MachineOf(order)), MachineOf(order);
            wire != [] && wire[0] == 14 && InARow(wire, 1, Encodings(elems, fields, m))
  {
    var ty, m := RecordT(name, fields), MachineOf(order);
    FieldRows([Tag(ty)], elems, ty, m, |elems|);
    assert elems[..|elems|] == elems && fields[..|elems|] == fields;
  }

  /** An entry of a map: its key and its value in a row. */
  lemma EntryLayout(key: Value, value: Value, keyType: Type, valueType: Type, order: ByteOrder)
    ensures var wire, m := Encode(Pair(key, value), PairT(keyType, valueType), MachineOf(order)), MachineOf(order);
            InARow(wire, 0, [Encode(key, keyType, m), Encode(value, valueType, m)])
  {
    var m := MachineOf(order);
    var first, second := Encode(key, keyType, m), Encode(value, valueType, m);
    OneMorePart([], 0, [], first);
    OneMorePart(first, 0, [first], second);
    assert [] + first == first && [] + [first] == [first] && [first] + [second] == [first, second];
  }
}
