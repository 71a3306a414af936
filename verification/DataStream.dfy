/**
 The class of serialize/data_stream.h: it appends to a growing buffer and reads from a position in it, by the
 loops of the original; proved against the wire format of module Codec.
 */
module DataStreamClass {
  import opened Wrappers
  import opened Bytes
  import opened Numbers
  import opened Codec
  import opened Ordered

  /** The first capacity at least `needed` among a capacity and its doublings, where the doubling of 0 is 1. */
  function Grown(cap: nat, needed: nat): (r: nat)
    ensures needed <= r && cap <= r && (cap < r ==> r == 1 || r < 2 * needed)
    decreases if cap < needed then needed - cap else 0
  {
    if needed <= cap then cap else Grown(if cap == 0 then 1 else 2 * cap, needed)
  }

  /** Inserting one more thing into what was collected so far. */
  function Add(orders: Orders, shape: Shape, elem: Type, elems: seq<Value>, v: Value): seq<Value> {
    if shape.Set? || shape.Map? then Insert(orders(KeyType(elem)), shape.Map?, elems, v) else elems + [v]
  }

  lemma CollectNext(orders: Orders, shape: Shape, elem: Type, elems: seq<Value>, v: Value)
    ensures Collect(SortedBy(orders), shape, elem, elems + [v])
            == Add(orders, shape, elem, Collect(SortedBy(orders), shape, elem, elems), v)
  {
    var all := elems + [v];
    assert all[..|all| - 1] == elems && all[|all| - 1] == v;
  }

  lemma CollectNothing(orders: Orders, shape: Shape, elem: Type)
    ensures Collect(SortedBy(orders), shape, elem, []) == []
  {
    var c := SortedBy(orders);
    assert c.toSet(elem, []) == Inserted(orders(KeyType(elem)), false, []);
    assert c.toMap(elem, []) == Inserted(orders(KeyType(elem)), true, []);
  }

  lemma AppendElem(start: seq<Byte>, elems: seq<Value>, elem: Type, m: Machine, k: nat)
    requires k < |elems|
    ensures start + EncodeElems(elems, elem, m, k) + Encode(elems[k], elem, m)
            == start + EncodeElems(elems, elem, m, k + 1)
  {}

  lemma AppendField(start: seq<Byte>, elems: seq<Value>, ty: Type, m: Machine, k: nat)
    requires ty.RecordT? && k < |elems| == |ty.fields|
    ensures start + EncodeFields(elems, ty, m, k) + Encode(elems[k], ty.fields[k], m)
            == start + EncodeFields(elems, ty, m, k + 1)
  {}

  class DataStream {
    const order: ByteOrder
    const orders: Orders
    var mBuf: seq<Byte>
    var mCap: nat
    var mPos: nat

    ghost predicate Valid()
      reads this
    {
      |mBuf| <= mCap
    }

    ghost function Format(): Machine {
      MachineOf(order)
    }

    constructor (order: ByteOrder, orders: Orders, data: seq<Byte>)
      ensures Valid() && mBuf == data && mPos == 0 && this.order == order && this.orders == orders
    {
      this.order, this.orders := order, orders;
      mBuf, mCap, mPos := data, |data|, 0;
    }

    method Reserve(len: nat)
      requires Valid()
      modifies this`mCap
      ensures Valid() && mCap == Grown(old(mCap), |mBuf| + len)
    {
      var cap := mCap;
      while |mBuf| + len > cap
        invariant mCap <= cap && Grown(cap, |mBuf| + len) == Grown(mCap, |mBuf| + len)
        decreases |mBuf| + len - cap
      {
        cap := if cap == 0 then 1 else cap * 2;
      }
      mCap := cap;
    }

    method WriteRaw(data: seq<Byte>)
      requires Valid()
      modifies this`mBuf, this`mCap
      ensures Valid() && mBuf == old(mBuf) + data
    {
      Reserve(|data|);
      mBuf := mBuf + data;
    }

    method WriteNum(kind: Kind, n: int)
      requires Valid()
      modifies this`mBuf, this`mCap
      ensures Valid() && mBuf == old(mBuf) + EncodeNum(kind, n, Format())
    {
      WriteRaw([kind.tag]);
      var bytes := Memory(n, kind.width, order);
      if order.BigEndian? {
        bytes := Reverse(bytes);
      }
      WriteRaw(bytes);
    }

    method WriteLength(ty: Type, n: nat)
      requires Valid()
      modifies this`mBuf, this`mCap
      ensures Valid() && mBuf == old(mBuf) + EncodeLength(ty, n, Format())
    {
      WriteRaw([Tag(ty)]);
      WriteNum(INT32, n);
    }

    /** Writing appends exactly the encoding of the value. */
    method Write(v: Value, ty: Type)
      requires Valid()
      modifies this`mBuf, this`mCap
      ensures Valid() && mBuf == old(mBuf) + Encode(v, ty, Format())
      decreases ty, 1
    {
      match ty
      case BoolT =>
        if v.Bool? {
          WriteBool(v.b);
        }
      case NumT(kind) =>
        if v.Num? {
          WriteNum(kind, v.n);
        }
      case StringT =>
        if v.Text? {
          WriteText(v.text);
        }
      case SeqT(_, _) =>
        if v.Many? {
          WriteContainer(v.elems, ty);
        }
      case PairT(_, _) =>
        if v.Pair? {
          WriteEntry(v, ty);
        }
      case RecordT(_, fields) =>
        if v.Many? && |v.elems| == |fields| {
          WriteRecord(v.elems, ty);
        }
    }

    method WriteBool(b: bool)
      requires Valid()
      modifies this`mBuf, this`mCap
      ensures Valid() && mBuf == old(mBuf) + EncodeBool(b)
    {
      WriteRaw([Tag(BoolT)]);
      WriteRaw([if b then 1 else 0]);
    }

    method WriteText(text: seq<Byte>)
      requires Valid()
      modifies this`mBuf, this`mCap
      ensures Valid() && mBuf == old(mBuf) + EncodeText(text, Format())
    {
      WriteLength(StringT, |text|);
      WriteRaw(text);
    }

    method WriteContainer(elems: seq<Value>, ty: Type)
      requires Valid() && ty.SeqT?
      modifies this`mBuf, this`mCap
      ensures Valid() && mBuf == old(mBuf) + EncodeSeq(elems, ty, Format())
      decreases ty, 0
    {
      WriteLength(ty, |elems|);
      WriteElems(elems, ty.elem);
    }

    method WriteEntry(v: Value, ty: Type)
      requires Valid() && v.Pair? && ty.PairT?
      modifies this`mBuf, this`mCap
      ensures Valid() && mBuf == old(mBuf) + EncodePair(v, ty, Format())
      decreases ty, 0
    {
      Write(v.key, ty.key);
      Write(v.value, ty.value);
    }

    method WriteRecord(elems: seq<Value>, ty: Type)
      requires Valid() && ty.RecordT? && |elems| == |ty.fields|
      modifies this`mBuf, this`mCap
      ensures Valid() && mBuf == old(mBuf) + EncodeRecord(elems, ty, Format())
      decreases ty, 0, 1
    {
      WriteRaw([Tag(ty)]);
      WriteArgs(elems, ty);
    }

    method WriteElems(elems: seq<Value>, elem: Type)
      requires Valid()
      modifies this`mBuf, this`mCap
      ensures Valid() && mBuf == old(mBuf) + EncodeElems(elems, elem, Format(), |elems|)
      decreases elem, 2
    {
      ghost var start := mBuf;
      var i := 0;
      while i < |elems|
        invariant i <= |elems| && Valid() && mBuf == start + EncodeElems(elems, elem, Format(), i)
      {
        Write(elems[i], elem);
        AppendElem(start, elems, elem, Format(), i);
        i := i + 1;
      }
    }

    method WriteArgs(elems: seq<Value>, ty: Type)
      requires Valid() && ty.RecordT? && |elems| == |ty.fields|
      modifies this`mBuf, this`mCap
      ensures Valid() && mBuf == old(mBuf) + EncodeFields(elems, ty, Format(), |elems|)
      decreases ty, 0, 0
    {
      ghost var start := mBuf;
      var i := 0;
      while i < |elems|
        invariant i <= |elems| && Valid() && mBuf == start + EncodeFields(elems, ty, Format(), i)
      {
        Write(elems[i], ty.fields[i]);
        AppendField(start, elems, ty, Format(), i);
        i := i + 1;
      }
    }

    /** The tag check at the head of every read. */
    method ReadTag(tag: Byte) returns (ok: bool)
      modifies this`mPos
      ensures ok <==> old(mPos) < |mBuf| && mBuf[old(mPos)] == tag
      ensures mPos == if ok then old(mPos) + 1 else old(mPos)
    {
      ok := mPos < |mBuf| && mBuf[mPos] == tag;
      if ok {
        mPos := mPos + 1;
      }
    }

    method ReadNum(kind: Kind) returns (ok: bool, n: int)
      modifies this`mPos
      ensures DecodeNum(kind, Format(), mBuf, old(mPos)).Some? ==>
                ok && DecodeNum(kind, Format(), mBuf, old(mPos)) == Some((n, mPos))
      ensures old(mPos) < |mBuf| && mBuf[old(mPos)] != kind.tag ==> !ok && mPos == old(mPos)
    {
      n := 0;
      ok := ReadTag(kind.tag);
      if !ok {
        return;
      }
      if mPos + kind.width > |mBuf| {
        ok := false;
        return;
      }
      var bytes := mBuf[mPos..mPos + kind.width];
      if order.BigEndian? {
        bytes := Reverse(bytes);
      }
      assert bytes == Normalise(mBuf[old(mPos) + 1..old(mPos) + 1 + kind.width], order);
      n := FromBits(kind, FromMemory(bytes, order));
      mPos := mPos + kind.width;
    }

    /**
     Reading agrees with the wire format wherever it is defined: the value, and the position after it. A tag
     that does not match makes it answer false and, except for a record, stay where it is. The answers of
     nested reads are ignored, as in the original.
     */
    method Read(ty: Type) returns (ok: bool, v: Value)
      modifies this`mPos
      ensures var parsed := Decode(ty, SortedBy(orders), Format(), mBuf, old(mPos));
              parsed.Some? ==> ok && parsed == Some((v, mPos))
      ensures !ty.PairT? && old(mPos) < |mBuf| && mBuf[old(mPos)] != Tag(ty) ==>
                !ok && mPos == if ty.RecordT? then old(mPos) + 1 else old(mPos)
      decreases ty, 1
    {
      match ty
      case BoolT => ok, v := ReadBool();
      case NumT(kind) =>
        var n;
        ok, n := ReadNum(kind);
        v := Num(n);
      case StringT => ok, v := ReadText();
      case SeqT(_, _) => ok, v := ReadContainer(ty);
      case PairT(_, _) =>
        v := ReadEntry(ty);
        ok := true;
      case RecordT(_, _) => ok, v := ReadRecord(ty);
    }

    method ReadBool() returns (ok: bool, v: Value)
      modifies this`mPos
      ensures DecodeBool(mBuf, old(mPos)).Some? ==> ok && DecodeBool(mBuf, old(mPos)) == Some((v, mPos))
      ensures old(mPos) < |mBuf| && mBuf[old(mPos)] != Tag(BoolT) ==> !ok && mPos == old(mPos)
    {
      v := Bool(false);
      ok := ReadTag(Tag(BoolT));
      if ok {
        if mPos >= |mBuf| {
          ok := false;
          return;
        }
        v := Bool(mBuf[mPos] != 0);
        mPos := mPos + 1;
      }
    }

    method ReadText() returns (ok: bool, v: Value)
      modifies this`mPos
      ensures var parsed := DecodeText(Format(), mBuf, old(mPos));
              parsed.Some? ==> ok && parsed == Some((v, mPos))
      ensures old(mPos) < |mBuf| && mBuf[old(mPos)] != Tag(StringT) ==> !ok && mPos == old(mPos)
    {
      v := Text([]);
      ok := ReadTag(Tag(StringT));
      if ok {
        var _, len := ReadNum(INT32);
        if len < 0 || mPos + len > |mBuf| {
          ok := false;
          return;
        }
        v := Text(mBuf[mPos..mPos + len]);
        mPos := mPos + len;
      }
    }

    method ReadContainer(ty: Type) returns (ok: bool, v: Value)
      requires ty.SeqT?
      modifies this`mPos
      ensures var parsed := DecodeSeq(ty, SortedBy(orders), Format(), mBuf, old(mPos));
              parsed.Some? ==> ok && parsed == Some((v, mPos))
      ensures old(mPos) < |mBuf| && mBuf[old(mPos)] != Tag(ty) ==> !ok && mPos == old(mPos)
      decreases ty, 0
    {
      v := Many([]);
      ok := ReadTag(Tag(ty));
      if ok {
        var _, len := ReadNum(INT32);
        var elems := ReadElems(ty.shape, ty.elem, len);
        v := Many(elems);
      }
    }

    method ReadEntry(ty: Type) returns (v: Value)
      requires ty.PairT?
      modifies this`mPos
      ensures var parsed := DecodePair(ty, SortedBy(orders), Format(), mBuf, old(mPos));
              parsed.Some? ==> parsed == Some((v, mPos))
      decreases ty, 0
    {
      var _, key := Read(ty.key);
      var _, value := Read(ty.value);
      v := Pair(key, value);
    }

    method ReadRecord(ty: Type) returns (ok: bool, v: Value)
      requires ty.RecordT?
      modifies this`mPos
      ensures var parsed := DecodeRecord(ty, SortedBy(orders), Format(), mBuf, old(mPos));
              parsed.Some? ==> ok && parsed == Some((v, mPos))
      ensures old(mPos) < |mBuf| && mBuf[old(mPos)] != Tag(ty) ==> !ok && mPos == old(mPos) + 1
      decreases ty, 0, 1
    {
      v := Many([]);
      ok := ReadTag(Tag(ty));
      if !ok {
        mPos := mPos + 1;
        return;
      }
      var elems := ReadArgs(ty);
      v := Many(elems);
    }

    method ReadElems(shape: Shape, elem: Type, len: int) returns (elems: seq<Value>)
      modifies this`mPos
      ensures var raw := DecodeElems(elem, SortedBy(orders), Format(), mBuf, old(mPos), Times(len));
              raw.Some? ==> elems == Collect(SortedBy(orders), shape, elem, raw.value.0) && mPos == raw.value.1
      decreases elem, 2
    {
      ghost var c, start := SortedBy(orders), mPos;
      elems := [];
      CollectNothing(orders, shape, elem);
      var i := 0;
      while i < len
        invariant i <= Times(len)
        invariant var raw := DecodeElems(elem, c, Format(), mBuf, start, i);
                  raw.Some? ==> elems == Collect(c, shape, elem, raw.value.0) && mPos == raw.value.1
      {
        var _, v := Read(elem);
        ghost var raw := DecodeElems(elem, c, Format(), mBuf, start, i);
        if raw.Some? {
          CollectNext(orders, shape, elem, raw.value.0, v);
        }
        elems := Add(orders, shape, elem, elems, v);
        i := i + 1;
      }
    }

    method ReadArgs(ty: Type) returns (elems: seq<Value>)
      requires ty.RecordT?
      modifies this`mPos
      ensures var raw := DecodeFields(ty, SortedBy(orders), Format(), mBuf, old(mPos), |ty.fields|);
              raw.Some? ==> raw == Some((elems, mPos))
      decreases ty, 0, 0
    {
      ghost var start := mPos;
      elems := [];
      var i := 0;
      while i < |ty.fields|
        invariant i <= |ty.fields|
        invariant var raw := DecodeFields(ty, SortedBy(orders), Format(), mBuf, start, i);
                  raw.Some? ==> raw == Some((elems, mPos))
      {
        var _, v := Read(ty.fields[i]);
        elems := elems + [v];
        i := i + 1;
      }
    }
  }
}
