/**
 The wire format of serialize/data_stream.cpp, serialize/data_stream.h and serialize/serializable.h: a printer
 and a parser for tagged values of nested types, for any byte order of the writing and the reading machine.
 */
module Codec {
  import opened Wrappers
  import opened Bytes
  import opened Numbers

  datatype Shape = Vector | List | Map | Set

  /**
   What can be written. RecordT stands for a class with SERIALIZE over its fields, told from other classes by
   its name; PairT, a key and its value without a tag of their own, is what a map consists of.
   */
  datatype Type =
    | BoolT
    | NumT(kind: Kind)
    | StringT
    | SeqT(shape: Shape, elem: Type)
    | PairT(key: Type, value: Type)
    | RecordT(name: string, fields: seq<Type>)

  /**
   Values. A char, an integer, or the bits of a float is a Num; vectors, lists, sets and maps in iteration
   order, and records, are Many.
   */
  datatype Value =
    | Bool(b: bool)
    | Num(n: int)
    | Text(text: seq<Byte>)
    | Many(elems: seq<Value>)
    | Pair(key: Value, value: Value)

  /** What a set or a map of things of a type holds after they were inserted one after the other. */
  datatype Containers = Containers(toSet: (Type, seq<Value>) -> seq<Value>, toMap: (Type, seq<Value>) -> seq<Value>)

  /** What a container holds after push_back, insert or assignment of things one after the other. */
  function Collect(c: Containers, shape: Shape, elem: Type, elems: seq<Value>): seq<Value> {
    match shape
    case Vector => elems
    case List => elems
    case Map => c.toMap(elem, elems)
    case Set => c.toSet(elem, elems)
  }

  function Tag(ty: Type): Byte {
    match ty
    case BoolT => 0
    case NumT(kind) => kind.tag
    case StringT => 9
    case SeqT(shape, _) => ShapeTag(shape)
    case PairT(key, _) => Tag(key)
    case RecordT(_, _) => 14
  }

  function ShapeTag(shape: Shape): Byte {
    match shape
    case Vector => 10
    case List => 11
    case Map => 12
    case Set => 13
  }

  // ----- well-typed values

  /** Lengths are written as 32-bit integers. */
  predicate LengthOk(n: nat) {
    n < 0x8000_0000
  }

  predicate HasType(v: Value, ty: Type, c: Containers)
    decreases ty, 2
  {
    match ty
    case BoolT => v.Bool?
    case NumT(kind) => v.Num? && InRange(kind, v.n)
    case StringT => v.Text? && LengthOk(|v.text|)
    case SeqT(shape, elem) =>
      v.Many? && LengthOk(|v.elems|) && Collect(c, shape, elem, v.elems) == v.elems && ElemsHaveType(v.elems, elem, c)
    case PairT(key, value) => v.Pair? && HasType(v.key, key, c) && HasType(v.value, value, c)
    case RecordT(_, _) =>
      v.Many? && FieldsHaveType(v.elems, ty, c)
  }

  predicate ElemsHaveType(elems: seq<Value>, elem: Type, c: Containers)
    decreases elem, 3
  {
    forall i :: 0 <= i < |elems| ==> HasType(elems[i], elem, c)
  }

  predicate FieldsHaveType(elems: seq<Value>, ty: Type, c: Containers)
    requires ty.RecordT?
    decreases ty, 0
  {
    |elems| == |ty.fields| && forall i :: 0 <= i < |elems| ==> HasType(elems[i], ty.fields[i], c)
  }

  // ----- writing

  function EncodeNum(kind: Kind, n: int, m: Machine): seq<Byte> {
    [kind.tag] + m.store(kind, n)
  }

  /** A tag and a length. */
  function EncodeLength(ty: Type, n: nat, m: Machine): seq<Byte> {
    [Tag(ty)] + EncodeNum(INT32, n, m)
  }

  /** The bytes of a value; nothing for a value that is not of the type. */
  function Encode(v: Value, ty: Type, m: Machine): seq<Byte>
    decreases ty, 1, 0
  {
    match ty
    case BoolT => if v.Bool? then EncodeBool(v.b) else []
    case NumT(kind) => if v.Num? then EncodeNum(kind, v.n, m) else []
    case StringT => if v.Text? then EncodeText(v.text, m) else []
    case SeqT(_, _) => if v.Many? then EncodeSeq(v.elems, ty, m) else []
    case PairT(_, _) => if v.Pair? then EncodePair(v, ty, m) else []
    case RecordT(_, _) => if v.Many? && |v.elems| == |ty.fields| then EncodeRecord(v.elems, ty, m) else []
  }

  function EncodeBool(b: bool): seq<Byte> {
    [Tag(BoolT), if b then 1 else 0]
  }

  function EncodeText(text: seq<Byte>, m: Machine): seq<Byte> {
    EncodeLength(StringT, |text|, m) + text
  }

  function EncodeSeq(elems: seq<Value>, ty: Type, m: Machine): seq<Byte>
    requires ty.SeqT?
    decreases ty, 0
  {
    EncodeLength(ty, |elems|, m) + EncodeElems(elems, ty.elem, m, |elems|)
  }

  function EncodePair(v: Value, ty: Type, m: Machine): seq<Byte>
    requires ty.PairT? && v.Pair?
    decreases ty, 0
  {
    Encode(v.key, ty.key, m) + Encode(v.value, ty.value, m)
  }

  function EncodeRecord(elems: seq<Value>, ty: Type, m: Machine): seq<Byte>
    requires ty.RecordT? && |elems| == |ty.fields|
    decreases ty, 0, |elems| + 1
  {
    [Tag(ty)] + EncodeFields(elems, ty, m, |elems|)
  }

  /** The first `k` elements. */
  function EncodeElems(elems: seq<Value>, elem: Type, m: Machine, k: nat): seq<Byte>
    requires k <= |elems|
    decreases elem, 2, k
  {
    if k == 0 then [] else EncodeElems(elems, elem, m, k - 1) + Encode(elems[k - 1], elem, m)
  }

  function EncodeFields(elems: seq<Value>, ty: Type, m: Machine, k: nat): seq<Byte>
    requires ty.RecordT? && k <= |ty.fields| == |elems|
    decreases ty, 0, k
  {
    if k == 0 then [] else EncodeFields(elems, ty, m, k - 1) + Encode(elems[k - 1], ty.fields[k - 1], m)
  }

  // ----- reading

  /** A value read, and the position after it; None where a tag does not match or the buffer ends too early. */
  type Parsed = Option<(Value, nat)>

  function DecodeNum(kind: Kind, m: Machine, buf: seq<Byte>, pos: nat): Option<(int, nat)> {
    var end := pos + 1 + kind.width;
    if end <= |buf| && buf[pos] == kind.tag then Some((m.load(kind, buf[pos + 1..end]), end)) else None
  }

  /** A tag and a length. */
  function DecodeLength(ty: Type, m: Machine, buf: seq<Byte>, pos: nat): Option<(int, nat)> {
    if pos < |buf| && buf[pos] == Tag(ty) then DecodeNum(INT32, m, buf, pos + 1) else None
  }

  /** How often an element loop runs: a negative length makes it do nothing. */
  function Times(len: int): nat {
    if len < 0 then 0 else len
  }

  function Decode(ty: Type, c: Containers, m: Machine, buf: seq<Byte>, pos: nat): Parsed
    decreases ty, 3
  {
    match ty
    case BoolT => DecodeBool(buf, pos)
    case NumT(kind) => AsNum(DecodeNum(kind, m, buf, pos))
    case StringT => DecodeText(m, buf, pos)
    case SeqT(_, _) => DecodeSeq(ty, c, m, buf, pos)
    case PairT(_, _) => DecodePair(ty, c, m, buf, pos)
    case RecordT(_, _) => DecodeRecord(ty, c, m, buf, pos)
  }

  function AsNum(r: Option<(int, nat)>): Parsed {
    match r
    case None => None
    case Some((n, end)) => Some((Num(n), end))
  }

  function AsMany(r: Option<(seq<Value>, nat)>): Parsed {
    match r
    case None => None
    case Some((elems, end)) => Some((Many(elems), end))
  }

  function AsContainer(shape: Shape, elem: Type, c: Containers, r: Option<(seq<Value>, nat)>): Parsed {
    match r
    case None => None
    case Some((elems, end)) => Some((Many(Collect(c, shape, elem, elems)), end))
  }

  function DecodeBool(buf: seq<Byte>, pos: nat): Parsed {
    if pos + 1 < |buf| && buf[pos] == Tag(BoolT) then Some((Bool(buf[pos + 1] != 0), pos + 2)) else None
  }

  function DecodeText(m: Machine, buf: seq<Byte>, pos: nat): Parsed {
    match DecodeLength(StringT, m, buf, pos)
    case None => None
    case Some((len, next)) =>
      if 0 <= len && next + len <= |buf| then Some((Text(buf[next..next + len]), next + len)) else None
  }

  function DecodeSeq(ty: Type, c: Containers, m: Machine, buf: seq<Byte>, pos: nat): Parsed
    requires ty.SeqT?
    decreases ty, 0
  {
    match DecodeLength(ty, m, buf, pos)
    case None => None
    case Some((len, next)) => AsContainer(ty.shape, ty.elem, c, DecodeElems(ty.elem, c, m, buf, next, Times(len)))
  }

  function DecodePair(ty: Type, c: Containers, m: Machine, buf: seq<Byte>, pos: nat): Parsed
    requires ty.PairT?
    decreases ty, 0
  {
    match Decode(ty.key, c, m, buf, pos)
    case None => None
    case Some((key, mid)) =>
      match Decode(ty.value, c, m, buf, mid)
      case None => None
      case Some((value, end)) => Some((Pair(key, value), end))
  }

  function DecodeRecord(ty: Type, c: Containers, m: Machine, buf: seq<Byte>, pos: nat): Parsed
    requires ty.RecordT?
    decreases ty, 1
  {
    if pos < |buf| && buf[pos] == Tag(ty) then AsMany(DecodeFields(ty, c, m, buf, pos + 1, |ty.fields|)) else None
  }

  /** The `n` things an element loop reads, and where it gets to. */
  function DecodeElems(
    elem: Type, c: Containers, m: Machine, buf: seq<Byte>, pos: nat, n: nat): Option<(seq<Value>, nat)>
    decreases elem, 4, n
  {
    if n == 0 then Some(([], pos))
    else
      match DecodeElems(elem, c, m, buf, pos, n - 1)
      case None => None
      case Some((elems, mid)) =>
        match Decode(elem, c, m, buf, mid)
        case None => None
        case Some((v, next)) => Some((elems + [v], next))
  }

  function DecodeFields(
    ty: Type, c: Containers, m: Machine, buf: seq<Byte>, pos: nat, n: nat): (r: Option<(seq<Value>, nat)>)
    requires ty.RecordT? && n <= |ty.fields|
    decreases ty, 0, n
  {
    if n == 0 then Some(([], pos))
    else
      match DecodeFields(ty, c, m, buf, pos, n - 1)
      case None => None
      case Some((elems, mid)) =>
        match Decode(ty.fields[n - 1], c, m, buf, mid)
        case None => None
        case Some((v, next)) => Some((elems + [v], next))
  }

  // ----- reading inverts writing

  /** The bytes stand in the buffer at a position. */
  predicate At(buf: seq<Byte>, pos: nat, bytes: seq<Byte>) {
    pos + |bytes| <= |buf| && buf[pos..pos + |bytes|] == bytes
  }

  lemma AtSplit(buf: seq<Byte>, pos: nat, a: seq<Byte>, b: seq<Byte>)
    requires At(buf, pos, a + b)
    ensures At(buf, pos, a) && At(buf, pos + |a|, b)
  {
    var all := buf[pos..pos + |a + b|];
    assert buf[pos..pos + |a|] == all[..|a|];
    assert buf[pos + |a|..pos + |a| + |b|] == all[|a|..];
  }

  lemma NumRoundTrip(kind: Kind, n: int, w: Machine, r: Machine, buf: seq<Byte>, pos: nat)
    requires Portable(w, r) && InRange(kind, n) && At(buf, pos, EncodeNum(kind, n, w))
    ensures DecodeNum(kind, r, buf, pos) == Some((n, pos + |EncodeNum(kind, n, w)|))
  {
    var bytes := w.store(kind, n);
    AtSplit(buf, pos, [kind.tag], bytes);
    assert buf[pos..pos + 1][0] == kind.tag && buf[pos + 1..pos + 1 + kind.width] == bytes;
  }

  /** A string or a container is a tag, a length and the rest. */
  lemma LengthRoundTrip(ty: Type, n: nat, w: Machine, r: Machine, buf: seq<Byte>, pos: nat, rest: seq<Byte>)
    requires Portable(w, r) && LengthOk(n) && At(buf, pos, EncodeLength(ty, n, w) + rest)
    ensures |EncodeLength(ty, n, w)| == 6
    ensures DecodeLength(ty, r, buf, pos) == Some((n, pos + 6)) && At(buf, pos + 6, rest)
  {
    var length := EncodeNum(INT32, n, w);
    AtSplit(buf, pos, [Tag(ty)] + length, rest);
    AtSplit(buf, pos, [Tag(ty)], length);
    assert buf[pos..pos + 1][0] == Tag(ty);
    assert Radix(4) == 0x1_0000_0000 && InRange(INT32, n);
    NumRoundTrip(INT32, n, w, r, buf, pos + 1);
  }

  /**
   Reading inverts writing: wherever the encoding of a value stands in a buffer, reading at that position
   gives the value back and moves on by exactly the length of the encoding, for every nested type, every
   ordering of sets and maps, and any byte orders of the writer and the reader.
   */
  lemma {:induction false} RoundTrip(
    v: Value, ty: Type, c: Containers, w: Machine, r: Machine, buf: seq<Byte>, pos: nat)
    requires Portable(w, r) && HasType(v, ty, c) && At(buf, pos, Encode(v, ty, w))
    ensures Decode(ty, c, r, buf, pos) == Some((v, pos + |Encode(v, ty, w)|))
    decreases ty, 1, 0
  {
    match ty
    case BoolT => BoolRoundTrip(v.b, buf, pos);
    case NumT(kind) => NumRoundTrip(kind, v.n, w, r, buf, pos);
    case StringT => TextRoundTrip(v.text, w, r, buf, pos);
    case SeqT(_, _) => SeqRoundTrip(v.elems, ty, c, w, r, buf, pos);
    case PairT(_, _) => PairRoundTrip(v, ty, c, w, r, buf, pos);
    case RecordT(_, _) => RecordRoundTrip(v.elems, ty, c, w, r, buf, pos);
  }

  lemma BoolRoundTrip(b: bool, buf: seq<Byte>, pos: nat)
    requires At(buf, pos, EncodeBool(b))
    ensures DecodeBool(buf, pos) == Some((Bool(b), pos + |EncodeBool(b)|))
  {
    var bytes := buf[pos..pos + 2];
    assert bytes[0] == Tag(BoolT) && bytes[1] == if b then 1 else 0;
  }

  lemma TextRoundTrip(text: seq<Byte>, w: Machine, r: Machine, buf: seq<Byte>, pos: nat)
    requires Portable(w, r) && LengthOk(|text|) && At(buf, pos, EncodeText(text, w))
    ensures DecodeText(r, buf, pos) == Some((Text(text), pos + |EncodeText(text, w)|))
  {
    LengthRoundTrip(StringT, |text|, w, r, buf, pos, text);
  }

  lemma SeqRoundTrip(elems: seq<Value>, ty: Type, c: Containers, w: Machine, r: Machine, buf: seq<Byte>, pos: nat)
    requires Portable(w, r) && ty.SeqT? && LengthOk(|elems|) && Collect(c, ty.shape, ty.elem, elems) == elems
    requires ElemsHaveType(elems, ty.elem, c) && At(buf, pos, EncodeSeq(elems, ty, w))
    ensures DecodeSeq(ty, c, r, buf, pos) == Some((Many(elems), pos + |EncodeSeq(elems, ty, w)|))
    decreases ty, 0, |elems| + 1
  {
    LengthRoundTrip(ty, |elems|, w, r, buf, pos, EncodeElems(elems, ty.elem, w, |elems|));
    ElemsRoundTrip(elems, ty.elem, c, w, r, buf, pos + 6, |elems|);
    assert elems[..|elems|] == elems;
  }

  lemma {:induction false} ElemsRoundTrip(
    elems: seq<Value>, elem: Type, c: Containers, w: Machine, r: Machine, buf: seq<Byte>, pos: nat, k: nat)
    requires Portable(w, r) && ElemsHaveType(elems, elem, c)
    requires k <= |elems| && At(buf, pos, EncodeElems(elems, elem, w, k))
    ensures DecodeElems(elem, c, r, buf, pos, k) == Some((elems[..k], pos + |EncodeElems(elems, elem, w, k)|))
    decreases elem, 2, k
  {
    if k > 0 {
      assert elems[..k] == elems[..k - 1] + [elems[k - 1]];
      LastElem(elems, elem, c, w, r, buf, pos, k);
      ElemsRoundTrip(elems, elem, c, w, r, buf, pos, k - 1);
    }
  }

  /** The last of the elements written is read where the others end. */
  lemma LastElem(
    elems: seq<Value>, elem: Type, c: Containers, w: Machine, r: Machine, buf: seq<Byte>, pos: nat, k: nat)
    requires Portable(w, r) && ElemsHaveType(elems, elem, c)
    requires 0 < k <= |elems| && At(buf, pos, EncodeElems(elems, elem, w, k))
    ensures At(buf, pos, EncodeElems(elems, elem, w, k - 1))
    ensures Decode(elem, c, r, buf, pos + |EncodeElems(elems, elem, w, k - 1)|)
            == Some((elems[k - 1], pos + |EncodeElems(elems, elem, w, k)|))
    decreases elem, 2, 0
  {
    var before := EncodeElems(elems, elem, w, k - 1);
    AtSplit(buf, pos, before, Encode(elems[k - 1], elem, w));
    RoundTrip(elems[k - 1], elem, c, w, r, buf, pos + |before|);
  }

  lemma PairRoundTrip(v: Value, ty: Type, c: Containers, w: Machine, r: Machine, buf: seq<Byte>, pos: nat)
    requires Portable(w, r) && ty.PairT? && v.Pair? && HasType(v.key, ty.key, c) && HasType(v.value, ty.value, c)
    requires At(buf, pos, EncodePair(v, ty, w))
    ensures DecodePair(ty, c, r, buf, pos) == Some((v, pos + |EncodePair(v, ty, w)|))
    decreases ty, 0, 0
  {
    var first := Encode(v.key, ty.key, w);
    AtSplit(buf, pos, first, Encode(v.value, ty.value, w));
    RoundTrip(v.key, ty.key, c, w, r, buf, pos);
    RoundTrip(v.value, ty.value, c, w, r, buf, pos + |first|);
  }

  lemma RecordRoundTrip(elems: seq<Value>, ty: Type, c: Containers, w: Machine, r: Machine, buf: seq<Byte>, pos: nat)
    requires Portable(w, r) && ty.RecordT? && FieldsHaveType(elems, ty, c) && At(buf, pos, EncodeRecord(elems, ty, w))
    ensures DecodeRecord(ty, c, r, buf, pos) == Some((Many(elems), pos + |EncodeRecord(elems, ty, w)|))
    decreases ty, 0, |elems| + 1
  {
    AtSplit(buf, pos, [Tag(ty)], EncodeFields(elems, ty, w, |elems|));
    assert buf[pos..pos + 1][0] == Tag(ty);
    FieldsRoundTrip(elems, ty, c, w, r, buf, pos + 1, |elems|);
    assert elems[..|elems|] == elems;
  }

  lemma {:induction false} FieldsRoundTrip(
    elems: seq<Value>, ty: Type, c: Containers, w: Machine, r: Machine, buf: seq<Byte>, pos: nat, k: nat)
    requires Portable(w, r) && ty.RecordT? && FieldsHaveType(elems, ty, c) && k <= |elems|
    requires At(buf, pos, EncodeFields(elems, ty, w, k))
    ensures DecodeFields(ty, c, r, buf, pos, k) == Some((elems[..k], pos + |EncodeFields(elems, ty, w, k)|))
    decreases ty, 0, k
  {
    if k > 0 {
      var before, last := EncodeFields(elems, ty, w, k - 1), Encode(elems[k - 1], ty.fields[k - 1], w);
      AtSplit(buf, pos, before, last);
      FieldsRoundTrip(elems, ty, c, w, r, buf, pos, k - 1);
      RoundTrip(elems[k - 1], ty.fields[k - 1], c, w, r, buf, pos + |before|);
      assert elems[..k] == elems[..k - 1] + [elems[k - 1]];
    }
  }

  // ----- reading at another type

  /** The types a program can read and write by themselves. */
  predicate Supported(ty: Type) {
    match ty
    case NumT(kind) => kind in [CHAR, INT32, INT64, UINT32, UINT64, FLOAT, DOUBLE]
    case PairT(_, _) => false
    case _ => true
  }

  /** The same kind of number or container, whatever its elements are. */
  predicate SameHead(a: Type, b: Type) {
    match a
    case BoolT => b.BoolT?
    case NumT(kind) => b.NumT? && b.kind == kind
    case StringT => b.StringT?
    case SeqT(shape, _) => b.SeqT? && b.shape == shape
    case PairT(_, _) => b.PairT?
    case RecordT(_, _) => b.RecordT?
  }

  /** Different kinds of types have different tags. */
  lemma TagsTellTypes(a: Type, b: Type)
    requires Supported(a) && Supported(b)
    ensures Tag(a) == Tag(b) <==> SameHead(a, b)
  {}

  lemma TagComesFirst(v: Value, ty: Type, c: Containers, w: Machine)
    requires HasType(v, ty, c) && Supported(ty)
    ensures |Encode(v, ty, w)| > 0 && Encode(v, ty, w)[0] == Tag(ty)
  {}

  lemma OtherTagIsRejected(ty: Type, c: Containers, r: Machine, buf: seq<Byte>, pos: nat)
    requires Supported(ty) && pos < |buf| && buf[pos] != Tag(ty)
    ensures Decode(ty, c, r, buf, pos) == None
  {}

  /** A value written at one type is not read at another kind of type, by any machine. */
  lemma WrongTypeIsRejected(
    v: Value, ty: Type, other: Type, c: Containers, w: Machine, r: Machine, buf: seq<Byte>, pos: nat)
    requires HasType(v, ty, c) && Supported(ty) && Supported(other) && !SameHead(ty, other)
    requires At(buf, pos, Encode(v, ty, w))
    ensures Decode(other, c, r, buf, pos) == None
  {
    TagComesFirst(v, ty, c, w);
    TagsTellTypes(ty, other);
    var bytes := Encode(v, ty, w);
    assert buf[pos..pos + |bytes|][0] == bytes[0];
    OtherTagIsRejected(other, c, r, buf, pos);
  }

  /** At a fixed type no encoding is a proper prefix of another, and different values have different encodings. */
  lemma PrefixFree(v1: Value, v2: Value, ty: Type, c: Containers, w1: Machine, w2: Machine, r: Machine)
    requires Portable(w1, r) && Portable(w2, r) && HasType(v1, ty, c) && HasType(v2, ty, c)
    requires Encode(v1, ty, w1) <= Encode(v2, ty, w2)
    ensures v1 == v2 && Encode(v1, ty, w1) == Encode(v2, ty, w2)
  {
    var long := Encode(v2, ty, w2);
    RoundTrip(v1, ty, c, w1, r, long, 0);
    RoundTrip(v2, ty, c, w2, r, long, 0);
  }

  /** One write: a value and the type it is written at. */
  datatype Item = Item(value: Value, ty: Type)

  predicate ItemsOk(items: seq<Item>, c: Containers) {
    forall i :: 0 <= i < |items| ==> HasType(items[i].value, items[i].ty, c)
  }

  /** The first `k` of a sequence of writes. */
  function EncodeAll(items: seq<Item>, m: Machine, k: nat): seq<Byte>
    requires k <= |items|
  {
    if k == 0 then [] else EncodeAll(items, m, k - 1) + Encode(items[k - 1].value, items[k - 1].ty, m)
  }

  /** Reading the types of a sequence of writes one after the other. */
  function DecodeAll(types: seq<Type>, c: Containers, m: Machine, buf: seq<Byte>, pos: nat): Option<(seq<Value>, nat)> {
    if types == [] then Some(([], pos))
    else
      match DecodeAll(types[..|types| - 1], c, m, buf, pos)
      case None => None
      case Some((values, mid)) =>
        match Decode(types[|types| - 1], c, m, buf, mid)
        case None => None
        case Some((v, end)) => Some((values + [v], end))
  }

  function Types(items: seq<Item>): seq<Type> {
    seq(|items|, i requires 0 <= i < |items| => items[i].ty)
  }

  function Values(items: seq<Item>): seq<Value> {
    seq(|items|, i requires 0 <= i < |items| => items[i].value)
  }

  /** Any sequence of writes, followed by anything, reads back in order. */
  lemma {:induction false} SequenceRoundTrip(
    items: seq<Item>, c: Containers, w: Machine, r: Machine, buf: seq<Byte>, pos: nat, k: nat)
    requires Portable(w, r) && ItemsOk(items, c) && k <= |items| && At(buf, pos, EncodeAll(items, w, k))
    ensures DecodeAll(Types(items[..k]), c, r, buf, pos) == Some((Values(items[..k]), pos + |EncodeAll(items, w, k)|))
  {
    if k == 0 {
      assert Types(items[..k]) == [] && Values(items[..k]) == [];
    } else {
      var before, last := EncodeAll(items, w, k - 1), items[k - 1];
      AtSplit(buf, pos, before, Encode(last.value, last.ty, w));
      SequenceRoundTrip(items, c, w, r, buf, pos, k - 1);
      RoundTrip(last.value, last.ty, c, w, r, buf, pos + |before|);
      var types := Types(items[..k]);
      assert types[..k - 1] == Types(items[..k - 1]) && types[k - 1] == last.ty;
      assert Values(items[..k]) == Values(items[..k - 1]) + [last.value];
    }
  }
}
