/** Numbers in memory and on the wire. */
module Numbers {
  import opened Bytes
  import Modular

  /** The kinds of number: a tag, a size in bytes, and whether the highest bit is a sign. */
  datatype Kind = Kind(tag: Byte, width: nat, signed: bool)

  const CHAR: Kind := Kind(1, 1, false)
  const INT32: Kind := Kind(2, 4, true)
  const INT64: Kind := Kind(3, 8, true)
  const UINT32: Kind := Kind(4, 4, false)
  const UINT64: Kind := Kind(5, 8, false)
  const FLOAT: Kind := Kind(6, 4, false)
  const DOUBLE: Kind := Kind(7, 8, false)

  /** What a machine appends to the stream for a number, and the number it makes of bytes from the stream. */
  datatype Machine = Machine(store: (Kind, int) -> seq<Byte>, load: (Kind, seq<Byte>) -> int)

  predicate InRange(kind: Kind, n: int) {
    var p := Radix(kind.width);
    if kind.signed then 0 <= 2 * n + p < 2 * p else 0 <= n < p
  }

  /** One machine reads the numbers another has written. */
  ghost predicate Portable(w: Machine, r: Machine) {
    forall kind: Kind, n: int ::
      InRange(kind, n) ==> |w.store(kind, n)| == kind.width && r.load(kind, w.store(kind, n)) == n
  }

  datatype ByteOrder = BigEndian | LittleEndian

  function Radix(width: nat): (p: nat)
    ensures 0 < p
  {
    if width == 0 then 1 else 256 * Radix(width - 1)
  }

  /** Two's complement, least significant byte first; only the low-order bytes of a number that is too large. */
  function Little(n: int, width: nat): (bytes: seq<Byte>)
    ensures |bytes| == width
    decreases width, n
  {
    if width == 0 then [] else [n % 256] + Little(n / 256, width - 1)
  }

  function FromLittle(bytes: seq<Byte>): nat {
    if bytes == [] then 0 else bytes[0] + 256 * FromLittle(bytes[1..])
  }

  /** The number a bit pattern stands for. */
  function FromBits(kind: Kind, bits: nat): int {
    var p := Radix(kind.width);
    if kind.signed && 2 * bits >= p then bits - p else bits
  }

  function Reverse(bytes: seq<Byte>): (r: seq<Byte>)
    ensures |r| == |bytes|
  {
    if bytes == [] then [] else Reverse(bytes[1..]) + [bytes[0]]
  }

  /** How a machine of the given byte order holds a number in memory. */
  function Memory(n: int, width: nat, order: ByteOrder): (bytes: seq<Byte>)
    ensures |bytes| == width
  {
    if order.LittleEndian? then Little(n, width) else Reverse(Little(n, width))
  }

  function FromMemory(bytes: seq<Byte>, order: ByteOrder): nat {
    if order.LittleEndian? then FromLittle(bytes) else FromLittle(Reverse(bytes))
  }

  /** A big-endian machine reverses the bytes of a number on the way out and on the way in. */
  function Normalise(bytes: seq<Byte>, order: ByteOrder): (r: seq<Byte>)
    ensures |r| == |bytes|
  {
    if order.BigEndian? then Reverse(bytes) else bytes
  }

  function MachineOf(order: ByteOrder): Machine {
    Machine((kind: Kind, n: int) => Normalise(Memory(n, kind.width, order), order),
            (kind: Kind, bytes: seq<Byte>) => FromBits(kind, FromMemory(Normalise(bytes, order), order)))
  }

  /** The kinds are those of the C++ types: their tags, sizes and ranges. */
  lemma KindsOfNumbers(n: int)
    ensures InRange(CHAR, n) <==> 0 <= n < 0x100
    ensures InRange(INT32, n) <==> -0x8000_0000 <= n < 0x8000_0000
    ensures InRange(UINT32, n) <==> 0 <= n < 0x1_0000_0000
    ensures InRange(INT64, n) <==> -0x8000_0000_0000_0000 <= n < 0x8000_0000_0000_0000
    ensures InRange(UINT64, n) <==> 0 <= n < 0x1_0000_0000_0000_0000
    ensures FLOAT.width == 4 && DOUBLE.width == 8 && !FLOAT.signed && !DOUBLE.signed
    ensures [CHAR.tag, INT32.tag, INT64.tag, UINT32.tag, UINT64.tag, FLOAT.tag, DOUBLE.tag] == [1, 2, 3, 4, 5, 6, 7]
  {
    assert Radix(1) == 0x100 && Radix(2) == 0x1_0000;
    assert Radix(4) == 256 * (256 * Radix(2));
    assert Radix(6) == 256 * (256 * Radix(4));
    assert Radix(8) == 256 * (256 * Radix(6));
  }

  /** Writing the bytes of a number and putting them together again gives its bit pattern. */
  lemma {:induction false} FromLittleInverts(n: int, width: nat)
    ensures FromLittle(Little(n, width)) == n % Radix(width)
    decreases width
  {
    if width == 0 {
      Modular.QuotientUnique(n, n, 0, 1);
    } else {
      FromLittleInverts(n / 256, width - 1);
      assert Little(n, width)[1..] == Little(n / 256, width - 1);
      DigitByDigit(n, Radix(width - 1));
    }
  }

  lemma DigitByDigit(n: int, p: nat)
    requires 0 < p
    ensures n % 256 + 256 * (n / 256 % p) == n % (256 * p)
  {
    var quotient, digit := n / 256, n % 256;
    var high, mid := quotient / p, quotient % p;
    assert quotient == p * high + mid && 0 <= mid < p;
    assert 0 <= digit < 256;
    assert n == high * (256 * p) + (digit + 256 * mid) by {
      assert 256 * (p * high) == high * (256 * p);
    }
    Modular.QuotientUnique(n, high, digit + 256 * mid, 256 * p);
  }

  lemma {:induction false} ReverseSnoc(bytes: seq<Byte>, x: Byte)
    ensures Reverse(bytes + [x]) == [x] + Reverse(bytes)
    decreases |bytes|
  {
    if bytes == [] {
      assert bytes + [x] == [x];
    } else {
      assert (bytes + [x])[1..] == bytes[1..] + [x];
      ReverseSnoc(bytes[1..], x);
    }
  }

  lemma {:induction false} ReverseTwice(bytes: seq<Byte>)
    ensures Reverse(Reverse(bytes)) == bytes
    decreases |bytes|
  {
    if bytes != [] {
      ReverseSnoc(Reverse(bytes[1..]), bytes[0]);
      ReverseTwice(bytes[1..]);
    }
  }

  lemma {:induction false} ReverseAt(bytes: seq<Byte>, i: nat)
    requires i < |bytes|
    ensures Reverse(bytes)[i] == bytes[|bytes| - 1 - i]
    decreases |bytes|
  {
    var rest := bytes[1..];
    if i < |rest| {
      ReverseAt(rest, i);
      assert rest[|rest| - 1 - i] == bytes[|bytes| - 1 - i];
    }
  }

  /** Dividing twice is dividing by the product. */
  lemma DivideTwice(n: int, p: nat)
    requires 0 < p
    ensures n / 256 / p == n / (256 * p)
  {
    var q := n / 256;
    assert q == p * (q / p) + q % p && n == 256 * q + n % 256;
    assert 256 * (p * (q / p)) == (q / p) * (256 * p);
    Modular.QuotientUnique(n, q / p, 256 * (q % p) + n % 256, 256 * p);
  }

  lemma {:induction false} LittleAt(n: int, width: nat, i: nat)
    requires i < width
    ensures Little(n, width)[i] == n / Radix(i) % 256
    decreases width
  {
    if i > 0 {
      LittleAt(n / 256, width - 1, i - 1);
      DivideTwice(n, Radix(i - 1));
    }
  }

  /** A little-endian machine holds the least significant byte first, a big-endian one the most significant. */
  lemma MemoryAt(n: int, width: nat, order: ByteOrder, i: nat)
    requires i < width
    ensures Memory(n, width, order)[i] == n / Radix(if order.LittleEndian? then i else width - 1 - i) % 256
  {
    LittleAt(n, width, if order.LittleEndian? then i else width - 1 - i);
    ReverseAt(Little(n, width), i);
  }

  lemma Normalised(n: int, width: nat, order: ByteOrder)
    ensures Normalise(Memory(n, width, order), order) == Little(n, width)
  {
    ReverseTwice(Little(n, width));
  }

  /**
   On the wire the i-th byte of a number is its i-th digit to the base 256, of a negative number that of its two's
   complement, whatever machine wrote it.
   */
  lemma WireIsLittleEndian(kind: Kind, n: int, order: ByteOrder)
    ensures var wire := MachineOf(order).store(kind, n);
            |wire| == kind.width && forall i :: 0 <= i < kind.width ==> wire[i] == n / Radix(i) % 256
  {
    Normalised(n, kind.width, order);
    forall i | 0 <= i < kind.width
      ensures Little(n, kind.width)[i] == n / Radix(i) % 256
    {
      LittleAt(n, kind.width, i);
    }
  }

  lemma FromMemoryNormalised(bytes: seq<Byte>, order: ByteOrder)
    ensures FromMemory(Normalise(bytes, order), order) == FromLittle(bytes)
  {
    ReverseTwice(bytes);
  }

  lemma FromBitsInverts(kind: Kind, n: int)
    requires InRange(kind, n)
    ensures FromBits(kind, n % Radix(kind.width)) == n
  {
    var p: nat := Radix(kind.width);
    if n < 0 {
      Modular.QuotientUnique(n, -1, n + p, p);
    } else {
      Modular.QuotientUnique(n, 0, n, p);
    }
  }

  /** Any pairing of byte orders works. */
  lemma ByteOrdersPortable(w: ByteOrder, r: ByteOrder)
    ensures Portable(MachineOf(w), MachineOf(r))
  {
    forall kind: Kind, n: int | InRange(kind, n)
      ensures MachineOf(r).load(kind, MachineOf(w).store(kind, n)) == n
    {
      var bytes := Little(n, kind.width);
      Normalised(n, kind.width, w);
      FromMemoryNormalised(bytes, r);
      FromLittleInverts(n, kind.width);
      FromBitsInverts(kind, n);
    }
  }
}
