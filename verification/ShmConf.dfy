/**
 The layout of a shared-memory segment: transport/shm/core/shm_conf.cpp and the address computation of
 transport/shm/segment/xsi_segment.cpp.
 */
module ShmConfModel {
  import opened Modular

  const EXTRA_SIZE: nat := 4096
  const STATE_SIZE: nat := 1024
  const BLOCK_SIZE: nat := 1024
  const MESSAGE_INFO_SIZE: nat := 1024

  const MESSAGE_SIZE_16K: nat := 0x4000
  const MESSAGE_SIZE_128K: nat := 0x2_0000
  const MESSAGE_SIZE_1M: nat := 0x10_0000
  const MESSAGE_SIZE_8M: nat := 0x80_0000
  const MESSAGE_SIZE_16M: nat := 0x100_0000
  const MESSAGE_SIZE_MORE: nat := 0x200_0000

  function CeilingMessageSize(realMsgSize: nat): nat {
    if realMsgSize <= MESSAGE_SIZE_16K then MESSAGE_SIZE_16K
    else if realMsgSize <= MESSAGE_SIZE_128K then MESSAGE_SIZE_128K
    else if realMsgSize <= MESSAGE_SIZE_1M then MESSAGE_SIZE_1M
    else if realMsgSize <= MESSAGE_SIZE_8M then MESSAGE_SIZE_8M
    else if realMsgSize <= MESSAGE_SIZE_16M then MESSAGE_SIZE_16M
    else MESSAGE_SIZE_MORE
  }

  function BlockBufSize(ceilingMsgSize: nat): nat {
    ceilingMsgSize + MESSAGE_INFO_SIZE
  }

  /** The number of blocks for a ceiling; an unknown ceiling has none. */
  function BlockNum(ceilingMsgSize: nat): nat {
    if ceilingMsgSize == MESSAGE_SIZE_16K then 512
    else if ceilingMsgSize == MESSAGE_SIZE_128K then 128
    else if ceilingMsgSize == MESSAGE_SIZE_1M then 64
    else if ceilingMsgSize == MESSAGE_SIZE_8M then 32
    else if ceilingMsgSize == MESSAGE_SIZE_16M then 16
    else if ceilingMsgSize == MESSAGE_SIZE_MORE then 8
    else 0
  }

  datatype Conf = Conf(ceilingMsgSize: nat, blockBufSize: nat, blockNum: nat, managedShmSize: nat)

  /** The configuration for messages of a given size. */
  function ConfFor(realMsgSize: nat): Conf {
    var ceiling := CeilingMessageSize(realMsgSize);
    var bufSize, num := BlockBufSize(ceiling), BlockNum(ceiling);
    Conf(ceiling, bufSize, num, EXTRA_SIZE + STATE_SIZE + (BLOCK_SIZE + bufSize) * num)
  }

  class ShmConf {
    var ceilingMsgSize: nat
    var blockBufSize: nat
    var blockNum: nat
    var managedShmSize: nat

    function Value(): Conf
      reads this
    {
      Conf(ceilingMsgSize, blockBufSize, blockNum, managedShmSize)
    }

    constructor ()
      ensures Value() == ConfFor(MESSAGE_SIZE_16K)
    {
      new;
      Update(MESSAGE_SIZE_16K);
    }

    constructor ForSize(realMsgSize: nat)
      ensures Value() == ConfFor(realMsgSize)
    {
      new;
      Update(realMsgSize);
    }

    method Update(realMsgSize: nat)
      modifies this
      ensures Value() == ConfFor(realMsgSize)
    {
      ceilingMsgSize := CeilingMessageSize(realMsgSize);
      blockBufSize := BlockBufSize(ceilingMsgSize);
      blockNum := BlockNum(ceilingMsgSize);
      managedShmSize := EXTRA_SIZE + STATE_SIZE + (BLOCK_SIZE + blockBufSize) * blockNum;
    }
  }

  /** The ceiling covers the message exactly up to 32 MiB, and no smaller tier would. */
  lemma CeilingCovers(realMsgSize: nat)
    ensures realMsgSize <= CeilingMessageSize(realMsgSize) <==> realMsgSize <= MESSAGE_SIZE_MORE
    ensures forall other: nat :: 0 < BlockNum(other) && realMsgSize <= other ==>
              CeilingMessageSize(realMsgSize) <= other
  {}

  /** The creator stores its ceiling in the segment; whoever updates from it gets the creator's configuration. */
  lemma UpdateIsIdempotent(realMsgSize: nat)
    ensures ConfFor(ConfFor(realMsgSize).ceilingMsgSize) == ConfFor(realMsgSize)
  {}

  /** There are at least eight blocks, their number divides 2^32, and each has room for payload and header. */
  lemma BlockCounts(realMsgSize: nat, payload: nat)
    requires payload <= ConfFor(realMsgSize).ceilingMsgSize
    ensures var c := ConfFor(realMsgSize);
            && 8 <= c.blockNum && 0x1_0000_0000 % c.blockNum == 0
            && payload + 24 <= c.blockBufSize
            && c.managedShmSize < 0x1_0000_0000
  {
    var c := ConfFor(realMsgSize);
    assert c.blockNum in {512, 128, 64, 32, 16, 8};
  }

  /** The tiers: up to which size each is used, its number of blocks, and the sizes that follow. */
  lemma Tiers(realMsgSize: nat)
    ensures var c, kb := ConfFor(realMsgSize), 1024;
            && (realMsgSize <= 16 * kb ==> c.ceilingMsgSize == 16 * kb && c.blockNum == 512)
            && (16 * kb < realMsgSize <= 128 * kb ==> c.ceilingMsgSize == 128 * kb && c.blockNum == 128)
            && (128 * kb < realMsgSize <= 1024 * kb ==> c.ceilingMsgSize == 1024 * kb && c.blockNum == 64)
            && (1024 * kb < realMsgSize <= 8192 * kb ==> c.ceilingMsgSize == 8192 * kb && c.blockNum == 32)
            && (8192 * kb < realMsgSize <= 16384 * kb ==> c.ceilingMsgSize == 16384 * kb && c.blockNum == 16)
            && (16384 * kb < realMsgSize ==> c.ceilingMsgSize == 32768 * kb && c.blockNum == 8)
            && c.blockBufSize == c.ceilingMsgSize + kb
            && c.managedShmSize == 5 * kb + c.blockNum * (c.ceilingMsgSize + 2 * kb)
  {
    var c := ConfFor(realMsgSize);
    assert (BLOCK_SIZE + c.blockBufSize) * c.blockNum == c.blockNum * (c.ceilingMsgSize + 2048);
  }

  // ----- addresses

  /** sizeof(State) and sizeof(Block), which fit the space the configuration sets aside for them. */
  datatype Sizes = Sizes(state: nat, block: nat)

  predicate Fits(z: Sizes) {
    0 < z.state <= STATE_SIZE && 0 < z.block <= BLOCK_SIZE
  }

  function BlockAddress(base: nat, z: Sizes, i: nat): nat {
    base + z.state + i * z.block
  }

  function BufAddress(base: nat, z: Sizes, c: Conf, i: nat): nat {
    base + z.state + c.blockNum * z.block + i * c.blockBufSize
  }

  /** The addresses of the first `n` buffers, and nothing else, are in the map. */
  ghost predicate Mapped(addresses: map<nat, nat>, base: nat, z: Sizes, c: Conf, n: nat) {
    && (forall i: nat :: i in addresses <==> i < n)
    && (forall i: nat :: i in addresses ==> addresses[i] == BufAddress(base, z, c, i))
  }

  /** The block addresses that OpenOrCreate and OpenOnly compute from the configuration, both with this loop. */
  method MapBuffers(base: nat, z: Sizes, conf: ShmConf) returns (addresses: map<nat, nat>)
    ensures Mapped(addresses, base, z, conf.Value(), conf.blockNum)
  {
    addresses := map[];
    var i := 0;
    while i < conf.blockNum
      invariant i <= conf.blockNum
      invariant Mapped(addresses, base, z, conf.Value(), i)
    {
      addresses := addresses[i := base + z.state + conf.blockNum * z.block + i * conf.blockBufSize];
      i := i + 1;
    }
  }

  /** The creator: its configuration, what it stores in State, and the addresses it computes. */
  method OpenOrCreate(base: nat, z: Sizes, conf: ShmConf) returns (stateCeiling: nat, addresses: map<nat, nat>)
    requires exists r: nat :: conf.Value() == ConfFor(r)
    modifies conf
    ensures conf.Value() == old(conf.Value()) && stateCeiling == conf.ceilingMsgSize
    ensures Mapped(addresses, base, z, conf.Value(), conf.blockNum)
  {
    ghost var r: nat :| conf.Value() == ConfFor(r);
    stateCeiling := conf.ceilingMsgSize;
    UpdateIsIdempotent(r);
    conf.Update(stateCeiling);
    addresses := MapBuffers(base, z, conf);
  }

  /** An opener: whatever its configuration was before, it takes the ceiling from State. */
  method OpenOnly(base: nat, z: Sizes, conf: ShmConf, stateCeiling: nat) returns (addresses: map<nat, nat>)
    modifies conf
    ensures conf.Value() == ConfFor(stateCeiling)
    ensures Mapped(addresses, base, z, conf.Value(), conf.blockNum)
  {
    conf.Update(stateCeiling);
    addresses := MapBuffers(base, z, conf);
  }

  /** Creator and opener end up with the same configuration and the same offset for every buffer. */
  method CreatorAndOpenerAgree(base: nat, base': nat, z: Sizes, size: nat, size': nat)
    returns (created: map<nat, nat>, reopened: map<nat, nat>)
    ensures Mapped(created, base, z, ConfFor(size), ConfFor(size).blockNum)
    ensures Mapped(reopened, base', z, ConfFor(size), ConfFor(size).blockNum)
    ensures forall i: nat :: i in created ==> i in reopened && created[i] - base == reopened[i] - base'
  {
    var creator := new ShmConf.ForSize(size);
    var opener := new ShmConf.ForSize(size');
    var ceiling;
    ceiling, created := OpenOrCreate(base, z, creator);
    UpdateIsIdempotent(size);
    reopened := OpenOnly(base', z, opener, ceiling);
  }

  /** State comes first, then the blocks, then the buffers, each right after the one before, up to the last. */
  lemma PartsInARow(base: nat, z: Sizes, realMsgSize: nat, i: nat)
    requires i < ConfFor(realMsgSize).blockNum
    ensures var c := ConfFor(realMsgSize);
            && BlockAddress(base, z, 0) == base + z.state
            && BlockAddress(base, z, i + 1) == BlockAddress(base, z, i) + z.block
            && BufAddress(base, z, c, 0) == BlockAddress(base, z, c.blockNum)
            && BufAddress(base, z, c, i + 1) == BufAddress(base, z, c, i) + c.blockBufSize
  {
    var c := ConfFor(realMsgSize);
    assert (i + 1) * z.block == i * z.block + z.block;
    assert (i + 1) * c.blockBufSize == i * c.blockBufSize + c.blockBufSize;
  }

  /** Half-open address ranges. */
  datatype Range = Range(from: nat, to: nat)

  predicate Apart(a: Range, b: Range) {
    a.to <= b.from || b.to <= a.from
  }

  /** What is laid out in a segment: the State, the Block array, and each block's buffer. */
  datatype Part = StatePart | BlockPart(i: nat) | BufPart(i: nat)

  predicate IsPart(p: Part, c: Conf) {
    match p
    case StatePart => true
    case BlockPart(i) => i < c.blockNum
    case BufPart(i) => i < c.blockNum
  }

  function Place(p: Part, base: nat, z: Sizes, c: Conf): Range {
    match p
    case StatePart => Range(base, base + z.state)
    case BlockPart(i) => Range(BlockAddress(base, z, i), BlockAddress(base, z, i) + z.block)
    case BufPart(i) => Range(BufAddress(base, z, c, i), BufAddress(base, z, c, i) + c.blockBufSize)
  }

  lemma SpacedApart(i: nat, j: nat, n: nat, stride: nat)
    requires i < j <= n
    ensures i * stride + stride <= j * stride <= n * stride
  {
    Multiples(j - i, stride);
    Multiples(n - j, stride);
    assert j * stride == i * stride + (j - i) * stride;
    assert n * stride == j * stride + (n - j) * stride;
  }

  /** The blocks fit below the buffers, and blocks and buffers into the whole. */
  lemma ArraysFit(n: nat, z: Sizes, c: Conf)
    requires Fits(z)
    ensures n * z.block <= n * BLOCK_SIZE && (BLOCK_SIZE + c.blockBufSize) * n == n * BLOCK_SIZE + n * c.blockBufSize
  {
    assert n * BLOCK_SIZE - n * z.block == n * (BLOCK_SIZE - z.block);
  }

  lemma PartInside(p: Part, base: nat, z: Sizes, realMsgSize: nat)
    requires Fits(z) && IsPart(p, ConfFor(realMsgSize))
    ensures var c := ConfFor(realMsgSize);
            && base <= Place(p, base, z, c).from && Place(p, base, z, c).to <= base + c.managedShmSize
            && (p.BlockPart? ==> base + z.state <= Place(p, base, z, c).from
                                 && Place(p, base, z, c).to <= base + z.state + c.blockNum * z.block)
            && (p.BufPart? ==> base + z.state + c.blockNum * z.block <= Place(p, base, z, c).from)
  {
    var c := ConfFor(realMsgSize);
    ArraysFit(c.blockNum, z, c);
    InArray(p, c.blockNum, z.block, c.blockBufSize);
  }

  /** Every part lies inside the segment and no two parts overlap. */
  lemma PartsApart(p: Part, q: Part, base: nat, z: Sizes, realMsgSize: nat)
    requires Fits(z) && IsPart(p, ConfFor(realMsgSize)) && IsPart(q, ConfFor(realMsgSize))
    ensures var c := ConfFor(realMsgSize);
            && base <= Place(p, base, z, c).from && Place(p, base, z, c).to <= base + c.managedShmSize
            && (p != q ==> Apart(Place(p, base, z, c), Place(q, base, z, c)))
  {
    PartInside(p, base, z, realMsgSize);
    PartInside(q, base, z, realMsgSize);
    var c := ConfFor(realMsgSize);
    match (p, q)
    case (BlockPart(i), BlockPart(j)) => RowsApart(i, j, c.blockNum, z.block);
    case (BufPart(i), BufPart(j)) => RowsApart(i, j, c.blockNum, c.blockBufSize);
    case _ =>
  }

  lemma RowsApart(i: nat, j: nat, n: nat, stride: nat)
    requires i < n && j < n
    ensures i != j ==> i * stride + stride <= j * stride || j * stride + stride <= i * stride
  {
    if i < j { SpacedApart(i, j, n, stride); } else if j < i { SpacedApart(j, i, n, stride); }
  }

  lemma InArray(p: Part, n: nat, blockSize: nat, bufSize: nat)
    ensures p.BlockPart? && p.i < n ==> 0 <= p.i * blockSize && p.i * blockSize + blockSize <= n * blockSize
    ensures p.BufPart? && p.i < n ==> 0 <= p.i * bufSize && p.i * bufSize + bufSize <= n * bufSize
    ensures 0 <= n * blockSize && 0 <= n * bufSize
  {
    if !p.StatePart? && p.i < n {
      SpacedApart(p.i, n, n, blockSize);
      SpacedApart(p.i, n, n, bufSize);
    }
  }
}
