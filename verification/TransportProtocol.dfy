/**
 One mapping of a shared-memory segment as a step system: any number of processes transmit and read
 messages, one access to shared memory per step, in any order; buffers are copied byte by byte.

 A transmitter runs ShmTransmitter::Transmit over Segment::AcquireBlockToWrite and ReleaseWrittenBlock; a
 reader runs ShmDispatcher::ReadMessage for one of the notifications sent so far and then the copy its
 listener makes of the payload. A weak compare-exchange may fail spuriously.
 */
module TransportProtocol {
  import opened Bytes
  import opened Wrappers
  import opened Counting
  import opened ShmConfModel
  import opened SharedWords

  const ID_SIZE: nat := 8
  const HEADER_SIZE: nat := 24

  datatype Message = Message(payload: seq<Byte>, sender: seq<Byte>, spare: seq<Byte>, seqNum: seq<Byte>)

  function Header(m: Message): seq<Byte> {
    m.sender + m.spare + m.seqNum
  }

  /** Ids and the sequence number take eight bytes each; larger payloads need another mapping. */
  predicate Sendable(m: Message, ceiling: nat) {
    |m.payload| <= ceiling && |m.sender| == |m.spare| == |m.seqNum| == ID_SIZE
  }

  datatype Block = Block(lockNum: int, msgSize: nat, msgInfoSize: nat, buf: seq<Byte>)

  /** Where a process is, with its local variables. `b` is a block index, `n` the notification being served. */
  datatype Thread =
    | Idle
    | FetchSeq(m: Message)
    | TryLock(m: Message, b: nat)
    | CopyPayload(m: Message, b: nat, done: nat)
    | SetSize(m: Message, b: nat)
    | CopyHeader(m: Message, b: nat, done: nat)
    | SetInfoSize(m: Message, b: nat)
    | ReleaseWrite(m: Message, b: nat)
    | Notify(m: Message, b: nat, r: nat)
    | LoadLock(n: nat, b: nat)
    | CasLock(n: nat, b: nat, seen: int, tries: nat)
    | ReloadLock(n: nat, b: nat, tries: nat)
    | ReadSize(n: nat, b: nat)
    | ReadHeader(n: nat, b: nat, size: nat, header: seq<Byte>)
    | ReadPayloadSize(n: nat, b: nat, header: seq<Byte>)
    | ReadPayload(n: nat, b: nat, header: seq<Byte>, size: nat, payload: seq<Byte>)
    | ReleaseRead(n: nat, b: nat, header: seq<Byte>, payload: seq<Byte>)
    | Received(n: nat, r: nat, header: seq<Byte>, payload: seq<Byte>)
    | Failed

  /** A notification names a block; which release it announces is recorded beside it. */
  datatype Note = Note(block: nat, release: nat)

  /** A completed write: the message, and the block whose write lock was released after it. */
  datatype Release = Release(block: nat, message: Message)

  /** Shared memory, the process table, and two histories: all releases in order, and each block's latest. */
  datatype State = State(
    ceiling: nat, blocks: seq<Block>, counter: nat, notes: seq<Note>, threads: seq<Thread>,
    released: seq<Release>, latest: seq<Option<nat>>)

  datatype Event = Transmit(m: Message) | Read(n: nat) | Advance(spurious: bool)

  datatype Action = Action(thread: nat, event: Event)

  function Init(c: Conf, threads: nat): State {
    State(c.ceilingMsgSize, seq(c.blockNum, i => Block(0, 0, 0, seq(c.blockBufSize, j => 0))), 0, [],
          seq(threads, i => Idle), [], seq(c.blockNum, i => None))
  }

  /** What makes every step well defined, whatever the scheduler does. */
  predicate Shape(s: State) {
    && 0 < |s.blocks| == |s.latest|
    && (forall b :: 0 <= b < |s.blocks| ==>
          |s.blocks[b].buf| == BlockBufSize(s.ceiling) && s.blocks[b].msgSize <= s.ceiling)
    && (forall n :: 0 <= n < |s.notes| ==> s.notes[n].block < |s.blocks|)
    && (forall t :: 0 <= t < |s.threads| ==> ThreadShape(s, s.threads[t]))
  }

  predicate WriterShape(s: State, m: Message, b: nat) {
    Sendable(m, s.ceiling) && b < |s.blocks|
  }

  predicate ReaderShape(s: State, n: nat, b: nat) {
    n < |s.notes| && b == s.notes[n].block && b < |s.blocks|
  }

  predicate ThreadShape(s: State, l: Thread) {
    match l
    case Idle => true
    case FetchSeq(m) => Sendable(m, s.ceiling)
    case TryLock(m, b) => WriterShape(s, m, b)
    case CopyPayload(m, b, done) => WriterShape(s, m, b) && done <= |m.payload|
    case SetSize(m, b) => WriterShape(s, m, b)
    case CopyHeader(m, b, done) => WriterShape(s, m, b) && done <= HEADER_SIZE
    case SetInfoSize(m, b) => WriterShape(s, m, b)
    case ReleaseWrite(m, b) => WriterShape(s, m, b)
    case Notify(m, b, _) => WriterShape(s, m, b)
    case LoadLock(n, b) => ReaderShape(s, n, b)
    case CasLock(n, b, _, _) => ReaderShape(s, n, b)
    case ReloadLock(n, b, _) => ReaderShape(s, n, b)
    case ReadSize(n, b) => ReaderShape(s, n, b)
    case ReadHeader(n, b, size, header) => ReaderShape(s, n, b) && size <= s.ceiling && |header| <= HEADER_SIZE
    case ReadPayloadSize(n, b, _) => ReaderShape(s, n, b)
    case ReadPayload(n, b, _, size, payload) => ReaderShape(s, n, b) && |payload| <= size <= s.ceiling
    case ReleaseRead(n, b, _, _) => ReaderShape(s, n, b)
    case Received(_, _, _, _) => true
    case Failed => true
  }

  function Goto(s: State, t: nat, l: Thread): State
    requires t < |s.threads|
  {
    s.(threads := s.threads[t := l])
  }

  function SetBlock(s: State, b: nat, block: Block): State
    requires b < |s.blocks|
  {
    s.(blocks := s.blocks[b := block])
  }

  /** One step of thread `t`. An event the thread cannot take leaves everything as it is. */
  function Step(s: State, t: nat, e: Event): (s': State)
    requires Shape(s)
  {
    if t >= |s.threads| then s else
    var resting := s.threads[t].Idle? || s.threads[t].Received? || s.threads[t].Failed?;
    match e
    case Transmit(m) => if resting && Sendable(m, s.ceiling) then Goto(s, t, FetchSeq(m)) else s
    case Read(n) => if resting && n < |s.notes| then Goto(s, t, LoadLock(n, s.notes[n].block)) else s
    case Advance(spurious) =>
      if s.threads[t].FetchSeq? || IsWriter(s.threads[t])
      then NextWriter(s, t, spurious) else NextReader(s, t, spurious)
  }

  predicate IsWriter(l: Thread) {
    l.TryLock? || l.CopyPayload? || l.SetSize? || l.CopyHeader? || l.SetInfoSize? || l.ReleaseWrite? || l.Notify?
  }

  function NextWriter(s: State, t: nat, spurious: bool): (s': State)
    requires Shape(s) && t < |s.threads| && (s.threads[t].FetchSeq? || IsWriter(s.threads[t]))
  {
    assert ThreadShape(s, s.threads[t]);
    match s.threads[t]
    case FetchSeq(m) =>
      Goto(s, t, TryLock(m, s.counter % |s.blocks|)).(counter := (s.counter + 1) % WORD32)
    case TryLock(m, b) =>
      if !spurious && s.blocks[b].lockNum == 0
      then SetBlock(Goto(s, t, CopyPayload(m, b, 0)), b, s.blocks[b].(lockNum := -1))
      else Goto(s, t, FetchSeq(m))
    case CopyPayload(m, b, done) =>
      if done < |m.payload|
      then SetBlock(Goto(s, t, CopyPayload(m, b, done + 1)), b, Poke(s.blocks[b], done, m.payload[done]))
      else Goto(s, t, SetSize(m, b))
    case SetSize(m, b) =>
      SetBlock(Goto(s, t, CopyHeader(m, b, 0)), b, s.blocks[b].(msgSize := |m.payload|))
    case CopyHeader(m, b, done) =>
      if done < HEADER_SIZE
      then SetBlock(Goto(s, t, CopyHeader(m, b, done + 1)), b, Poke(s.blocks[b], |m.payload| + done, Header(m)[done]))
      else Goto(s, t, SetInfoSize(m, b))
    case SetInfoSize(m, b) =>
      SetBlock(Goto(s, t, ReleaseWrite(m, b)), b, s.blocks[b].(msgInfoSize := HEADER_SIZE))
    case ReleaseWrite(m, b) =>
      SetBlock(Goto(s, t, Notify(m, b, |s.released|)), b, s.blocks[b].(lockNum := s.blocks[b].lockNum + 1)).(
        released := s.released + [Release(b, m)], latest := s.latest[b := Some(|s.released|)])
    case Notify(m, b, r) =>
      Goto(s, t, Idle).(notes := s.notes + [Note(b, r)])
  }

  function Poke(block: Block, at: nat, x: Byte): Block
    requires at < |block.buf|
  {
    block.(buf := block.buf[at := x])
  }

  function NextReader(s: State, t: nat, spurious: bool): (s': State)
    requires Shape(s) && t < |s.threads|
  {
    assert ThreadShape(s, s.threads[t]);
    match s.threads[t]
    case LoadLock(n, b) =>
      Goto(s, t, if s.blocks[b].lockNum < 0 then Failed else CasLock(n, b, s.blocks[b].lockNum, 0))
    case CasLock(n, b, seen, tries) =>
      if !spurious && s.blocks[b].lockNum == seen
      then SetBlock(Goto(s, t, ReadSize(n, b)), b, s.blocks[b].(lockNum := seen + 1))
      else Goto(s, t, if tries + 1 == MAX_TRY_LOCK_TIMES then Failed else ReloadLock(n, b, tries + 1))
    case ReloadLock(n, b, tries) =>
      Goto(s, t, if s.blocks[b].lockNum < 0 then Failed else CasLock(n, b, s.blocks[b].lockNum, tries))
    case ReadSize(n, b) =>
      Goto(s, t, ReadHeader(n, b, s.blocks[b].msgSize, []))
    case ReadHeader(n, b, size, header) =>
      Goto(s, t, if |header| < HEADER_SIZE
                 then ReadHeader(n, b, size, header + [s.blocks[b].buf[size + |header|]])
                 else ReadPayloadSize(n, b, header))
    case ReadPayloadSize(n, b, header) =>
      Goto(s, t, ReadPayload(n, b, header, s.blocks[b].msgSize, []))
    case ReadPayload(n, b, header, size, payload) =>
      Goto(s, t, if |payload| < size
                 then ReadPayload(n, b, header, size, payload + [s.blocks[b].buf[|payload|]])
                 else ReleaseRead(n, b, header, payload))
    case ReleaseRead(n, b, header, payload) =>
      // The release it read is recorded with the result.
      var r := if s.latest[b].Some? then s.latest[b].value else 0;
      SetBlock(Goto(s, t, Received(n, r, header, payload)), b, s.blocks[b].(lockNum := s.blocks[b].lockNum - 1))
    case Received(_, _, _, _) => Goto(s, t, Idle)
    case Failed => Goto(s, t, Idle)
    case _ => s
  }

  // ----- the locks

  predicate HoldsWrite(l: Thread, b: nat) {
    (l.CopyPayload? || l.SetSize? || l.CopyHeader? || l.SetInfoSize? || l.ReleaseWrite?) && l.b == b
  }

  predicate HoldsRead(l: Thread, b: nat) {
    (l.ReadSize? || l.ReadHeader? || l.ReadPayloadSize? || l.ReadPayload? || l.ReleaseRead?) && l.b == b
  }

  function WriterOf(b: nat): Thread -> bool {
    l => HoldsWrite(l, b)
  }

  function ReaderOf(b: nat): Thread -> bool {
    l => HoldsRead(l, b)
  }

  function Writers(s: State, b: nat): nat {
    Count(s.threads, WriterOf(b))
  }

  function Readers(s: State, b: nat): nat {
    Count(s.threads, ReaderOf(b))
  }

  /** Either -1 with exactly one writer and no reader, or the number of readers with no writer. */
  ghost predicate LockOk(s: State, b: nat)
    requires b < |s.blocks|
  {
    || (s.blocks[b].lockNum == -1 && Writers(s, b) == 1 && Readers(s, b) == 0)
    || (s.blocks[b].lockNum == Readers(s, b) && Writers(s, b) == 0)
  }

  // ----- the data

  /** The block holds the whole of `m`, payload, size and header. */
  predicate Holds(block: Block, m: Message) {
    && |m.payload| + |Header(m)| <= |block.buf|
    && block.msgSize == |m.payload| && block.msgInfoSize == HEADER_SIZE
    && block.buf[..|m.payload|] == m.payload
    && block.buf[|m.payload|..|m.payload| + |Header(m)|] == Header(m)
  }

  /** The recorded latest release of a block is its latest release. */
  ghost predicate LatestOk(s: State, b: nat)
    requires b < |s.latest|
  {
    && (s.latest[b].Some? ==> s.latest[b].value < |s.released| && s.released[s.latest[b].value].block == b)
    && (forall j :: 0 <= j < |s.released| && s.released[j].block == b
          ==> s.latest[b].Some? && j <= s.latest[b].value)
  }

  /** The message a reader of block `b` is reading. */
  ghost function Current(s: State, b: nat): Message
    requires b < |s.latest| && s.latest[b].Some? && s.latest[b].value < |s.released|
  {
    s.released[s.latest[b].value].message
  }

  ghost predicate DataOk(s: State, b: nat)
    requires b < |s.blocks| == |s.latest| && LatestOk(s, b)
  {
    Writers(s, b) == 0 && s.latest[b].Some? ==> Holds(s.blocks[b], Current(s, b))
  }

  /** The copying of `m` into the block has got as far as `l` says. */
  ghost predicate WriteProgress(block: Block, l: Thread) {
    match l
    case CopyPayload(m, _, done) => done <= |m.payload| <= |block.buf| && block.buf[..done] == m.payload[..done]
    case SetSize(m, _) => |m.payload| <= |block.buf| && block.buf[..|m.payload|] == m.payload
    case CopyHeader(m, _, done) =>
      && |m.payload| + |Header(m)| <= |block.buf| && done <= |Header(m)|
      && block.msgSize == |m.payload| && block.buf[..|m.payload|] == m.payload
      && block.buf[|m.payload|..|m.payload| + done] == Header(m)[..done]
    case SetInfoSize(m, _) => Holds(block.(msgInfoSize := HEADER_SIZE), m)
    case ReleaseWrite(m, _) => Holds(block, m)
    case _ => true
  }

  /** What a reader has copied so far is a prefix of what `m` has to offer. */
  ghost predicate ReadProgress(m: Message, l: Thread) {
    match l
    case ReadHeader(_, _, size, header) => size == |m.payload| && header <= Header(m)
    case ReadPayloadSize(_, _, header) => header == Header(m)
    case ReadPayload(_, _, header, size, payload) => header == Header(m) && size == |m.payload| && payload <= m.payload
    case ReleaseRead(_, _, header, payload) => header == Header(m) && payload == m.payload
    case _ => true
  }

  ghost predicate NoteOk(s: State, n: nat)
    requires n < |s.notes|
  {
    s.notes[n].release < |s.released| && s.released[s.notes[n].release].block == s.notes[n].block
  }

  /** Release `r` is the notified one or a later one of the same block. */
  ghost predicate NotBefore(s: State, n: nat, r: nat) {
    && n < |s.notes| && r < |s.released|
    && s.notes[n].release <= r && s.released[r].block == s.notes[n].block
  }

  ghost predicate ThreadOk(s: State, t: nat)
    requires Shape(s) && t < |s.threads|
  {
    var l := s.threads[t];
    assert ThreadShape(s, l);
    if IsWriter(l) then
      && (HoldsWrite(l, l.b) ==> WriteProgress(s.blocks[l.b], l))
      && (l.Notify? ==> l.r < |s.released| && s.released[l.r] == Release(l.b, l.m))
    else if l.Received? then
      && NotBefore(s, l.n, l.r)
      && l.header == Header(s.released[l.r].message) && l.payload == s.released[l.r].message.payload
    else if l.CasLock? then l.seen >= 0
    else
      (l.ReadSize? || l.ReadHeader? || l.ReadPayloadSize? || l.ReadPayload? || l.ReleaseRead?) ==>
        && s.latest[l.b].Some? && NotBefore(s, l.n, s.latest[l.b].value)
        && ReadProgress(Current(s, l.b), l)
  }

  ghost predicate Inv(s: State) {
    && Shape(s) && WORD32 % |s.blocks| == 0
    && (forall b :: 0 <= b < |s.blocks| ==> LockOk(s, b) && LatestOk(s, b) && DataOk(s, b))
    && (forall n :: 0 <= n < |s.notes| ==> NoteOk(s, n))
    && (forall r :: 0 <= r < |s.released| ==>
          Sendable(s.released[r].message, s.ceiling) && s.released[r].block < |s.blocks|)
    && (forall t :: 0 <= t < |s.threads| ==> ThreadOk(s, t))
  }

  /** A step of one thread leaves all others where they are. */
  lemma OthersWait(s: State, a: Action, u: nat)
    requires Shape(s) && u < |s.threads| && u != a.thread
    ensures |Step(s, a.thread, a.event).threads| == |s.threads| && Step(s, a.thread, a.event).threads[u] == s.threads[u]
  {
    if a.thread < |s.threads| && a.event.Advance? {
      if s.threads[a.thread].FetchSeq? || IsWriter(s.threads[a.thread]) {
        OthersWaitForWriter(s, a.thread, a.event.spurious, u);
      } else {
        OthersWaitForReader(s, a.thread, a.event.spurious, u);
      }
    }
  }

  lemma OthersWaitForWriter(s: State, t: nat, spurious: bool, u: nat)
    requires Shape(s) && t < |s.threads| && u < |s.threads| && u != t
    requires s.threads[t].FetchSeq? || IsWriter(s.threads[t])
    ensures |NextWriter(s, t, spurious).threads| == |s.threads| && NextWriter(s, t, spurious).threads[u] == s.threads[u]
  {}

  lemma OthersWaitForReader(s: State, t: nat, spurious: bool, u: nat)
    requires Shape(s) && t < |s.threads| && u < |s.threads| && u != t
    ensures |NextReader(s, t, spurious).threads| == |s.threads| && NextReader(s, t, spurious).threads[u] == s.threads[u]
  {}
}
