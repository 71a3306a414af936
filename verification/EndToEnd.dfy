/**
 From a value on one side to a value on the other: the transmitter serializes it with DataStream, the shared
 memory carries the bytes, and the reader of a notified block parses them.
 */
module EndToEnd {
  import opened Bytes
  import opened Wrappers
  import opened Numbers
  import opened Codec
  import opened Ordered
  import opened ShmConfModel
  import T = TransportProtocol
  import TI = TransportInvariant
  import TP = TransportProperties

  /** The message a transmitter is busy with. */
  function Carried(l: T.Thread): Option<T.Message> {
    if l.FetchSeq? || T.IsWriter(l) then Some(l.m) else None
  }

  predicate Sent(schedule: seq<T.Action>, m: T.Message) {
    exists i :: 0 <= i < |schedule| && schedule[i].event == T.Transmit(m)
  }

  /** A step makes nothing up: it starts with a message it is given, and releases the one it carries. */
  lemma StepCarries(s: T.State, a: T.Action, u: nat)
    requires T.Shape(s)
    ensures var s' := T.Step(s, a.thread, a.event);
            && |s'.threads| == |s.threads|
            && (u < |s.threads| && Carried(s'.threads[u]).Some? ==>
                  || Carried(s'.threads[u]) == Carried(s.threads[u])
                  || a.event == T.Transmit(Carried(s'.threads[u]).value))
  {
    if u < |s.threads| {
      if u != a.thread {
        T.OthersWait(s, a, u);
      } else if a.event.Advance? {
        AdvanceCarries(s, u, a.event.spurious);
      }
    }
  }

  lemma AdvanceCarries(s: T.State, t: nat, spurious: bool)
    requires T.Shape(s) && t < |s.threads|
    ensures var s' := T.Step(s, t, T.Advance(spurious));
            && |s'.threads| == |s.threads|
            && (Carried(s'.threads[t]).Some? ==> Carried(s'.threads[t]) == Carried(s.threads[t]))
  {
    if s.threads[t].FetchSeq? || T.IsWriter(s.threads[t]) {
      WriterCarries(s, t, spurious);
    } else {
      ReaderCarriesNothing(s, t, spurious);
    }
  }

  lemma WriterCarries(s: T.State, t: nat, spurious: bool)
    requires T.Shape(s) && t < |s.threads| && (s.threads[t].FetchSeq? || T.IsWriter(s.threads[t]))
    ensures var s' := T.NextWriter(s, t, spurious);
            && |s'.threads| == |s.threads|
            && (Carried(s'.threads[t]).Some? ==> Carried(s'.threads[t]) == Carried(s.threads[t]))
  {}

  lemma ReaderCarriesNothing(s: T.State, t: nat, spurious: bool)
    requires T.Shape(s) && t < |s.threads| && !s.threads[t].FetchSeq? && !T.IsWriter(s.threads[t])
    ensures var s' := T.NextReader(s, t, spurious);
            |s'.threads| == |s.threads| && Carried(s'.threads[t]) == None
  {}

  lemma StepReleases(s: T.State, a: T.Action)
    requires T.Shape(s)
    ensures var s' := T.Step(s, a.thread, a.event);
            s'.released == s.released ||
            (a.thread < |s.threads| && |s'.released| == |s.released| + 1 && s'.released[..|s.released|] == s.released
             && Carried(s.threads[a.thread]) == Some(s'.released[|s.released|].message))
  {}

  /** Only messages that were given to Transmit are carried or released. */
  ghost predicate OnlySent(s: T.State, schedule: seq<T.Action>) {
    && (forall u :: 0 <= u < |s.threads| && Carried(s.threads[u]).Some? ==> Sent(schedule, Carried(s.threads[u]).value))
    && (forall r :: 0 <= r < |s.released| ==> Sent(schedule, s.released[r].message))
  }

  lemma SentLater(schedule: seq<T.Action>, n: nat, m: T.Message)
    requires n <= |schedule| && Sent(schedule[..n], m)
    ensures Sent(schedule, m)
  {
    var i :| 0 <= i < n && schedule[..n][i].event == T.Transmit(m);
    assert schedule[i].event == T.Transmit(m);
  }

  lemma StepOnlySent(s: T.State, schedule: seq<T.Action>)
    requires T.Shape(s) && schedule != [] && OnlySent(s, schedule[..|schedule| - 1])
    ensures var a := schedule[|schedule| - 1]; OnlySent(T.Step(s, a.thread, a.event), schedule)
  {
    var n, a := |schedule| - 1, schedule[|schedule| - 1];
    var s' := T.Step(s, a.thread, a.event);
    forall u | 0 <= u < |s'.threads| && Carried(s'.threads[u]).Some?
      ensures Sent(schedule, Carried(s'.threads[u]).value)
    {
      StepCarries(s, a, u);
      if Carried(s'.threads[u]) == Carried(s.threads[u]) {
        SentLater(schedule, n, Carried(s'.threads[u]).value);
      }
    }
    StepReleases(s, a);
    forall r | 0 <= r < |s'.released|
      ensures Sent(schedule, s'.released[r].message)
    {
      if r < |s.released| {
        assert s'.released[r] == s.released[r];
      }
      SentLater(schedule, n, s'.released[r].message);
    }
  }

  lemma {:induction false} RunOnlySent(s0: T.State, schedule: seq<T.Action>)
    requires T.Inv(s0) && OnlySent(s0, [])
    ensures OnlySent(TI.Run(s0, schedule), schedule)
    decreases |schedule|
  {
    if schedule != [] {
      RunOnlySent(s0, schedule[..|schedule| - 1]);
      StepOnlySent(TI.Run(s0, schedule[..|schedule| - 1]), schedule);
    }
  }

  /** The payload is what DataStream writes for a value on a machine of some byte order. */
  ghost predicate Serialized(m: T.Message, v: Value, ty: Type, orders: Orders, w: ByteOrder) {
    Typed(v, ty, orders) && m.payload == Encode(v, ty, MachineOf(w))
  }

  ghost predicate AllSerialized(schedule: seq<T.Action>, ty: Type, orders: Orders, w: ByteOrder) {
    forall m :: Sent(schedule, m) ==> exists v :: Serialized(m, v, ty, orders, w)
  }

  lemma PayloadParses(m: T.Message, v: Value, ty: Type, orders: Orders, w: ByteOrder, r: ByteOrder)
    requires AllOrderings(orders) && Serialized(m, v, ty, orders, w)
    ensures Decode(ty, SortedBy(orders), MachineOf(r), m.payload, 0) == Some((v, |m.payload|))
  {
    assert m.payload[0..|m.payload|] == m.payload;
    ReadingInvertsWriting(v, ty, orders, w, r, m.payload, 0);
  }

  /**
   From value to value: if everything transmitted on a channel is the serialized form of some value of the
   channel's type, then whatever the interleaving of transmitters and readers, what a reader parses out of the
   payload it was notified of is exactly the value of one single completed Transmit, the notified one or a
   later one to the same block, and the parser uses up the payload to its last byte.
   */
  lemma ReaderParsesSentValue(
    s0: T.State, schedule: seq<T.Action>, t: nat, ty: Type, orders: Orders, w: ByteOrder, r: ByteOrder)
    returns (v: Value)
    requires AllOrderings(orders) && AllSerialized(schedule, ty, orders, w)
    requires T.Inv(s0) && OnlySent(s0, [])
    requires t < |TI.Run(s0, schedule).threads| && TI.Run(s0, schedule).threads[t].Received?
    ensures var s := TI.Run(s0, schedule);
            var x := s.threads[t];
            && x.n < |s.notes| && s.notes[x.n].release <= x.r < |s.released|
            && s.released[x.r].block == s.notes[x.n].block
            && Sent(schedule, s.released[x.r].message)
            && Serialized(s.released[x.r].message, v, ty, orders, w)
            && Decode(ty, SortedBy(orders), MachineOf(r), x.payload, 0) == Some((v, |x.payload|))
  {
    RunOnlySent(s0, schedule);
    TP.ReaderGetsOneWholeMessage(s0, schedule, t);
    var s := TI.Run(s0, schedule);
    var m := s.released[s.threads[t].r].message;
    v :| Serialized(m, v, ty, orders, w);
    PayloadParses(m, v, ty, orders, w, r);
  }

  /** At the start nothing has been sent. */
  lemma InitOnlySent(realMsgSize: nat, threads: nat)
    ensures T.Inv(T.Init(ConfFor(realMsgSize), threads)) && OnlySent(T.Init(ConfFor(realMsgSize), threads), [])
  {
    TI.InitInv(realMsgSize, threads);
  }
}
