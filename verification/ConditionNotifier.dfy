/**
 The notifier of transport/shm/notifier/condition_notifier.cpp as a process sees it while no other one is at
 work: arrays updated in place, and a polling loop with a timeout.
 */
module ConditionNotifierClass {
  import opened Wrappers
  import opened Modular
  import opened NotifierProtocol

  /** The largest ticket below `n` that belongs in slot `i`. */
  function Latest(n: nat, i: nat): (k: nat)
    requires i < n && i < BUF_LENGTH
    ensures k < n && k % BUF_LENGTH == i && n <= k + BUF_LENGTH
  {
    var k := n - 1 - (n - 1 - i) % BUF_LENGTH;
    assert k == i + (n - 1 - i) / BUF_LENGTH * BUF_LENGTH;
    ShiftedResidue(i, (n - 1 - i) / BUF_LENGTH, BUF_LENGTH);
    k
  }

  lemma LatestIsLatest(n: nat, i: nat, k: nat)
    requires i < n && i < BUF_LENGTH && k < n && k % BUF_LENGTH == i
    ensures k <= Latest(n, i) && (n <= k + BUF_LENGTH ==> k == Latest(n, i))
  {
    var m := Latest(n, i);
    if m < k {
      DistinctResidues(m, k, BUF_LENGTH);
    } else if k < m && n <= k + BUF_LENGTH {
      DistinctResidues(k, m, BUF_LENGTH);
    }
  }

  /** The shared memory of the notifier. */
  class Indicator {
    var nextSeq: nat
    const infos: array<Info>
    const seqs: array<nat>
    /** The info of every ticket so far. */
    ghost var announced: seq<Info>

    /** Every slot holds its latest ticket, with that ticket's info. */
    ghost predicate Valid()
      reads this, infos, seqs
    {
      && infos.Length == seqs.Length == BUF_LENGTH
      && |announced| == nextSeq
      && (forall i :: 0 <= i < BUF_LENGTH && i < nextSeq ==>
            seqs[i] == Latest(nextSeq, i) && infos[i] == announced[seqs[i]])
      && (forall i :: 0 <= i < BUF_LENGTH && nextSeq <= i ==> seqs[i] == 0)
    }

    constructor ()
      ensures Valid() && announced == [] && fresh(infos) && fresh(seqs)
    {
      nextSeq, announced := 0, [];
      infos := new Info[BUF_LENGTH](i => [0, 0, 0]);
      seqs := new nat[BUF_LENGTH](i => 0);
    }
  }

  class ConditionNotifier {
    const indicator: Indicator
    var nextSeq: nat
    var isShutdown: bool

    ghost predicate Valid()
      reads this, indicator, indicator.infos, indicator.seqs
    {
      indicator.Valid() && nextSeq <= indicator.nextSeq
    }

    /** A process attaches to the ring: it will hear of tickets drawn from now on. */
    constructor (indicator: Indicator)
      requires indicator.Valid()
      ensures Valid() && this.indicator == indicator && nextSeq == indicator.nextSeq && !isShutdown
    {
      this.indicator := indicator;
      nextSeq := indicator.nextSeq;
      isShutdown := false;
    }

    method Notify(info: Info) returns (ok: bool)
      requires Valid()
      modifies indicator`nextSeq, indicator`announced, indicator.infos, indicator.seqs
      ensures Valid() && ok == !isShutdown
      ensures indicator.announced == if ok then old(indicator.announced) + [info] else old(indicator.announced)
    {
      if isShutdown {
        return false;
      }
      var ticket := indicator.nextSeq;
      indicator.nextSeq := ticket + 1;
      var idx := ticket % BUF_LENGTH;
      indicator.infos[idx] := info;
      indicator.seqs[idx] := ticket;
      indicator.announced := indicator.announced + [info];
      forall i | 0 <= i < BUF_LENGTH && i < indicator.nextSeq
        ensures indicator.seqs[i] == Latest(ticket + 1, i)
      {
        if i == idx {
          LatestIsLatest(ticket + 1, i, ticket);
        } else {
          LatestIsLatest(ticket + 1, i, Latest(ticket, i));
        }
      }
      return true;
    }

    /**
     Delivers the info of the latest ticket that shares a slot with the expected one: that is the expected
     one itself unless the listener has fallen more than the ring size behind. Gives up iff the listener
     has seen everything or has shut down.
     */
    method Listen(timeoutMs: int) returns (info: Option<Info>)
      requires Valid()
      modifies this`nextSeq
      ensures Valid()
      ensures info.None? <==> isShutdown || old(nextSeq) == indicator.nextSeq
      ensures info.None? ==> nextSeq == old(nextSeq)
      ensures info.Some? ==>
                var ticket := nextSeq - 1;
                && ticket == Latest(indicator.nextSeq, old(nextSeq) % BUF_LENGTH)
                && info.value == indicator.announced[ticket]
                && (indicator.nextSeq <= old(nextSeq) + BUF_LENGTH <==> ticket == old(nextSeq))
    {
      var timeoutUs := timeoutMs * 1000;
      while !isShutdown
        invariant nextSeq == old(nextSeq)
        invariant timeoutUs < timeoutMs * 1000 ==> nextSeq == indicator.nextSeq
        decreases timeoutUs
      {
        var newest := indicator.nextSeq;
        if newest != nextSeq {
          var idx := nextSeq % BUF_LENGTH;
          var actual := indicator.seqs[idx];
          LatestIsLatest(newest, idx, nextSeq);
          if actual >= nextSeq {
            if newest <= nextSeq + BUF_LENGTH { LatestIsLatest(newest, idx, nextSeq); }
            nextSeq := actual + 1;
            return Some(indicator.infos[idx]);
          }
        }
        if timeoutUs > 0 {
          timeoutUs := timeoutUs - 50;
        } else {
          return None;
        }
      }
      return None;
    }
  }
}
