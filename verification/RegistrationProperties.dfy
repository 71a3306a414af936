/**
 When ids and names correspond one to one although several threads register at once: exactly as long as no Set
 overwrites another name. One registration at a time never does; two that overlap can.
 */
module RegistrationProperties {
  import Modular
  import opened Wrappers
  import opened Bits
  import opened GlobalDataModel
  import opened AtomicHashMapProperties
  import opened RegistrationProtocol
  import T = AtomicHashMapProtocol

  /** Every name is where it was. */
  ghost predicate Keeps(m: map<int, string>, m': map<int, string>) {
    forall id :: id in m ==> id in m' && m'[id] == m[id]
  }

  /** No Set has overwritten another name. */
  ghost predicate Growing(history: seq<map<int, string>>) {
    forall i :: 0 <= i < |history| - 1 ==> Keeps(history[i], history[i + 1])
  }

  /** Registrations have the same id exactly if they have the same name. */
  ghost predicate OneToOne(done: seq<Registration>) {
    forall i, j :: 0 <= i < |done| && 0 <= j < |done| ==> (done[i].name == done[j].name <==> done[i].id == done[j].id)
  }

  lemma {:induction false} KeepsLater(history: seq<map<int, string>>, i: nat, j: nat)
    requires Growing(history) && i <= j < |history|
    ensures Keeps(history[i], history[j])
    decreases j
  {
    if i < j {
      KeepsLater(history, i, j - 1);
      assert Keeps(history[j - 1], history[j - 1 + 1]);
    }
  }

  /** What is in the table was stored there. */
  lemma {:induction false} StoredSome(history: seq<map<int, string>>, stored: seq<Registration>, j: nat, id: int)
    returns (i: nat)
    requires Built(history, stored) && j < |history| && id in history[j]
    ensures i < j && stored[i].id == id && stored[i].name == history[j][id]
    decreases j
  {
    assert 0 < j;
    assert history[j - 1 + 1] == history[j - 1][stored[j - 1].id := stored[j - 1].name];
    if stored[j - 1].id == id {
      i := j - 1;
    } else {
      i := StoredSome(history, stored, j - 1, id);
    }
  }

  /** A name overwritten leaves two names with one id. */
  lemma OneToOneGrows(history: seq<map<int, string>>, stored: seq<Registration>)
    requires Built(history, stored) && OneToOne(stored)
    ensures Growing(history)
  {
    forall i | 0 <= i < |history| - 1
      ensures Keeps(history[i], history[i + 1])
    {
      assert history[i + 1] == history[i][stored[i].id := stored[i].name];
      forall id | id in history[i]
        ensures id in history[i + 1] && history[i + 1][id] == history[i][id]
      {
        var j := StoredSome(history, stored, i, id);
      }
    }
  }

  /** What has been stored is still there. */
  lemma StoredStays(history: seq<map<int, string>>, stored: seq<Registration>, i: nat)
    requires Built(history, stored) && Growing(history) && i < |stored|
    ensures var m := history[|history| - 1]; stored[i].id in m && m[stored[i].id] == stored[i].name
  {
    assert history[i + 1] == history[i][stored[i].id := stored[i].name];
    KeepsLater(history, i + 1, |history| - 1);
  }

  // ----- while no name is overwritten

  /** The ids the client has passed are taken by other names. */
  ghost predicate Searched(m: map<int, string>, hash: string -> int, c: Client) {
    c.Out? || (c.id < WORD && AllOthers(m, hash(c.name), Distance(hash(c.name), c.id), c.name))
  }

  ghost predicate Orderly(s: State) {
    && s.table.history != [] && Consistent(Latest(s.table), s.hash)
    && forall t :: 0 <= t < |s.clients| ==> Searched(Latest(s.table), s.hash, s.clients[t])
  }

  ghost predicate GrowingInv(s: State) {
    Inv(s) && (Growing(s.table.history) ==> Orderly(s))
  }

  lemma SearchedStays(m: map<int, string>, m': map<int, string>, hash: string -> int, c: Client)
    requires Searched(m, hash, c) && Keeps(m, m')
    ensures Searched(m', hash, c)
  {
    if !c.Out? {
      var d := Distance(hash(c.name), c.id);
      forall e | 0 <= e < d
        ensures Probe(hash(c.name), e) in m' && m'[Probe(hash(c.name), e)] != c.name
      {
        assert Probe(hash(c.name), e) in m;
      }
    }
  }

  /** The next id after one that another name has. */
  lemma SearchedOn(m: map<int, string>, hash: string -> int, name: string, id: nat)
    requires Searched(m, hash, Asking(name, id)) && id in m && m[id] != name
    ensures Searched(m, hash, Asking(name, Increment(id)))
  {
    var start, d := hash(name), Distance(hash(name), id);
    DistanceProbe(start, id);
    assert Probe(start, d + 1) == Increment(id);
    if d + 1 < WORD {
      ProbeDistance(start, d + 1);
      OneMoreOther(m, start, d + 1, name);
    } else {
      ProbeIsSum(start, WORD);
      Modular.ShiftedResidue(start, 1, WORD);
      assert Probe(start, 0) == Increment(id);
      ProbeDistance(start, 0);
    }
  }

  /** Where a registration starts nothing has been passed yet. */
  lemma SearchedFirst(m: map<int, string>, hash: string -> int, name: string)
    ensures Searched(m, hash, Asking(name, Probe(hash(name), 0)))
  {
    ProbeDistance(hash(name), 0);
  }

  /** Storing without overwriting is what registering a name is to do. */
  lemma StoringRegisters(m: map<int, string>, hash: string -> int, name: string, id: nat)
    requires Consistent(m, hash) && Searched(m, hash, Storing(name, id)) && (id in m ==> m[id] == name)
    ensures Registers(m, hash, name, id, m[id := name]) && Consistent(m[id := name], hash)
  {
    DistanceProbe(hash(name), id);
    ProbingRegisters(m, hash, name, Distance(hash(name), id));
    RegistersKeepsConsistent(m, hash, name, id, m[id := name]);
  }

  lemma BeginKeepsGrowing(s: State, t: nat, c: Client)
    requires GrowingInv(s) && t < |s.clients| && Resting(s.table.threads[t]) && !c.Out? && c.id < WORD
    requires c.Reading? ==> c.id in Latest(s.table)
    requires Growing(s.table.history) ==> Searched(Latest(s.table), s.hash, c)
    ensures GrowingInv(Begin(s, t, c))
  {
    BeginKeepsInv(s, t, c);
  }

  /** If the answer to a query still holds, as it does while the table only grows, the search is as far as it says. */
  lemma DecideKeepsGrowing(s: State, t: nat)
    requires GrowingInv(s) && t < |s.clients| && !s.clients[t].Out? && s.table.threads[t].Returned?
    ensures GrowingInv(Decide(s, t, s.table.threads[t].answer))
  {
    var last := |s.table.history| - 1;
    var seen := AnswerAt(s, t);
    assert ClientOk(s, t);
    if Growing(s.table.history) {
      KeepsLater(s.table.history, seen, last);
    }
    match s.clients[t]
    case Asking(name, id) =>
      if id in s.table.history[seen] {
        IdsStay(s.table.history, s.stored, seen, last, id);
        BeginKeepsGrowing(s, t, Reading(name, id));
      } else {
        BeginKeepsGrowing(s, t, Storing(name, id));
      }
    case Reading(name, id) =>
      GetFinds(s, t);
      if s.table.history[seen][id] == name {
        BeginKeepsGrowing(s, t, Storing(name, id));
      } else {
        if Growing(s.table.history) {
          SearchedOn(Latest(s.table), s.hash, name, id);
        }
        BeginKeepsGrowing(s, t, Asking(name, Increment(id)));
      }
    case Storing(_, _) =>
      DecideKeepsInv(s, t);
  }

  lemma PrefixGrows(history: seq<map<int, string>>, longer: seq<map<int, string>>)
    requires Growing(longer) && history <= longer
    ensures Growing(history)
  {
    forall i | 0 <= i < |history| - 1
      ensures Keeps(history[i], history[i + 1])
    {
      assert Keeps(longer[i], longer[i + 1]);
    }
  }

  lemma WorkKeepsGrowing(s: State, t: nat)
    requires GrowingInv(s) && t < |s.clients| && !s.clients[t].Out? && !Resting(s.table.threads[t])
    ensures GrowingInv(Work(s, t))
  {
    var s' := Work(s, t);
    WorkKeepsInv(s, t);
    if Growing(s'.table.history) {
      PrefixGrows(s.table.history, s'.table.history);
      if s'.table.history != s.table.history {
        StoreKeepsOrderly(s, s', t);
      }
    }
  }

  lemma StoreKeepsOrderly(s: State, s': State, t: nat)
    requires Inv(s) && Orderly(s) && t < |s.clients| && !s.clients[t].Out? && !Resting(s.table.threads[t])
    requires s' == Work(s, t) && Worked(s.table, s'.table, t)
    requires Growing(s'.table.history) && s'.table.history != s.table.history
    ensures Orderly(s')
  {
    assert ClientOk(s, t);
    var m, last := Latest(s.table), |s.table.history| - 1;
    var Storing(name, id) := s.clients[t];
    assert Keeps(s'.table.history[last], s'.table.history[last + 1]);
    assert Latest(s'.table) == m[id := name] && Keeps(m, m[id := name]);
    StoringRegisters(m, s.hash, name, id);
    forall u | 0 <= u < |s'.clients|
      ensures Searched(Latest(s'.table), s.hash, s'.clients[u])
    {
      SearchedStays(m, m[id := name], s.hash, s.clients[u]);
    }
  }

  lemma StepKeepsGrowing(s: State, a: Action)
    requires GrowingInv(s)
    ensures GrowingInv(Step(s, a))
  {
    var t := a.thread;
    if t < |s.clients| {
      assert ClientOk(s, t);
      match a.event
      case Register(name) =>
        if s.clients[t].Out? {
          SearchedFirst(Latest(s.table), s.hash, name);
          BeginKeepsGrowing(s, t, Asking(name, Probe(s.hash(name), 0)));
        }
      case Advance =>
        if !s.clients[t].Out? {
          if s.table.threads[t].Returned? { DecideKeepsGrowing(s, t); } else { WorkKeepsGrowing(s, t); }
        }
    }
  }

  lemma {:induction false} GrowingAt(run: seq<State>, schedule: seq<Action>, i: nat)
    requires Execution(run, schedule) && GrowingInv(run[0]) && i < |run|
    ensures GrowingInv(run[i])
    decreases i
  {
    if i > 0 {
      GrowingAt(run, schedule, i - 1);
      StepAt(run, schedule, i - 1);
      StepKeepsGrowing(run[i - 1], schedule[i - 1]);
    }
  }

  lemma InitGrows(hash: string -> int, bits: nat, threads: nat)
    ensures GrowingInv(Init(hash, bits, threads)) && QuietInv(Init(hash, bits, threads))
  {
    InitInv(hash, bits, threads);
  }

  /**
   Registering from any number of threads: at every instant of every run ids and names stored correspond one to
   one exactly if no Set has overwritten another name; what a registration has returned has been stored; and as
   long as the correspondence holds every id stored leads to its name.
   */
  lemma OneToOneExactly(hash: string -> int, bits: nat, threads: nat, run: seq<State>, schedule: seq<Action>, i: nat)
    requires Execution(run, schedule) && run[0] == Init(hash, bits, threads) && i < |run|
    ensures var s := run[i];
            && (OneToOne(s.stored) <==> Growing(s.table.history))
            && (forall r :: r in s.answered ==> r in s.stored)
            && s.table.history != []
            && (OneToOne(s.stored) ==>
                  forall r :: r in s.stored ==> r.id in Latest(s.table) && Latest(s.table)[r.id] == r.name)
  {
    InitGrows(hash, bits, threads);
    GrowingAt(run, schedule, i);
    var s := run[i];
    if Growing(s.table.history) {
      GrowingIsOneToOne(s);
    }
    if OneToOne(s.stored) {
      OneToOneGrows(s.table.history, s.stored);
    }
  }

  lemma GrowingIsOneToOne(s: State)
    requires GrowingInv(s) && Growing(s.table.history)
    ensures OneToOne(s.stored)
    ensures forall r :: r in s.stored ==> r.id in Latest(s.table) && Latest(s.table)[r.id] == r.name
  {
    forall i | 0 <= i < |s.stored|
      ensures s.stored[i].id in Latest(s.table) && Latest(s.table)[s.stored[i].id] == s.stored[i].name
    {
      StoredStays(s.table.history, s.stored, i);
    }
  }

  // ----- one registration at a time

  /** Of any two threads at most one is registering. */
  predicate OneAtMost(s: State) {
    forall t, u :: 0 <= t < u < |s.clients| ==> s.clients[t].Out? || s.clients[u].Out?
  }

  /** What the only thread that registers has learned is still so. */
  ghost predicate Fresh(s: State, t: nat)
    requires t < |s.clients| == |s.table.threads| && s.table.history != []
  {
    match s.clients[t]
    case Out => true
    case Storing(name, id) => !s.table.threads[t].Returned? ==> id in Latest(s.table) ==> Latest(s.table)[id] == name
    case _ => !s.table.threads[t].Idle? && s.table.threads[t].l.start == |s.table.history| - 1
  }

  ghost predicate QuietInv(s: State) {
    && Inv(s) && s.table.history != [] && Growing(s.table.history)
    && forall t :: 0 <= t < |s.clients| ==> Fresh(s, t)
  }

  lemma BeginKeepsQuiet(s: State, t: nat, c: Client)
    requires QuietInv(s) && t < |s.clients| && Resting(s.table.threads[t]) && !c.Out? && c.id < WORD
    requires c.Reading? ==> c.id in Latest(s.table)
    requires c.Storing? ==> c.id in Latest(s.table) ==> Latest(s.table)[c.id] == c.name
    ensures QuietInv(Begin(s, t, c))
  {
    BeginKeepsInv(s, t, c);
    var s' := Begin(s, t, c);
    forall u | 0 <= u < |s'.clients|
      ensures Fresh(s', u)
    {
      assert Fresh(s, u);
    }
  }

  lemma AnswerKeepsQuiet(s: State, t: nat)
    requires QuietInv(s) && t < |s.clients| && s.clients[t].Storing? && s.table.threads[t].Returned?
    ensures QuietInv(Decide(s, t, s.table.threads[t].answer))
  {
    DecideKeepsInv(s, t);
    var s' := Decide(s, t, s.table.threads[t].answer);
    forall u | 0 <= u < |s'.clients|
      ensures Fresh(s', u)
    {
      assert Fresh(s, u);
    }
  }

  lemma DecideKeepsQuiet(s: State, t: nat)
    requires QuietInv(s) && t < |s.clients| && !s.clients[t].Out? && s.table.threads[t].Returned?
    ensures QuietInv(Decide(s, t, s.table.threads[t].answer))
  {
    var seen := AnswerAt(s, t);
    assert ClientOk(s, t) && Fresh(s, t);
    match s.clients[t]
    case Asking(name, id) =>
      if id in Latest(s.table) {
        BeginKeepsQuiet(s, t, Reading(name, id));
      } else {
        BeginKeepsQuiet(s, t, Storing(name, id));
      }
    case Reading(name, id) =>
      GetFinds(s, t);
      if Latest(s.table)[id] == name {
        BeginKeepsQuiet(s, t, Storing(name, id));
      } else {
        BeginKeepsQuiet(s, t, Asking(name, Increment(id)));
      }
    case Storing(_, _) => AnswerKeepsQuiet(s, t);
  }

  lemma OneMoreGrows(history: seq<map<int, string>>, m: map<int, string>)
    requires Growing(history) && history != [] && Keeps(history[|history| - 1], m)
    ensures Growing(history + [m])
  {
    var longer := history + [m];
    forall i | 0 <= i < |longer| - 1
      ensures Keeps(longer[i], longer[i + 1])
    {
      assert i < |history| - 1 ==> Keeps(history[i], history[i + 1]);
    }
  }

  lemma WorkKeepsQuiet(s: State, t: nat)
    requires QuietInv(s) && OneAtMost(s) && t < |s.clients| && !s.clients[t].Out? && !Resting(s.table.threads[t])
    ensures QuietInv(Work(s, t))
  {
    var s' := Work(s, t);
    WorkKeepsInv(s, t);
    assert ClientOk(s, t) && Fresh(s, t);
    if s'.table.history != s.table.history {
      OneMoreGrows(s.table.history, Latest(s'.table));
    }
    forall u | 0 <= u < |s'.clients|
      ensures Fresh(s', u)
    {
      assert Fresh(s, u);
      assert u != t ==> s.clients[u].Out?;
    }
  }

  lemma StepKeepsQuiet(s: State, a: Action)
    requires QuietInv(s) && OneAtMost(s)
    ensures QuietInv(Step(s, a))
  {
    var t := a.thread;
    if t < |s.clients| {
      assert ClientOk(s, t);
      match a.event
      case Register(name) => if s.clients[t].Out? { BeginKeepsQuiet(s, t, Asking(name, Probe(s.hash(name), 0))); }
      case Advance =>
        if !s.clients[t].Out? {
          if s.table.threads[t].Returned? { DecideKeepsQuiet(s, t); } else { WorkKeepsQuiet(s, t); }
        }
    }
  }

  lemma {:induction false} QuietAt(run: seq<State>, schedule: seq<Action>, i: nat)
    requires Execution(run, schedule) && QuietInv(run[0]) && i < |run|
    requires forall j :: 0 <= j < i ==> OneAtMost(run[j])
    ensures QuietInv(run[i])
    decreases i
  {
    if i > 0 {
      QuietAt(run, schedule, i - 1);
      StepAt(run, schedule, i - 1);
      StepKeepsQuiet(run[i - 1], schedule[i - 1]);
    }
  }

  /** If no two registrations overlap, ids and names correspond, whichever threads make them. */
  lemma OneToOneWithoutOverlap(
    hash: string -> int, bits: nat, threads: nat, run: seq<State>, schedule: seq<Action>, i: nat)
    requires Execution(run, schedule) && run[0] == Init(hash, bits, threads) && i < |run|
    requires forall j :: 0 <= j < i ==> OneAtMost(run[j])
    ensures OneToOne(run[i].stored)
  {
    InitGrows(hash, bits, threads);
    QuietAt(run, schedule, i);
    OneToOneExactly(hash, bits, threads, run, schedule, i);
  }
}
