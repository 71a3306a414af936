/** What a whole registration by common/global_data.cpp has done when it returns, and what it does undisturbed. */
module RegistrationCalls {
  import Runs
  import opened Wrappers
  import opened Bits
  import opened GlobalDataModel
  import opened AtomicHashMapProperties
  import opened RegistrationProtocol
  import opened RegistrationProperties
  import opened RegistrationCollision
  import T = AtomicHashMapProtocol

  /** A client with `name` that has not stored it yet. */
  predicate Seeking(s: State, t: nat, name: string) {
    && t < |s.clients| == |s.table.threads| && !s.clients[t].Out? && s.clients[t].name == name
    && !(s.clients[t].Storing? && s.table.threads[t].Returned?)
  }

  /** A client whose Set has returned. */
  predicate HasStored(s: State, t: nat, r: Registration) {
    t < |s.clients| == |s.table.threads| && s.clients[t] == Storing(r.name, r.id) && s.table.threads[t].Returned?
  }

  lemma BeganSeeking(s: State, t: nat, c: Client)
    requires Inv(s) && t < |s.clients| && Resting(s.table.threads[t]) && !c.Out? && c.id < WORD
    requires c.Reading? ==> s.table.history != [] && c.id in Latest(s.table)
    ensures Seeking(Begin(s, t, c), t, c.name)
  {
    BeginKeepsInv(s, t, c);
  }

  lemma RegisterBegins(s: State, t: nat, name: string)
    requires Inv(s) && t < |s.clients| && s.clients[t].Out?
    ensures var s' := Step(s, Action(t, Register(name)));
            Seeking(s', t, name) && s'.stored == s.stored && s'.answered == s.answered
  {
    assert ClientOk(s, t);
    ProbeDistance(s.hash(name), 0);
    BeganSeeking(s, t, Asking(name, Probe(s.hash(name), 0)));
  }

  lemma DecidedSeeking(s: State, t: nat, name: string)
    requires Inv(s) && Seeking(s, t, name) && s.table.threads[t].Returned?
    ensures var s' := Decide(s, t, s.table.threads[t].answer);
            Seeking(s', t, name) && s'.stored == s.stored && s'.answered == s.answered
  {
    var seen := AnswerAt(s, t);
    assert ClientOk(s, t);
    var id := s.clients[t].id;
    if s.clients[t].Asking? {
      if id in s.table.history[seen] {
        IdsStay(s.table.history, s.stored, seen, |s.table.history| - 1, id);
        BeganSeeking(s, t, Reading(name, id));
      } else {
        BeganSeeking(s, t, Storing(name, id));
      }
    } else {
      GetFinds(s, t);
      if s.table.history[seen][id] == name {
        BeganSeeking(s, t, Storing(name, id));
      } else {
        BeganSeeking(s, t, Asking(name, Increment(id)));
      }
    }
  }

  /** A registration goes on until its Set has stored its own name. */
  lemma SeekingStep(s: State, t: nat, e: Event, name: string)
    requires Inv(s) && Seeking(s, t, name)
    ensures var s' := Step(s, Action(t, e));
            && s'.answered == s.answered
            && if Seeking(s', t, name) then s'.stored == s.stored
               else var r := Registration(name, s.clients[t].id);
                    HasStored(s', t, r) && s'.stored == s.stored + [r]
  {
    assert ClientOk(s, t);
    if e.Advance? {
      if s.table.threads[t].Returned? {
        DecidedSeeking(s, t, name);
      } else {
        WorkKeepsInv(s, t);
      }
    }
  }

  /** Then it answers with the id at which it has stored it. */
  lemma StoredStep(s: State, t: nat, e: Event, r: Registration)
    requires Inv(s) && HasStored(s, t, r)
    ensures var s' := Step(s, Action(t, e));
            && t < |s'.clients| && s'.stored == s.stored
            && if s'.clients[t].Out? then s'.answered == s.answered + [r]
               else HasStored(s', t, r) && s'.answered == s.answered
  {
    var seen := AnswerAt(s, t);
  }

  lemma OthersWait(s: State, a: Action, t: nat)
    requires Inv(s) && t < |s.clients| && a.thread != t
    ensures var s' := Step(s, a);
            && |s'.clients| == |s.clients| == |s.table.threads| == |s'.table.threads|
            && s'.clients[t] == s.clients[t] && s'.table.threads[t] == s.table.threads[t]
  {
    var u := a.thread;
    if u < |s.clients| {
      StepKeepsInv(s, a);
      assert ClientOk(s, u);
      if a.event.Register? {
        if s.clients[u].Out? { TableBegins(s.table, u, CallOf(Asking(a.event.name, Probe(s.hash(a.event.name), 0)))); }
      } else if !s.clients[u].Out? {
        if s.table.threads[u].Returned? {
          DecideSpares(s, u, t);
        } else {
          TableWorks(s.table, u);
        }
      }
    }
  }

  lemma DecideSpares(s: State, u: nat, t: nat)
    requires Inv(s) && t < |s.clients| && u < |s.clients| && u != t && s.table.threads[u].Returned?
    ensures var s' := Decide(s, u, s.table.threads[u].answer);
            && |s'.clients| == |s.clients| == |s.table.threads| == |s'.table.threads|
            && s'.clients[t] == s.clients[t] && s'.table.threads[t] == s.table.threads[t]
  {
    match (s.clients[u], s.table.threads[u].answer)
    case (Asking(name, id), Present(found)) =>
      TableBegins(s.table, u, CallOf(if found then Reading(name, id) else Storing(name, id)));
    case (Reading(name, id), Value(Some(other))) =>
      TableBegins(s.table, u, CallOf(if other == name then Storing(name, id) else Asking(name, Increment(id))));
    case _ =>
  }

  /** Thread `t` takes up the registration with step `i`, is busy with it after that, and is out of it at `j`. */
  predicate RegistersBetween(run: seq<State>, schedule: seq<Action>, t: nat, name: string, i: nat, j: nat) {
    && i < j <= |schedule| < |run| && schedule[i] == Action(t, Register(name))
    && t < |run[i].clients| && run[i].clients[t].Out?
    && (forall m :: i < m < j ==> t < |run[m].clients| && !run[m].clients[t].Out?)
    && t < |run[j].clients| && run[j].clients[t].Out?
  }

  /** In none of its steps from `i` to before `j` other than `n` has thread `t` stored or answered anything. */
  predicate NothingElse(run: seq<State>, schedule: seq<Action>, t: nat, i: nat, j: nat, n: int)
    requires j <= |schedule| < |run|
  {
    forall m :: i <= m < j && m != n && schedule[m].thread == t ==>
      run[m + 1].stored == run[m].stored && run[m + 1].answered == run[m].answered
  }

  /** Step `n` of thread `t` stores the name under the id. */
  predicate StoresAt(run: seq<State>, schedule: seq<Action>, t: nat, r: Registration, n: nat)
    requires n < |schedule| < |run|
  {
    schedule[n].thread == t && run[n + 1].stored == run[n].stored + [r] && run[n + 1].answered == run[n].answered
  }

  predicate RegistrationAt(
    run: seq<State>, schedule: seq<Action>, t: nat, name: string, i: nat, m: nat, n: int, id: nat)
    requires i < m <= |schedule| < |run|
  {
    && NothingElse(run, schedule, t, i, m, n)
    && if n < 0 then Seeking(run[m], t, name)
       else && i < n < m && StoresAt(run, schedule, t, Registration(name, id), n)
            && HasStored(run[m], t, Registration(name, id))
  }

  lemma RegistrationGoesOn(
    run: seq<State>, schedule: seq<Action>, t: nat, name: string, i: nat, m: nat, n: int, id: nat)
    returns (n': int, id': nat)
    requires Execution(run, schedule) && i < m < |schedule| && RegistrationAt(run, schedule, t, name, i, m, n, id)
    requires t < |run[m + 1].clients| && !run[m + 1].clients[t].Out?
    ensures RegistrationAt(run, schedule, t, name, i, m + 1, n', id')
  {
    n', id' := n, id;
    StepAt(run, schedule, m);
    if schedule[m].thread != t {
      OthersWait(run[m], schedule[m], t);
    } else if n < 0 {
      SeekingStep(run[m], t, schedule[m].event, name);
      if !Seeking(run[m + 1], t, name) {
        n', id' := m, run[m].clients[t].id;
      }
    } else {
      StoredStep(run[m], t, schedule[m].event, Registration(name, id));
    }
  }

  lemma RegistrationEnds(
    run: seq<State>, schedule: seq<Action>, t: nat, name: string, i: nat, m: nat, n: int, id: nat)
    requires Execution(run, schedule) && i < m < |schedule| && RegistrationAt(run, schedule, t, name, i, m, n, id)
    requires t < |run[m + 1].clients| && run[m + 1].clients[t].Out?
    ensures i < n < m && schedule[m].thread == t && run[m + 1].stored == run[m].stored
    ensures run[m + 1].answered == run[m].answered + [Registration(name, id)]
  {
    StepAt(run, schedule, m);
    if schedule[m].thread != t {
      OthersWait(run[m], schedule[m], t);
    } else if n < 0 {
      SeekingStep(run[m], t, schedule[m].event, name);
    } else {
      StoredStep(run[m], t, schedule[m].event, Registration(name, id));
    }
  }

  /** A registration that has returned has stored its name once, and answers with the id at which it has. */
  lemma RegistrationOutcome(run: seq<State>, schedule: seq<Action>, t: nat, name: string, i: nat, j: nat)
    returns (n: nat, id: nat)
    requires Execution(run, schedule) && RegistersBetween(run, schedule, t, name, i, j)
    ensures i < n < j - 1 && StoresAt(run, schedule, t, Registration(name, id), n)
    ensures NothingElse(run, schedule, t, i, j - 1, n)
    ensures schedule[j - 1].thread == t && run[j].stored == run[j - 1].stored
    ensures run[j].answered == run[j - 1].answered + [Registration(name, id)]
  {
    StepAt(run, schedule, i);
    RegisterBegins(run[i], t, name);
    var m, stored := i + 1, -1;
    id := 0;
    while m < j - 1
      invariant i < m < j && RegistrationAt(run, schedule, t, name, i, m, stored, id)
    {
      stored, id := RegistrationGoesOn(run, schedule, t, name, i, m, stored, id);
      m := m + 1;
    }
    RegistrationEnds(run, schedule, t, name, i, m, stored, id);
    n := stored;
  }

  // ----- a registration left alone

  /** The call in progress has begun with the table as it is. */
  ghost predicate JustBegun(s: State, t: nat) {
    && t < |s.clients| == |s.table.threads| && !s.clients[t].Out? && !Resting(s.table.threads[t])
    && s.table.history != [] && s.table.threads[t].l.start == |s.table.history| - 1
  }

  /** The call's answer, if nobody else takes steps, is the table's as it is. */
  lemma AnswersNow(s: State, t: nat) returns (run: seq<State>, schedule: seq<Action>)
    requires Inv(s) && JustBegun(s, t) && !s.clients[t].Storing?
    ensures run != [] && Leads(run, schedule, s, run[|run| - 1]) && Completes(s, run[|run| - 1], t)
    ensures run[|run| - 1].table.threads[t].answer == Reply(Latest(s.table), CallOf(s.clients[t]))
  {
    run, schedule := CallCompletes(s, t);
    var seen := AnswerAt(run[|run| - 1], t);
  }

  lemma BeginsNow(s: State, t: nat, c: Client)
    requires Inv(s) && t < |s.clients| && Resting(s.table.threads[t]) && !c.Out? && c.id < WORD
    requires c.Reading? ==> s.table.history != [] && c.id in Latest(s.table)
    ensures var s' := Begin(s, t, c);
            && Inv(s') && JustBegun(s', t) && s' == s.(table := s'.table, clients := s.clients[t := c])
            && s'.table.history == s.table.history
  {
    BeginKeepsInv(s, t, c);
  }

  /** Thread `t` has registered the name: as one step of the plain map would. */
  ghost predicate Registered(s: State, s': State, t: nat, name: string, id: nat) {
    && t < |s.clients| && s'.clients == s.clients[t := Out] && s'.hash == s.hash
    && s'.stored == s.stored + [Registration(name, id)] && s'.answered == s.answered + [Registration(name, id)]
    && s.table.history != [] && s'.table.history != []
    && Registers(Latest(s.table), s.hash, name, id, Latest(s'.table))
  }

  /** The first `k` probed ids are taken by other names, and id `id` is the next. */
  ghost predicate Probing(s: State, name: string, id: nat, k: nat) {
    && s.table.history != [] && k < WORD && id == Probe(s.hash(name), k)
    && Consistent(Latest(s.table), s.hash) && AllOthers(Latest(s.table), s.hash(name), k, name)
  }

  /** The Set of a name at an id that is free or has the name already, and the answer. */
  lemma StoresNow(s: State, t: nat, name: string, id: nat, k: nat) returns (run: seq<State>, schedule: seq<Action>)
    requires Inv(s) && JustBegun(s, t) && s.clients[t] == Storing(name, id) && Probing(s, name, id, k)
    requires id in Latest(s.table) ==> Latest(s.table)[id] == name
    ensures run != [] && Leads(run, schedule, s, run[|run| - 1]) && Registered(s, run[|run| - 1], t, name, id)
  {
    run, schedule := CallCompletes(s, t);
    var s2, a := run[|run| - 1], Action(t, Advance);
    InvAt(run, schedule, |schedule|);
    AnswersStored(s, s2, t, name, id, k);
    Runs.Append<State, Action>(Inv, Follows, run, schedule, a, Step(s2, a));
    run, schedule := run + [Step(s2, a)], schedule + [a];
  }

  lemma AnswersStored(s: State, s2: State, t: nat, name: string, id: nat, k: nat)
    requires Completes(s, s2, t) && s.clients[t] == Storing(name, id) && Probing(s, name, id, k)
    requires id in Latest(s.table) ==> Latest(s.table)[id] == name
    ensures var s3 := Step(s2, Action(t, Advance)); Inv(s3) && Registered(s, s3, t, name, id)
  {
    var seen := AnswerAt(s2, t);
    DecideKeepsInv(s2, t);
    ProbingRegisters(Latest(s.table), s.hash, name, k);
    LastStored(s, s2, name, id);
  }

  lemma LastStored(s: State, s2: State, name: string, id: nat)
    requires Inv(s) && Inv(s2) && s2.stored == s.stored + [Registration(name, id)]
    requires s.table.history != []
    ensures s2.table.history != []
    ensures Latest(s2.table) == Latest(s.table)[id := name]
  {
    SameHistory(s.table.history, s2.table.history, s.stored, s2.stored, |s.stored|);
  }

  /** The history is determined by what was stored. */
  lemma {:induction false} SameHistory(
    h: seq<map<int, string>>, h': seq<map<int, string>>, stored: seq<Registration>, stored': seq<Registration>, k: nat)
    requires Built(h, stored) && Built(h', stored') && stored <= stored' && k <= |stored|
    ensures h[k] == h'[k]
  {
    if k > 0 {
      SameHistory(h, h', stored, stored', k - 1);
      assert h[k - 1 + 1] == h[k - 1][stored[k - 1].id := stored[k - 1].name];
      assert h'[k - 1 + 1] == h'[k - 1][stored'[k - 1].id := stored'[k - 1].name];
    }
  }

  /** A client that has its answer makes its next call. */
  lemma DecidesNow(s: State, t: nat, c: Client)
    requires Inv(s) && t < |s.clients| && !s.clients[t].Out? && s.table.threads[t].Returned? && !c.Out? && c.id < WORD
    requires c.Reading? ==> s.table.history != [] && c.id in Latest(s.table)
    requires Decide(s, t, s.table.threads[t].answer) == Begin(s, t, c)
    ensures var s' := Step(s, Action(t, Advance));
            && Inv(s') && JustBegun(s', t) && s' == s.(table := s'.table, clients := s.clients[t := c])
            && s'.table.history == s.table.history
  {
    BeginsNow(s, t, c);
  }

  lemma RegisteredFrom(s: State, s1: State, s': State, t: nat, name: string, id: nat)
    requires Registered(s1, s', t, name, id) && t < |s.clients| && s1.clients == s.clients[t := s1.clients[t]]
    requires s1.hash == s.hash && s1.stored == s.stored && s1.answered == s.answered
    requires s1.table.history == s.table.history
    ensures Registered(s, s', t, name, id)
  {}

  /** A step with which a client goes on to its next call, in front of a run. */
  lemma GoOn(
    s: State, t: nat, first: seq<State>, start: seq<Action>, rest: seq<State>, more: seq<Action>)
    returns (run: seq<State>, schedule: seq<Action>)
    requires first != [] && Leads(first, start, s, first[|first| - 1]) && Inv(first[|first| - 1])
    requires rest != [] && Leads(rest, more, Step(first[|first| - 1], Action(t, Advance)), rest[|rest| - 1])
    ensures run != [] && Leads(run, schedule, s, rest[|rest| - 1]) && run[|run| - 1] == rest[|rest| - 1]
  {
    var mid, a := first[|first| - 1], Action(t, Advance);
    Prepend(mid, a, rest, more);
    Join(first, start, [mid] + rest, [a] + more);
    run, schedule := first + ([mid] + rest)[1..], start + ([a] + more);
  }

  /** The answer has come, and it says that the name can be stored at the id. */
  lemma DecidesToStore(s: State, s1: State, t: nat, name: string, id: nat, k: nat)
    returns (rest: seq<State>, more: seq<Action>)
    requires Completes(s, s1, t) && !s.clients[t].Storing? && Probing(s, name, id, k)
    requires Decide(s1, t, s1.table.threads[t].answer) == Begin(s1, t, Storing(name, id))
    requires id in Latest(s.table) ==> Latest(s.table)[id] == name
    ensures rest != [] && Leads(rest, more, Step(s1, Action(t, Advance)), rest[|rest| - 1])
    ensures Registered(s, rest[|rest| - 1], t, name, id)
  {
    DecidesNow(s1, t, Storing(name, id));
    var s2 := Step(s1, Action(t, Advance));
    rest, more := StoresNow(s2, t, name, id, k);
    RegisteredFrom(s, s2, rest[|rest| - 1], t, name, id);
  }

  /**
   Left alone, a registration that is at the `k`-th probe, the ids before it taken by other names, registers its
   name as one step of the plain map would.
   */
  lemma {:induction false} SearchAlone(s: State, t: nat, name: string, id: nat, k: nat)
    returns (run: seq<State>, schedule: seq<Action>, found: nat)
    requires Inv(s) && JustBegun(s, t) && s.clients[t] == Asking(name, id) && Probing(s, name, id, k)
    requires |Latest(s.table)| < WORD
    ensures run != [] && Leads(run, schedule, s, run[|run| - 1]) && Registered(s, run[|run| - 1], t, name, found)
    decreases |Latest(s.table)| - k, 1
  {
    var m := Latest(s.table);
    var first, start := AnswersNow(s, t);
    var s1 := first[|first| - 1];
    InvAt(first, start, |start|);
    var rest, more;
    if id !in m {
      rest, more := DecidesToStore(s, s1, t, name, id, k);
      found := id;
    } else {
      DecidesNow(s1, t, Reading(name, id));
      var s2 := Step(s1, Action(t, Advance));
      rest, more, found := ReadAlone(s2, t, name, id, k);
      RegisteredFrom(s, s2, rest[|rest| - 1], t, name, found);
    }
    run, schedule := GoOn(s, t, first, start, rest, more);
  }

  lemma {:induction false} ReadAlone(s: State, t: nat, name: string, id: nat, k: nat)
    returns (run: seq<State>, schedule: seq<Action>, found: nat)
    requires Inv(s) && JustBegun(s, t) && s.clients[t] == Reading(name, id) && Probing(s, name, id, k)
    requires |Latest(s.table)| < WORD && id in Latest(s.table)
    ensures run != [] && Leads(run, schedule, s, run[|run| - 1]) && Registered(s, run[|run| - 1], t, name, found)
    decreases |Latest(s.table)| - k, 0
  {
    var m := Latest(s.table);
    var first, start := AnswersNow(s, t);
    var s1 := first[|first| - 1];
    InvAt(first, start, |start|);
    var rest, more;
    if m[id] == name {
      rest, more := DecidesToStore(s, s1, t, name, id, k);
      found := id;
    } else {
      NextProbe(s, name, id, k);
      DecidesNow(s1, t, Asking(name, Increment(id)));
      var s2 := Step(s1, Action(t, Advance));
      rest, more, found := SearchAlone(s2, t, name, Increment(id), k + 1);
      RegisteredFrom(s, s2, rest[|rest| - 1], t, name, found);
    }
    run, schedule := GoOn(s, t, first, start, rest, more);
  }

  lemma NextProbe(s: State, name: string, id: nat, k: nat)
    requires Probing(s, name, id, k) && id in Latest(s.table) && Latest(s.table)[id] != name && |Latest(s.table)| < WORD
    ensures k < |Latest(s.table)| && Probing(s, name, Increment(id), k + 1)
  {
    var m, start := Latest(s.table), s.hash(name);
    MoreIdsThanProbes(m, start, k, name);
    OneMoreOther(m, start, k + 1, name);
  }

  /**
   From every reachable state in which no name has been overwritten and the table is not full, a registration left
   alone returns, with what registering on the plain map determines.
   */
  lemma RegisterAlone(s: State, t: nat, name: string) returns (run: seq<State>, schedule: seq<Action>, id: nat)
    requires GrowingInv(s) && Growing(s.table.history) && t < |s.clients| && s.clients[t].Out?
    requires s.table.history != [] && |Latest(s.table)| < WORD
    ensures run != [] && Leads(run, schedule, s, run[|run| - 1]) && Registered(s, run[|run| - 1], t, name, id)
  {
    var c, a := Asking(name, Probe(s.hash(name), 0)), Action(t, Register(name));
    assert ClientOk(s, t);
    BeginsNow(s, t, c);
    var s1 := Step(s, a);
    run, schedule, id := SearchAlone(s1, t, name, c.id, 0);
    RegisteredFrom(s, s1, run[|run| - 1], t, name, id);
    Prepend(s, a, run, schedule);
    run, schedule := [s] + run, [a] + schedule;
  }
}
