/** Two registrations that overlap can give two names one id. */
module RegistrationCollision {
  import Runs
  import opened Wrappers
  import opened Bits
  import opened GlobalDataModel
  import opened AtomicHashMapProperties
  import opened RegistrationProtocol
  import opened RegistrationProperties
  import Progress = AtomicHashMapProgress
  import T = AtomicHashMapProtocol

  /** A run from one state to another. */
  ghost predicate Leads(run: seq<State>, schedule: seq<Action>, s: State, s': State) {
    Execution(run, schedule) && run[0] == s && run[|schedule|] == s'
  }

  lemma Prepend(s: State, a: Action, run: seq<State>, schedule: seq<Action>)
    requires Inv(s) && Execution(run, schedule) && run[0] == Step(s, a)
    ensures Leads([s] + run, [a] + schedule, s, run[|schedule|])
  {
    Runs.Prepend<State, Action>(Inv, Follows, s, a, run, schedule);
  }

  lemma Join(run: seq<State>, schedule: seq<Action>, run2: seq<State>, schedule2: seq<Action>)
    requires Execution(run, schedule) && Execution(run2, schedule2) && run2[0] == run[|schedule|]
    ensures Leads(run + run2[1..], schedule + schedule2, run[0], run2[|schedule2|])
  {
    Runs.Concat<State, Action>(Inv, Follows, run, schedule, run2, schedule2);
  }

  /** What the call that thread `t` is in comes to when nobody else takes steps. */
  ghost predicate Completes(s: State, s': State, t: nat) {
    && Inv(s) && Inv(s') && t < |s.clients| && !s.clients[t].Out?
    && s' == s.(table := s'.table, stored := s'.stored)
    && OthersSame(s.table, s'.table, t) && s'.table.threads[t].Returned?
    && !s.table.threads[t].Idle? && s'.table.threads[t].l.start == s.table.threads[t].l.start
    && (if s.clients[t].Storing?
        then s'.stored == s.stored + [Registration(s.clients[t].name, s.clients[t].id)]
        else s'.stored == s.stored && s'.table.history == s.table.history)
  }

  lemma WorkAlone(s: State, t: nat)
    requires Inv(s) && t < |s.clients| && !s.clients[t].Out? && !Resting(s.table.threads[t])
    ensures var s' := Work(s, t);
            && s' == Step(s, Action(t, Advance)) && Inv(s') && OthersSame(s.table, s'.table, t)
            && Progress.Remaining(s'.table, t) < Progress.Remaining(s.table, t)
            && (if s'.table.threads[t].Returned? then Completes(s, s', t)
                else && !Resting(s'.table.threads[t]) && s' == s.(table := s'.table)
                     && s'.table.threads[t].l.start == s.table.threads[t].l.start
                     && s'.table.history == s.table.history)
  {
    WorkKeepsInv(s, t);
    assert ClientOk(s, t);
    Progress.StepCloser(s.table, t);
  }

  /** A call left alone returns. */
  lemma {:induction false} CallCompletes(s: State, t: nat) returns (run: seq<State>, schedule: seq<Action>)
    requires Inv(s) && t < |s.clients| && !s.clients[t].Out? && !Resting(s.table.threads[t])
    ensures run != [] && Leads(run, schedule, s, run[|run| - 1]) && Completes(s, run[|run| - 1], t)
    decreases Progress.Remaining(s.table, t)
  {
    var s' := Work(s, t);
    WorkAlone(s, t);
    if s'.table.threads[t].Returned? {
      run, schedule := [s'], [];
      Stay(s');
    } else {
      run, schedule := CallCompletes(s', t);
    }
    Prepend(s, Action(t, Advance), run, schedule);
    run, schedule := [s] + run, [Action(t, Advance)] + schedule;
  }

  /** Thread `t` has asked for the id where its name's hash value points, and found it free. */
  ghost predicate FoundFree(s: State, t: nat, name: string) {
    && t < |s.clients| == |s.table.threads| && s.clients[t] == Asking(name, Probe(s.hash(name), 0))
    && s.table.threads[t].Returned? && s.table.threads[t].answer == T.Present(false)
  }

  /** Nothing but what concerns thread `t` has changed. */
  predicate OnlyAbout(s: State, s': State, t: nat) {
    && |s.clients| == |s'.clients| && |s.table.threads| == |s'.table.threads|
    && forall u :: 0 <= u < |s.clients| == |s.table.threads| && u != t ==>
         s'.clients[u] == s.clients[u] && s'.table.threads[u] == s.table.threads[u]
  }

  lemma AsksAlone(s: State, t: nat, name: string) returns (run: seq<State>, schedule: seq<Action>)
    requires Inv(s) && t < |s.clients| && s.clients[t].Out?
    requires s.table.history != [] && Probe(s.hash(name), 0) !in Latest(s.table)
    ensures run != [] && Leads(run, schedule, s, run[|run| - 1])
    ensures var s' := run[|run| - 1];
            && FoundFree(s', t, name) && OnlyAbout(s, s', t)
            && s'.table.history == s.table.history && s'.hash == s.hash
            && s'.stored == s.stored && s'.answered == s.answered
  {
    var c, a := Asking(name, Probe(s.hash(name), 0)), Action(t, Register(name));
    assert ClientOk(s, t);
    BeginKeepsInv(s, t, c);
    var s1 := Begin(s, t, c);
    run, schedule := CallCompletes(s1, t);
    var s' := run[|run| - 1];
    var seen := AnswerAt(s', t);
    Prepend(s, a, run, schedule);
    run, schedule := [s] + run, [a] + schedule;
  }

  lemma StoresAlone(s: State, t: nat, name: string) returns (run: seq<State>, schedule: seq<Action>)
    requires Inv(s) && FoundFree(s, t, name)
    ensures run != [] && Leads(run, schedule, s, run[|run| - 1])
    ensures var s', r := run[|run| - 1], Registration(name, Probe(s.hash(name), 0));
            && OnlyAbout(s, s', t) && s'.hash == s.hash
            && s'.stored == s.stored + [r] && s'.answered == s.answered + [r]
  {
    var c, a := Storing(name, Probe(s.hash(name), 0)), Action(t, Advance);
    BeginKeepsInv(s, t, c);
    var s1 := Begin(s, t, c);
    assert s1 == Step(s, a);
    run, schedule := CallCompletes(s1, t);
    var s2 := run[|run| - 1];
    var seen := AnswerAt(s2, t);
    DecideKeepsInv(s2, t);
    var s3 := Step(s2, a);
    Runs.Append<State, Action>(Inv, Follows, run, schedule, a, s3);
    run, schedule := run + [s3], schedule + [a];
    Prepend(s, a, run, schedule);
    run, schedule := [s] + run, [a] + schedule;
  }

  /**
   Two threads that register different names with one hash value at the same time can both find its id free:
   both are given that id, and the first name is lost.
   */
  lemma OverlapCanCollide(hash: string -> int, bits: nat, a: string, b: string)
    returns (run: seq<State>, schedule: seq<Action>)
    requires a != b && Probe(hash(a), 0) == Probe(hash(b), 0)
    ensures Execution(run, schedule) && run[0] == Init(hash, bits, 2)
    ensures var s, id := run[|schedule|], Probe(hash(a), 0);
            && s.answered == s.stored == [Registration(a, id), Registration(b, id)] && !OneToOne(s.stored)
  {
    var s0 := Init(hash, bits, 2);
    InitInv(hash, bits, 2);
    var run1, schedule1 := AsksAlone(s0, 0, a);
    var s1 := run1[|run1| - 1];
    InvAt(run1, schedule1, |schedule1|);
    var run2, schedule2 := AsksAlone(s1, 1, b);
    var s2 := run2[|run2| - 1];
    InvAt(run2, schedule2, |schedule2|);
    var run3, schedule3 := StoresAlone(s2, 0, a);
    var s3 := run3[|run3| - 1];
    InvAt(run3, schedule3, |schedule3|);
    var run4, schedule4 := StoresAlone(s3, 1, b);
    Join(run1, schedule1, run2, schedule2);
    var run12, schedule12 := run1 + run2[1..], schedule1 + schedule2;
    Join(run12, schedule12, run3, schedule3);
    var run123, schedule123 := run12 + run3[1..], schedule12 + schedule3;
    Join(run123, schedule123, run4, schedule4);
    run, schedule := run123 + run4[1..], schedule123 + schedule4;
    var s := run[|schedule|];
    assert s.stored[0].id == s.stored[1].id;
  }
}
