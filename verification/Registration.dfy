/**
 Registration by common/global_data.cpp from several threads at once, on the table of base/atomic_hash_map.h as a
 step system: each registration is a chain of calls of Has and Get and a last one of Set, each of which takes its
 own steps, in any order with those of the others.
 */
module RegistrationProtocol {
  import Runs
  import opened Wrappers
  import opened Bits
  import opened GlobalDataModel
  import opened AtomicHashMapProperties
  import T = AtomicHashMapProtocol

  type Table = T.State<string>

  /** Which of its calls a registration is in, with the name and the id it is at. */
  datatype Client =
    | Out
    | Asking(name: string, id: nat)
    | Reading(name: string, id: nat)
    | Storing(name: string, id: nat)

  datatype Registration = Registration(name: string, id: nat)

  /**
   The table and the threads that register, and two records: what Set calls have stored so far, in order, and
   what registrations have returned.
   */
  datatype State = State(
    hash: string -> int, table: Table, clients: seq<Client>, stored: seq<Registration>, answered: seq<Registration>)

  datatype Event = Register(name: string) | Advance

  datatype Action = Action(thread: nat, event: Event)

  function Init(hash: string -> int, bits: nat, threads: nat): State {
    State(hash, T.Init<string>(bits, threads), seq(threads, i => Out), [], [])
  }

  ghost predicate Legal(s: State) {
    T.Inv(s.table) && |s.clients| == |s.table.threads|
  }

  function CallOf(c: Client): T.Call<string>
    requires !c.Out?
  {
    match c
    case Asking(_, id) => T.Has(id)
    case Reading(_, id) => T.Get(id)
    case Storing(name, id) => T.Set(id, name)
  }

  /** The client makes its next call. */
  function Begin(s: State, t: nat, c: Client): State
    requires Legal(s) && t < |s.clients| && !c.Out?
  {
    s.(table := T.Step(s.table, t, T.Start(CallOf(c))), clients := s.clients[t := c])
  }

  /** What a client does with the answer to its last call. Get always finds what Has found (GetFinds). */
  function Decide(s: State, t: nat, answer: T.Answer<string>): State
    requires Legal(s) && t < |s.clients|
  {
    match (s.clients[t], answer)
    case (Asking(name, id), Present(found)) => Begin(s, t, if found then Reading(name, id) else Storing(name, id))
    case (Reading(name, id), Value(Some(other))) =>
      Begin(s, t, if other == name then Storing(name, id) else Asking(name, Increment(id)))
    case (Storing(name, id), Stored) =>
      s.(clients := s.clients[t := Out], answered := s.answered + [Registration(name, id)])
    case _ => s
  }

  /** One step. An event the thread cannot take leaves everything as it is. */
  function Step(s: State, a: Action): State
    requires Legal(s)
  {
    var t := a.thread;
    if t >= |s.clients| then s
    else
      match a.event
      case Register(name) => if s.clients[t].Out? then Begin(s, t, Asking(name, Probe(s.hash(name), 0))) else s
      case Advance =>
        if s.clients[t].Out? || s.table.threads[t].Idle? then s
        else if s.table.threads[t].Returned? then Decide(s, t, s.table.threads[t].answer)
        else Work(s, t)
  }

  /** One step of the call in progress. */
  function Work(s: State, t: nat): State
    requires Legal(s) && t < |s.clients|
  {
    var table := T.Step(s.table, t, T.Advance);
    s.(table := table,
       stored := if |table.history| > |s.table.history| && !s.clients[t].Out?
                 then s.stored + [Registration(s.clients[t].name, s.clients[t].id)] else s.stored)
  }

  // ----- what the table promises a client

  function Latest(s: Table): map<int, string>
    requires s.history != []
  {
    s.history[|s.history| - 1]
  }

  /** Nothing about the other threads has changed. */
  predicate OthersSame(s: Table, s': Table, t: nat) {
    && t < |s.threads| == |s'.threads|
    && forall u :: 0 <= u < |s.threads| && u != t ==> s'.threads[u] == s.threads[u]
  }

  ghost predicate Begun(s: Table, s': Table, t: nat, call: T.Call<string>) {
    && T.Inv(s') && OthersSame(s, s', t) && s'.history == s.history != []
    && !Resting(s'.threads[t]) && Remembers(s'.threads[t], call, |s.history| - 1)
  }

  lemma TableBegins(s: Table, t: nat, call: T.Call<string>)
    requires T.Inv(s) && t < |s.threads| && Resting(s.threads[t])
    ensures Begun(s, T.Step(s, t, T.Start(call)), t, call)
  {
    StepRefinesMap(s, t, T.Start(call));
    StartTaken(s, t, call);
  }

  ghost predicate Worked(s: Table, s': Table, t: nat) {
    && T.Inv(s') && OthersSame(s, s', t) && s.history != [] && !s.threads[t].Idle?
    && Remembers(s'.threads[t], s.threads[t].l.call, s.threads[t].l.start)
    && var call := s.threads[t].l.call;
       s'.history ==
       if s'.threads[t].Returned? && call.Set? then s.history + [Latest(s)[call.key := call.value]] else s.history
  }

  lemma TableWorks(s: Table, t: nat)
    requires T.Inv(s) && t < |s.threads| && !Resting(s.threads[t])
    ensures Worked(s, T.Step(s, t, T.Advance), t)
  {
    StepRefinesMap(s, t, T.Advance);
    KeepsCall(s, t, T.Advance, t);
    var s' := T.Step(s, t, T.Advance);
    if s'.threads[t].Returned? {
      AnswerFits(s', t);
    }
  }

  lemma AnswerFits(s: Table, t: nat)
    requires T.Inv(s) && t < |s.threads| && s.threads[t].Returned?
    ensures s.threads[t].l.call.Set? <==> s.threads[t].answer.Stored?
    ensures s.threads[t].l.call.Has? <==> s.threads[t].answer.Present?
    ensures s.threads[t].l.call.Get? <==> s.threads[t].answer.Value?
  {
    assert T.ThreadOk(s, t);
  }

  // ----- what holds in every run

  /** The history of the table is that of the names stored. */
  ghost predicate Built(history: seq<map<int, string>>, stored: seq<Registration>) {
    && |history| == |stored| + 1 && history[0] == map[]
    && forall i :: 0 <= i < |stored| ==> history[i + 1] == history[i][stored[i].id := stored[i].name]
  }

  /** A client is between two calls only after an answer, and its call is the one its place in the code says. */
  ghost predicate ClientOk(s: State, t: nat)
    requires t < |s.clients| == |s.table.threads|
  {
    var c, l := s.clients[t], s.table.threads[t];
    if c.Out? then Resting(l)
    else
      && !l.Idle? && l.l.call == CallOf(c) && c.id < WORD
      && (c.Storing? && l.Returned? ==> Registration(c.name, c.id) in s.stored)
      && (c.Reading? ==> l.l.start < |s.table.history| && c.id in s.table.history[l.l.start])
  }

  ghost predicate Inv(s: State) {
    && Legal(s) && Built(s.table.history, s.stored)
    && (forall t :: 0 <= t < |s.clients| ==> ClientOk(s, t))
    && (forall r :: r in s.answered ==> r in s.stored)
  }

  lemma InitInv(hash: string -> int, bits: nat, threads: nat)
    ensures Inv(Init(hash, bits, threads))
  {
    InitIsEmpty<string>(bits, threads);
  }

  /** No Set ever removes an id. */
  lemma {:induction false} IdsStay(history: seq<map<int, string>>, stored: seq<Registration>, i: nat, j: nat, id: int)
    requires Built(history, stored) && i <= j < |history| && id in history[i]
    ensures id in history[j]
    decreases j
  {
    if i < j {
      IdsStay(history, stored, i, j - 1, id);
      assert history[j - 1 + 1] == history[j - 1][stored[j - 1].id := stored[j - 1].name];
    }
  }

  lemma OtherClient(s: State, s': State, t: nat, u: nat)
    requires Inv(s) && t < |s.clients| && u < |s.clients| && u != t
    requires |s'.clients| == |s.clients| && OthersSame(s.table, s'.table, t) && s'.clients[u] == s.clients[u]
    requires s.table.history <= s'.table.history && s.stored <= s'.stored
    ensures ClientOk(s', u)
  {
    assert ClientOk(s, u);
  }

  lemma BeginKeepsInv(s: State, t: nat, c: Client)
    requires Inv(s) && t < |s.clients| && Resting(s.table.threads[t]) && !c.Out? && c.id < WORD
    requires c.Reading? ==> s.table.history != [] && c.id in Latest(s.table)
    ensures Inv(Begin(s, t, c)) && Begun(s.table, Begin(s, t, c).table, t, CallOf(c))
  {
    var s' := Begin(s, t, c);
    TableBegins(s.table, t, CallOf(c));
    forall u | 0 <= u < |s'.clients|
      ensures ClientOk(s', u)
    {
      if u != t {
        OtherClient(s, s', t, u);
      }
    }
  }

  /** A query's answer was right at some position of the history since it began. */
  lemma AnswerAt(s: State, t: nat) returns (seen: nat)
    requires Inv(s) && t < |s.clients| && !s.clients[t].Out? && s.table.threads[t].Returned?
    ensures s.table.threads[t].l.start <= seen < |s.table.history|
    ensures !s.clients[t].Storing? ==> s.table.threads[t].answer == Reply(s.table.history[seen], CallOf(s.clients[t]))
    ensures s.clients[t].Storing? ==> s.table.threads[t].answer.Stored?
  {
    assert ClientOk(s, t);
    ReturnedAnswer(s.table, t);
    AnswerFits(s.table, t);
    seen := s.table.threads[t].l.seen;
  }

  /** Get finds a name wherever Has has answered yes. */
  lemma GetFinds(s: State, t: nat)
    requires Inv(s) && t < |s.clients| && s.clients[t].Reading? && s.table.threads[t].Returned?
    ensures s.table.threads[t].answer.Value? && s.table.threads[t].answer.value.Some?
  {
    var seen := AnswerAt(s, t);
    assert ClientOk(s, t);
    IdsStay(s.table.history, s.stored, s.table.threads[t].l.start, seen, s.clients[t].id);
  }

  lemma DecideKeepsInv(s: State, t: nat)
    requires Inv(s) && t < |s.clients| && !s.clients[t].Out? && s.table.threads[t].Returned?
    ensures Inv(Decide(s, t, s.table.threads[t].answer))
  {
    var seen := AnswerAt(s, t);
    assert ClientOk(s, t);
    match s.clients[t]
    case Asking(name, id) =>
      if id in s.table.history[seen] {
        IdsStay(s.table.history, s.stored, seen, |s.table.history| - 1, id);
        BeginKeepsInv(s, t, Reading(name, id));
      } else {
        BeginKeepsInv(s, t, Storing(name, id));
      }
    case Reading(name, id) =>
      GetFinds(s, t);
      if s.table.history[seen][id] == name {
        BeginKeepsInv(s, t, Storing(name, id));
      } else {
        BeginKeepsInv(s, t, Asking(name, Increment(id)));
      }
    case Storing(name, id) =>
      var s' := Decide(s, t, s.table.threads[t].answer);
      forall u | 0 <= u < |s'.clients|
        ensures ClientOk(s', u)
      {
        assert ClientOk(s, u);
      }
  }

  lemma WorkKeepsInv(s: State, t: nat)
    requires Inv(s) && t < |s.clients| && !s.clients[t].Out? && !Resting(s.table.threads[t])
    ensures Inv(Work(s, t)) && Worked(s.table, Work(s, t).table, t)
  {
    var s' := Work(s, t);
    assert ClientOk(s, t);
    TableWorks(s.table, t);
    forall u | 0 <= u < |s'.clients|
      ensures ClientOk(s', u)
    {
      if u != t {
        OtherClient(s, s', t, u);
      }
    }
  }

  lemma StepKeepsInv(s: State, a: Action)
    requires Inv(s)
    ensures Inv(Step(s, a))
  {
    var t := a.thread;
    if t < |s.clients| {
      assert ClientOk(s, t);
      match a.event
      case Register(name) => if s.clients[t].Out? { BeginKeepsInv(s, t, Asking(name, Probe(s.hash(name), 0))); }
      case Advance =>
        if !s.clients[t].Out? {
          if s.table.threads[t].Returned? { DecideKeepsInv(s, t); } else { WorkKeepsInv(s, t); }
        }
    }
  }

  ghost predicate Follows(s: State, a: Action, s': State) {
    Inv(s) && s' == Step(s, a)
  }

  /** A run. That the invariant holds at each instant of it is no restriction (EveryScheduleRuns). */
  ghost predicate Execution(run: seq<State>, schedule: seq<Action>) {
    Runs.Execution<State, Action>(Inv, Follows, run, schedule)
  }

  lemma InvAt(run: seq<State>, schedule: seq<Action>, i: nat)
    requires Execution(run, schedule) && i < |run|
    ensures Inv(run[i])
  {
    assert Runs.HoldsAt<State>(Inv, run, i);
  }

  lemma StepAt(run: seq<State>, schedule: seq<Action>, i: nat)
    requires Execution(run, schedule) && i < |schedule|
    ensures Inv(run[i]) && run[i + 1] == Step(run[i], schedule[i])
  {
    assert Runs.StepsTo<State, Action>(Follows, run, schedule, i);
  }

  /** A run that stays where it is. */
  lemma Stay(s: State)
    requires Inv(s)
    ensures Execution([s], [])
  {
    assert Runs.HoldsAt<State>(Inv, [s], 0);
  }

  /** Every schedule can be run from any state with the invariant. */
  lemma EveryScheduleRuns(s: State, schedule: seq<Action>) returns (run: seq<State>)
    requires Inv(s)
    ensures Execution(run, schedule) && run[0] == s
  {
    forall s: State, a: Action | Inv(s)
      ensures Runs.CanStep<State, Action>(Inv, Follows, s, a)
    {
      StepKeepsInv(s, a);
      assert Follows(s, a, Step(s, a));
    }
    run := Runs.EveryScheduleRuns<State, Action>(Inv, Follows, s, schedule);
  }
}
