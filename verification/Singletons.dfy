/** Singleton workflows: at most one running execution, named by the lock row. */
module Singletons {
  import opened Prelude
  import opened JsonValue
  import opened Domain
  import opened Tables
  import opened Operations
  import opened Candidates
  import opened Invariant
  import opened Preservation
  import opened Sweeping
  import opened Runs

  ghost predicate RunningAt(s: Store, key: DefinitionKey, id: string) {
    id in s.executions && WorkflowOf(s.executions[id]) == key && s.executions[id].status.Running?
  }

  /** Any running execution of the workflow is the one its lock row names. */
  ghost predicate LockHeld(s: Store, key: DefinitionKey) {
    forall id :: RunningAt(s, key, id) ==> key in s.locks && s.locks[key].executionId == id
  }

  ghost predicate DefinedSingleton(s: Store, key: DefinitionKey) {
    key in s.definitions ==> s.definitions[key].singleton
  }

  ghost predicate RegistersSingleton(c: Call, key: DefinitionKey) {
    c.RegisterCall? && KeyOfDefinition(c.definition) == key ==> c.definition.singleton
  }

  /** An execution running after a call was running before it, unless the call started it. */
  lemma RunningBefore(rule: LeaseRule, s: Store, c: Call, key: DefinitionKey, id: string)
    requires Inv(s) && Allowed(s, c) && RunningAt(After(rule, s, c), key, id)
    ensures RunningAt(s, key, id) || (c.StartCall? && Effect(rule, s, c).Some? && c.id == id && key == DefinitionKey(c.name, c.version))
  {
    if id in s.executions {
      CallKeepsWorkflow(rule, s, c, id);
    } else {
      NewlyStarted(rule, s, c, id);
    }
  }

  /** An execution there only after a call was started by it. */
  lemma NewlyStarted(rule: LeaseRule, s: Store, c: Call, id: string)
    requires Inv(s) && Allowed(s, c) && id !in s.executions && id in After(rule, s, c).executions
    ensures c.StartCall? && Effect(rule, s, c).Some? && c.id == id
    ensures WorkflowOf(After(rule, s, c).executions[id]) == DefinitionKey(c.name, c.version)
  {
    CallAdds(rule, s, c);
  }

  /** Only a start writes lock rows, only its own; only a register writes definitions, only its own. */
  lemma EffectTables(rule: LeaseRule, s: Store, c: Call)
    requires Inv(s) && Allowed(s, c) && Effect(rule, s, c).Some?
    ensures var w := Effect(rule, s, c).value;
            && w.locks.Keys <= (if c.StartCall? then {DefinitionKey(c.name, c.version)} else {})
            && w.definitions == if c.RegisterCall? then map[KeyOfDefinition(c.definition) := c.definition] else map[]
  {
    match c
    case PollCall(now, name, version, workerId, max) =>
      PutStepsAtExecutions(EMPTY, Poll(rule, s, now, name, version, workerId, max).value);
    case SweepCall(now, created, rows) => SweepIsPlan(s, now, created, rows);
    case _ =>
  }

  lemma LocksAndDefinitions(rule: LeaseRule, s: Store, c: Call, key: DefinitionKey)
    requires Inv(s) && Allowed(s, c)
    ensures var t := After(rule, s, c);
            && (!(c.StartCall? && DefinitionKey(c.name, c.version) == key) ==> Lookup(t.locks, key) == Lookup(s.locks, key))
            && (!(c.RegisterCall? && KeyOfDefinition(c.definition) == key) ==> Lookup(t.definitions, key) == Lookup(s.definitions, key))
            && (c.RegisterCall? && KeyOfDefinition(c.definition) == key && Effect(rule, s, c).Some? ==>
                  Lookup(t.definitions, key) == Some(c.definition))
  {
    if Effect(rule, s, c).Some? {
      EffectTables(rule, s, c);
      ElsewhereAsBefore(s, Effect(rule, s, c).value, key);
    }
  }

  lemma ElsewhereAsBefore(s: Store, w: Store, key: DefinitionKey)
    ensures key !in w.locks ==> Lookup(Apply(s, w).locks, key) == Lookup(s.locks, key)
    ensures Lookup(Apply(s, w).definitions, key) == if key in w.definitions then Some(w.definitions[key]) else Lookup(s.definitions, key)
  {
  }

  lemma CallKeepsLock(rule: LeaseRule, s: Store, c: Call, key: DefinitionKey)
    requires Inv(s) && Allowed(s, c) && LockHeld(s, key) && DefinedSingleton(s, key) && RegistersSingleton(c, key)
    ensures LockHeld(After(rule, s, c), key) && DefinedSingleton(After(rule, s, c), key)
  {
    var t := After(rule, s, c);
    LocksAndDefinitions(rule, s, c, key);
    if c.StartCall? && DefinitionKey(c.name, c.version) == key && Effect(rule, s, c).Some? {
      assert s.definitions[key].singleton && !Occupied(s, key);
      assert t.locks[key].executionId == c.id;
    }
    forall id | RunningAt(t, key, id) ensures key in t.locks && t.locks[key].executionId == id {
      RunningBefore(rule, s, c, key, id);
    }
  }

  /** If every registration of the workflow in a run makes it a singleton, at most one of its executions is
      ever running, and that one is named by the lock: through retries, expiries, failures and cancellations. */
  lemma {:induction false} RunSingleton(rule: LeaseRule, states: seq<Store>, calls: seq<Call>, key: DefinitionKey, i: nat)
    requires Run(rule, states, calls) && i <= |calls|
    requires LockHeld(states[0], key) && DefinedSingleton(states[0], key)
    requires forall j :: 0 <= j < |calls| ==> RegistersSingleton(calls[j], key)
    ensures LockHeld(states[i], key) && DefinedSingleton(states[i], key)
    ensures forall a, b :: RunningAt(states[i], key, a) && RunningAt(states[i], key, b) ==> a == b
  {
    if i > 0 {
      RunSingleton(rule, states, calls, key, i - 1);
      NextSingleton(rule, states, calls, key, i - 1);
    }
  }

  lemma NextSingleton(rule: LeaseRule, states: seq<Store>, calls: seq<Call>, key: DefinitionKey, i: nat)
    requires Run(rule, states, calls) && i < |calls| && LockHeld(states[i], key) && DefinedSingleton(states[i], key)
    requires RegistersSingleton(calls[i], key)
    ensures LockHeld(states[i + 1], key) && DefinedSingleton(states[i + 1], key)
  {
    RunKeeps(rule, states, calls, i);
    assert Next(rule, states[i], calls[i], states[i + 1]);
    CallKeepsLock(rule, states[i], calls[i], key);
  }

  /** The exact condition for one start: on a singleton definition, the execution it starts is the only one
      running exactly when the lock row was accurate before. */
  lemma StartIsAlone(s: Store, clock: Clock, id: string, name: string, version: int, input: Json)
    requires Inv(s) && id !in s.executions && Start(s, clock, id, name, version, input).Done?
    requires s.definitions[DefinitionKey(name, version)].singleton
    ensures var t, key := Apply(s, Start(s, clock, id, name, version, input).writes), DefinitionKey(name, version);
            (forall a :: RunningAt(t, key, a) ==> a == id) <==> LockHeld(s, key)
  {
    var t, key := Apply(s, Start(s, clock, id, name, version, input).writes), DefinitionKey(name, version);
    StartRuns(s, t, id, Start(s, clock, id, name, version, input).writes, key);
    if LockHeld(s, key) {
      assert !Occupied(s, key);
    }
  }

  /** What runs once an execution has been put where there was none. */
  lemma StartRuns(s: Store, t: Store, id: string, w: Store, key: DefinitionKey)
    requires id !in s.executions && t == Apply(s, w) && w.executions.Keys == {id} && RunningAt(w, key, id)
    ensures forall a :: RunningAt(t, key, a) <==> a == id || RunningAt(s, key, a)
  {
    assert forall a :: a in s.executions ==> a in t.executions && t.executions[a] == s.executions[a];
  }

  /** Registering a workflow as a singleton while an execution of it is running does not protect that
      execution: the next start goes through and two run side by side. */
  lemma OverwrittenDefinitionBreaksSingleton(rule: LeaseRule) returns (states: seq<Store>, calls: seq<Call>)
    ensures Run(rule, states, calls) && states[0] == EMPTY && |states| == 5
    ensures var key := DefinitionKey("w", 1);
            key in states[4].definitions && states[4].definitions[key].singleton
            && RunningAt(states[4], key, "a") && RunningAt(states[4], key, "b")
  {
    EmptyTables();
    var plain := WorkflowDefinition("w", 1, "x", "PT1M", false, []);
    var c0, s1, c1, s2 := RegisteredAndStarted(rule, EMPTY, plain, "a");
    var c2, s3, c3, s4 := SecondRegistration(rule, s2, plain);
    states, calls := FourCalls(rule, EMPTY, c0, s1, c1, s2, c2, s3, c3, s4);
  }

  lemma SecondRegistration(rule: LeaseRule, s: Store, plain: WorkflowDefinition) returns (c: Call, t: Store, c': Call, u: Store)
    requires Inv(s) && ValidNameAndVersion(plain.workflowName, plain.workflowVersion) && s.executions.Keys == {"a"} && s.locks == map[]
    requires RunningAt(s, KeyOfDefinition(plain), "a")
    ensures Next(rule, s, c, t) && Next(rule, t, c', u)
    ensures KeyOfDefinition(plain) in u.definitions && u.definitions[KeyOfDefinition(plain)].singleton
    ensures RunningAt(u, KeyOfDefinition(plain), "a") && RunningAt(u, KeyOfDefinition(plain), "b")
  {
    c, t, c', u := RegisteredAndStarted(rule, s, plain.(singleton := true), "b");
  }

  lemma RegisteredAndStarted(rule: LeaseRule, s: Store, d: WorkflowDefinition, id: string)
    returns (c: Call, t: Store, c': Call, u: Store)
    requires Inv(s) && ValidNameAndVersion(d.workflowName, d.workflowVersion)
    requires id !in s.executions && KeyOfDefinition(d) !in s.locks
    ensures Next(rule, s, c, t) && Next(rule, t, c', u) && Inv(u)
    ensures KeyOfDefinition(d) in u.definitions && u.definitions[KeyOfDefinition(d)] == d
    ensures RunningAt(u, KeyOfDefinition(d), id) && u.executions.Keys == s.executions.Keys + {id}
    ensures forall a :: RunningAt(s, KeyOfDefinition(d), a) ==> RunningAt(u, KeyOfDefinition(d), a)
    ensures !d.singleton ==> u.locks == s.locks
  {
    c, t := Registered(rule, s, d);
    c', u := Started(rule, t, d, id);
    StartedFacts(t, d, id);
  }

  lemma StartedFacts(s: Store, d: WorkflowDefinition, id: string)
    requires id !in s.executions
    ensures var u, key := StartedStore(s, d, id), KeyOfDefinition(d);
            && u.definitions == s.definitions && RunningAt(u, key, id) && u.executions.Keys == s.executions.Keys + {id}
            && (forall a :: RunningAt(s, key, a) ==> RunningAt(u, key, a))
            && (!d.singleton ==> u.locks == s.locks)
  {
  }

  lemma TwoCalls(rule: LeaseRule, s0: Store, c0: Call, s1: Store, c1: Call, s2: Store) returns (states: seq<Store>, calls: seq<Call>)
    requires Inv(s0) && Next(rule, s0, c0, s1) && Next(rule, s1, c1, s2)
    ensures Run(rule, states, calls) && states == [s0, s1, s2] && calls == [c0, c1]
  {
    states, calls := [s0, s1, s2], [c0, c1];
  }

  lemma FourCalls(rule: LeaseRule, s0: Store, c0: Call, s1: Store, c1: Call, s2: Store, c2: Call, s3: Store, c3: Call, s4: Store)
    returns (states: seq<Store>, calls: seq<Call>)
    requires Inv(s0) && Next(rule, s0, c0, s1) && Next(rule, s1, c1, s2) && Next(rule, s2, c2, s3) && Next(rule, s3, c3, s4)
    ensures Run(rule, states, calls) && states == [s0, s1, s2, s3, s4] && calls == [c0, c1, c2, c3]
  {
    states, calls := TwoCalls(rule, s0, c0, s1, c1, s2);
    RunOneMore(rule, states, calls, c2, s3);
    RunOneMore(rule, states + [s3], calls + [c2], c3, s4);
    states, calls := states + [s3] + [s4], calls + [c2] + [c3];
  }

  lemma Registered(rule: LeaseRule, s: Store, d: WorkflowDefinition) returns (c: Call, t: Store)
    requires Inv(s) && ValidNameAndVersion(d.workflowName, d.workflowVersion)
    ensures c == RegisterCall(d) && Next(rule, s, c, t) && Inv(t)
    ensures t == PutDefinition(s, d)
  {
    c := RegisterCall(d);
    t := After(rule, s, c);
    CallKeeps(rule, s, c);
    ApplyNothing(s);
    ApplyPuts(s, EMPTY);
  }

  /** The tables once an execution of the workflow has been started on null input. */
  function StartedStore(s: Store, d: WorkflowDefinition, id: string): Store {
    var e := NewExecution(d, id, d.workflowName, d.workflowVersion, Null, 0);
    PutStep(PutExecution(if d.singleton then PutLock(s, LockFor(e)) else s, e), NewStep(e, e.currentStepName, 0, Null, 0, None))
  }

  lemma Started(rule: LeaseRule, s: Store, d: WorkflowDefinition, id: string) returns (c: Call, t: Store)
    requires Inv(s) && id !in s.executions && KeyOfDefinition(d) !in s.locks
    requires ValidNameAndVersion(d.workflowName, d.workflowVersion)
    requires KeyOfDefinition(d) in s.definitions && s.definitions[KeyOfDefinition(d)] == d
    ensures c.StartCall? && Next(rule, s, c, t) && Inv(t) && t == StartedStore(s, d, id)
  {
    c := StartCall(Clock(0, 0, 0, 0), id, d.workflowName, d.workflowVersion, Null);
    var e := NewExecution(d, id, d.workflowName, d.workflowVersion, Null, 0);
    var step := NewStep(e, e.currentStepName, 0, Null, 0, None);
    t := StartedStore(s, d, id);
    AfterStart(rule, s, d, id, c, e, step);
    StartedKeeps(s, d, e, step);
  }

  lemma StartedKeeps(s: Store, d: WorkflowDefinition, e: Execution, step: StepExecution)
    requires Inv(s) && WorkflowOf(e) in s.definitions && e.id !in s.executions && ExecutionShape(e) && e.status.Running?
    requires e.currentStepAttempt == 0 && step == NewStep(e, e.currentStepName, 0, Null, 0, None)
    ensures Inv(PutStep(PutExecution(if d.singleton then PutLock(s, LockFor(e)) else s, e), step))
  {
    if d.singleton {
      KeepsLock(s, LockFor(e));
    }
    KeepsCreate(if d.singleton then PutLock(s, LockFor(e)) else s, e, step);
  }

  lemma AfterStart(rule: LeaseRule, s: Store, d: WorkflowDefinition, id: string, c: Call, e: Execution, step: StepExecution)
    requires Keyed(s) && ValidNameAndVersion(d.workflowName, d.workflowVersion) && KeyOfDefinition(d) in s.definitions && s.definitions[KeyOfDefinition(d)] == d
    requires KeyOfDefinition(d) !in s.locks && c == StartCall(Clock(0, 0, 0, 0), id, d.workflowName, d.workflowVersion, Null)
    requires e == NewExecution(d, id, d.workflowName, d.workflowVersion, Null, 0) && step == NewStep(e, e.currentStepName, 0, Null, 0, None)
    ensures After(rule, s, c) == PutStep(PutExecution(if d.singleton then PutLock(s, LockFor(e)) else s, e), step)
  {
    ApplyCreate(s, d.singleton, LockFor(e), e, step);
  }
}
