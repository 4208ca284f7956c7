/** Exactly which calls go through, in every state a run from empty tables reaches: said of what callers have
    been told and of the definitions registered, not of the checks the operations make. */
module Admission {
  import opened Prelude
  import opened JsonValue
  import opened Domain
  import opened Tables
  import opened Operations
  import opened Candidates
  import opened Invariant
  import opened Preservation
  import opened Sweeping
  import opened Runs
  import opened Singletons
  import opened Polling
  import opened Leases

  ghost predicate GoesThrough(rule: LeaseRule, s: Store, c: Call)
    requires Keyed(s)
  {
    Effect(rule, s, c).Some?
  }

  /* ---- what a definition says of a step ---- */

  /** The `n`-th step is the first of that name. */
  predicate FirstNamed(d: WorkflowDefinition, n: nat, name: string) {
    n < |d.steps| && d.steps[n].name == name && forall j :: 0 <= j < n ==> d.steps[j].name != name
  }

  ghost predicate DeclaresStep(d: WorkflowDefinition, name: string) {
    exists i :: 0 <= i < |d.steps| && d.steps[i].name == name
  }

  /** The step is declared, and its expected time is one the lease rule accepts. */
  ghost predicate HasLease(rule: LeaseRule, d: WorkflowDefinition, name: string) {
    exists n: nat :: FirstNamed(d, n, name) && d.steps[n].expectedExecutionTime.Some? && rule(d.steps[n].expectedExecutionTime.value).Some?
  }

  lemma {:induction false} FoundFirst(steps: seq<WorkflowStep>, n: nat)
    requires n < |steps| && forall j :: 0 <= j < n ==> steps[j].name != steps[n].name
    ensures FindStep(steps, steps[n].name) == Some(steps[n])
  {
    if n > 0 {
      FoundFirst(steps[1..], n - 1);
    }
  }

  lemma {:induction false} FirstFound(steps: seq<WorkflowStep>, name: string) returns (n: nat)
    requires FindStep(steps, name).Some?
    ensures n < |steps| && steps[n].name == name && FindStep(steps, name) == Some(steps[n])
    ensures forall j :: 0 <= j < n ==> steps[j].name != name
  {
    n := 0;
    if steps[0].name != name {
      n := FirstFound(steps[1..], name);
      n := n + 1;
    }
  }

  lemma DeclaredIsFound(d: WorkflowDefinition, name: string)
    ensures DeclaresStep(d, name) <==> FindStep(d.steps, name).Some?
  {
  }

  lemma LeaseIsFound(rule: LeaseRule, d: WorkflowDefinition, name: string)
    ensures HasLease(rule, d, name) <==> LeaseOf(rule, d, name).Some?
  {
    if FindStep(d.steps, name).Some? {
      var n := FirstFound(d.steps, name);
      assert FirstNamed(d, n, name);
    }
    forall n: nat | FirstNamed(d, n, name) ensures FindStep(d.steps, name) == Some(d.steps[n]) {
      FoundFirst(d.steps, n);
    }
  }

  /* ---- keep-alive, complete, fail ---- */

  predicate Named(id: string, stepName: string, workerId: string) {
    id != "" && stepName != "" && workerId != ""
  }

  /** The execution runs at the step, and the worker holds it beyond `now`. */
  ghost predicate Holds(s: Store, held: Option<Lease>, id: string, stepName: string, workerId: string, now: Time) {
    && id in s.executions && s.executions[id].status.Running? && s.executions[id].currentStepName == stepName
    && held.Some? && held.value.workerId == workerId && now < held.value.until
  }

  /** What the claim check lets pass: at any attempt, exactly the worker whose lease the current row is under. */
  lemma CheckPasses(s: Store, id: string, stepName: string, workerId: string, now: Time)
    requires Inv(s)
    ensures Owned(s, id, stepName, workerId, now).Some?
       <==> Named(id, stepName, workerId) && id in s.executions
            && Holds(s, LeaseAt(s, CurrentKey(s.executions[id])), id, stepName, workerId, now)
  {
    if Owned(s, id, stepName, workerId, now).Some? {
      OwnerHolds(s, id, stepName, workerId, now);
      OwnedIsCurrent(s, id, stepName, workerId, now);
    } else if id in s.executions {
      assert ExecutionOk(s, s.executions[id]);
    }
  }

  /** The lease the worker was last told of, on the step its execution is at. */
  ghost function LastTold(rule: LeaseRule, states: seq<Store>, calls: seq<Call>, i: nat, id: string): Option<Lease>
    requires Run(rule, states, calls) && i <= |calls|
  {
    if id in states[i].executions then LastGranted(rule, states, calls, i, CurrentKey(states[i].executions[id])) else None
  }

  /** The caller has been told it holds the step, by a lease that lasts beyond the reading of the check. */
  ghost predicate Holder(rule: LeaseRule, states: seq<Store>, calls: seq<Call>, i: nat, id: string, stepName: string, workerId: string, now: Time)
    requires Run(rule, states, calls) && i <= |calls|
  {
    Named(id, stepName, workerId) && Holds(states[i], LastTold(rule, states, calls, i, id), id, stepName, workerId, now)
  }

  lemma HolderPasses(rule: LeaseRule, states: seq<Store>, calls: seq<Call>, i: nat, id: string, stepName: string, workerId: string, now: Time)
    requires Run(rule, states, calls) && states[0] == EMPTY && i <= |calls|
    ensures Owned(states[i], id, stepName, workerId, now).Some? <==> Holder(rule, states, calls, i, id, stepName, workerId, now)
  {
    RunKeeps(rule, states, calls, i);
    CheckPasses(states[i], id, stepName, workerId, now);
    if id in states[i].executions {
      RunGrants(rule, states, calls, i, CurrentKey(states[i].executions[id]));
    }
  }

  /** The definition an execution's workflow is registered under, whatever it now is. */
  ghost function RegisteredFor(s: Store, id: string): (d: Option<WorkflowDefinition>)
  {
    if id in s.executions then Lookup(s.definitions, WorkflowOf(s.executions[id])) else None
  }

  lemma OwnedDefinition(s: Store, id: string, stepName: string, workerId: string, now: Time)
    requires Owned(s, id, stepName, workerId, now).Some?
    ensures RegisteredFor(s, id) == Some(Owned(s, id, stepName, workerId, now).value.definition)
  {
  }

  lemma FailDone(s: Store, clock: Clock, id: string, stepName: string, workerId: string, reason: string)
    ensures Fail(s, clock, id, stepName, workerId, reason).Done?
       <==> Owned(s, id, stepName, workerId, clock.checked).Some? && RegisteredFor(s, id).Some? && DeclaresStep(RegisteredFor(s, id).value, stepName)
  {
    if Owned(s, id, stepName, workerId, clock.checked).Some? {
      OwnedDefinition(s, id, stepName, workerId, clock.checked);
      DeclaredIsFound(RegisteredFor(s, id).value, stepName);
    }
  }

  lemma KeepAliveDone(rule: LeaseRule, s: Store, clock: Clock, id: string, stepName: string, workerId: string)
    ensures KeepAlive(rule, s, clock, id, stepName, workerId).Done?
       <==> Owned(s, id, stepName, workerId, clock.checked).Some? && RegisteredFor(s, id).Some?
            && HasLease(rule, RegisteredFor(s, id).value, stepName)
  {
    if Owned(s, id, stepName, workerId, clock.checked).Some? {
      OwnedDefinition(s, id, stepName, workerId, clock.checked);
      LeaseIsFound(rule, RegisteredFor(s, id).value, stepName);
    }
  }

  /** The decision can be carried out. */
  ghost predicate Feasible(d: WorkflowDefinition, decision: NextStepDecision) {
    decision.workflowComplete || (decision.nextStepName.Some? && DeclaresStep(d, decision.nextStepName.value))
  }

  lemma CompleteDone(s: Store, clock: Clock, id: string, stepName: string, workerId: string, output: Json, delay: Option<Time>,
                     decision: NextStepDecision)
    ensures Complete(s, clock, id, stepName, workerId, output, delay, decision).Done?
       <==> (delay.Some? ==> delay.value > 0) && Owned(s, id, stepName, workerId, clock.checked).Some?
            && RegisteredFor(s, id).Some? && Feasible(RegisteredFor(s, id).value, decision)
  {
    if Owned(s, id, stepName, workerId, clock.checked).Some? {
      OwnedDefinition(s, id, stepName, workerId, clock.checked);
      if decision.nextStepName.Some? {
        DeclaredIsFound(RegisteredFor(s, id).value, decision.nextStepName.value);
      }
    }
  }

  /** A report of failure goes through exactly when it comes from the worker the current step was last granted
      to, before that lease is up, and the definition declares the step: at the first attempt and at every
      other. */
  lemma FailGoesThrough(rule: LeaseRule, states: seq<Store>, calls: seq<Call>, i: nat, c: Call)
    requires Run(rule, states, calls) && states[0] == EMPTY && i <= |calls| && c.FailCall?
    ensures Keyed(states[i])
    ensures GoesThrough(rule, states[i], c)
       <==> Holder(rule, states, calls, i, c.id, c.stepName, c.workerId, c.clock.checked)
            && RegisteredFor(states[i], c.id).Some? && DeclaresStep(RegisteredFor(states[i], c.id).value, c.stepName)
  {
    RunKeeps(rule, states, calls, i);
    HolderPasses(rule, states, calls, i, c.id, c.stepName, c.workerId, c.clock.checked);
    FailDone(states[i], c.clock, c.id, c.stepName, c.workerId, c.reason);
  }

  /** A keep-alive, exactly when its caller holds the step in the same sense and the step has a usable lease. */
  lemma KeepAliveGoesThrough(rule: LeaseRule, states: seq<Store>, calls: seq<Call>, i: nat, c: Call)
    requires Run(rule, states, calls) && states[0] == EMPTY && i <= |calls| && c.KeepAliveCall?
    ensures Keyed(states[i])
    ensures GoesThrough(rule, states[i], c)
       <==> Holder(rule, states, calls, i, c.id, c.stepName, c.workerId, c.clock.checked)
            && RegisteredFor(states[i], c.id).Some? && HasLease(rule, RegisteredFor(states[i], c.id).value, c.stepName)
  {
    RunKeeps(rule, states, calls, i);
    HolderPasses(rule, states, calls, i, c.id, c.stepName, c.workerId, c.clock.checked);
    KeepAliveDone(rule, states[i], c.clock, c.id, c.stepName, c.workerId);
  }

  /** A completion, exactly when its caller holds the step, its delay, if any, is positive, and the logic's
      decision ends the workflow or names a declared step. */
  lemma CompleteGoesThrough(rule: LeaseRule, states: seq<Store>, calls: seq<Call>, i: nat, c: Call)
    requires Run(rule, states, calls) && states[0] == EMPTY && i <= |calls| && c.CompleteCall?
    ensures Keyed(states[i])
    ensures GoesThrough(rule, states[i], c)
       <==> Holder(rule, states, calls, i, c.id, c.stepName, c.workerId, c.clock.checked)
            && (c.delay.Some? ==> c.delay.value > 0)
            && RegisteredFor(states[i], c.id).Some? && Feasible(RegisteredFor(states[i], c.id).value, c.decision)
  {
    RunKeeps(rule, states, calls, i);
    HolderPasses(rule, states, calls, i, c.id, c.stepName, c.workerId, c.clock.checked);
    CompleteDone(states[i], c.clock, c.id, c.stepName, c.workerId, c.output, c.delay, c.decision);
  }

  /** An execution a run has started always has a definition: registering replaces, nothing removes. */
  lemma AlwaysRegistered(rule: LeaseRule, states: seq<Store>, calls: seq<Call>, i: nat, id: string)
    requires Run(rule, states, calls) && i <= |calls| && id in states[i].executions
    ensures RegisteredFor(states[i], id).Some?
  {
    RunKeeps(rule, states, calls, i);
    assert ExecutionOk(states[i], states[i].executions[id]);
  }

  /* ---- register, start, cancel ---- */

  lemma RegisterGoesThrough(rule: LeaseRule, s: Store, c: Call)
    requires Keyed(s) && c.RegisterCall?
    ensures GoesThrough(rule, s, c) <==> c.definition.workflowName != "" && c.definition.workflowVersion >= 1
  {
  }

  /** A start of a workflow that is registered, and not as a singleton, always goes through. */
  lemma StartGoesThrough(rule: LeaseRule, s: Store, c: Call)
    requires Keyed(s) && c.StartCall? && !(DefinitionKey(c.name, c.version) in s.definitions && s.definitions[DefinitionKey(c.name, c.version)].singleton)
    ensures GoesThrough(rule, s, c) <==> c.name != "" && c.version >= 1 && DefinitionKey(c.name, c.version) in s.definitions
  {
  }

  lemma SingletonStart(rule: LeaseRule, s: Store, c: Call)
    requires Keyed(s) && c.StartCall? && DefinedSingleton(s, DefinitionKey(c.name, c.version)) && LockHeld(s, DefinitionKey(c.name, c.version))
    requires LocksOwn(s, DefinitionKey(c.name, c.version))
    ensures GoesThrough(rule, s, c)
       <==> c.name != "" && c.version >= 1 && DefinitionKey(c.name, c.version) in s.definitions
            && forall id :: !RunningAt(s, DefinitionKey(c.name, c.version), id)
  {
    var key := DefinitionKey(c.name, c.version);
    if Occupied(s, key) {
      assert RunningAt(s, key, s.locks[key].executionId);
    }
  }

  /** The lock row of a workflow names an execution of that workflow. */
  ghost predicate LocksOwn(s: Store, key: DefinitionKey) {
    key in s.locks ==> s.locks[key].executionId in s.executions && WorkflowOf(s.executions[s.locks[key].executionId]) == key
  }

  lemma CallLocksOwn(rule: LeaseRule, s: Store, c: Call, key: DefinitionKey)
    requires Inv(s) && Allowed(s, c) && LocksOwn(s, key)
    ensures LocksOwn(After(rule, s, c), key)
  {
    LocksAndDefinitions(rule, s, c, key);
    if key in s.locks {
      CallKeepsWorkflow(rule, s, c, s.locks[key].executionId);
    }
  }

  lemma {:induction false} RunLocksOwn(rule: LeaseRule, states: seq<Store>, calls: seq<Call>, i: nat, key: DefinitionKey)
    requires Run(rule, states, calls) && states[0] == EMPTY && i <= |calls|
    ensures LocksOwn(states[i], key)
  {
    if i > 0 {
      RunLocksOwn(rule, states, calls, i - 1, key);
      NextLocksOwn(rule, states, calls, i - 1, key);
    }
  }

  lemma NextLocksOwn(rule: LeaseRule, states: seq<Store>, calls: seq<Call>, i: nat, key: DefinitionKey)
    requires Run(rule, states, calls) && i < |calls| && LocksOwn(states[i], key)
    ensures LocksOwn(states[i + 1], key)
  {
    RunKeeps(rule, states, calls, i);
    assert Next(rule, states[i], calls[i], states[i + 1]);
    CallLocksOwn(rule, states[i], calls[i], key);
  }

  /** Where every registration of a workflow makes it a singleton, a start of it goes through exactly when the
      workflow is registered and none of its executions is running. */
  lemma SingletonStartGoesThrough(rule: LeaseRule, states: seq<Store>, calls: seq<Call>, i: nat, c: Call)
    requires Run(rule, states, calls) && states[0] == EMPTY && i <= |calls| && c.StartCall?
    requires forall j :: 0 <= j < |calls| ==> RegistersSingleton(calls[j], DefinitionKey(c.name, c.version))
    ensures Keyed(states[i])
    ensures GoesThrough(rule, states[i], c)
       <==> c.name != "" && c.version >= 1 && DefinitionKey(c.name, c.version) in states[i].definitions
            && forall id :: !RunningAt(states[i], DefinitionKey(c.name, c.version), id)
  {
    var key := DefinitionKey(c.name, c.version);
    RunKeeps(rule, states, calls, i);
    RunSingleton(rule, states, calls, key, i);
    RunLocksOwn(rule, states, calls, i, key);
    SingletonStart(rule, states[i], c);
  }

  lemma CancelGoesThrough(rule: LeaseRule, s: Store, c: Call)
    requires Keyed(s) && c.CancelCall?
    ensures GoesThrough(rule, s, c) <==> c.id != "" && c.id in s.executions && s.executions[c.id].status.Running?
  {
  }

  /* ---- poll ---- */

  /** The claimable rows of the workflow that come before a row. */
  ghost function Ahead(s: Store, key: DefinitionKey, now: Time, r: StepExecution): set<StepExecution> {
    set x | x in Claimable(s, key, now) && Before(x, r)
  }

  lemma TakenByRank(list: seq<StepExecution>, rows: set<StepExecution>, max: nat, r: StepExecution)
    requires FirstOf(list, rows, max) && KeysApart(rows) && r in rows
    ensures r in list <==> |set x | x in rows && Before(x, r)| < max
  {
    var ahead := set x | x in rows && Before(x, r);
    if r in list {
      var p :| 0 <= p < |list| && list[p] == r;
      AheadInList(list, rows, max, p);
      ElementsOfSorted(list[..p]);
      CardinalityOfSubset(ahead, (set x | x in list[..p]));
    } else {
      ElementsOfSorted(list);
      CardinalityOfSubset((set x | x in list), ahead);
      CardinalityOfSubset((set x | x in list) + {r}, rows);
    }
  }

  lemma AheadInList(list: seq<StepExecution>, rows: set<StepExecution>, max: nat, p: nat)
    requires FirstOf(list, rows, max) && KeysApart(rows) && p < |list|
    ensures forall x :: x in rows && Before(x, list[p]) ==> x in list[..p]
  {
    forall x | x in rows && Before(x, list[p]) ensures x in list[..p] {
      if x == list[p] {
        BeforeIrreflexive(x);
      } else {
        BeforeTotal(x, list[p]);
        var q :| 0 <= q < |list| && list[q] == x;
        assert q < p;
        assert list[..p][q] == x;
      }
    }
  }

  lemma ClaimableKeysApart(s: Store, key: DefinitionKey, now: Time)
    requires Keyed(s)
    ensures KeysApart(Claimable(s, key, now))
  {
  }

  /** The execution's current step is claimable and among the first `max` of its workflow. */
  ghost predicate InTurn(s: Store, key: DefinitionKey, now: Time, max: nat, id: string)
    requires Inv(s) && RunningAt(s, key, id)
  {
    IsClaimable(Current(s, id), now) && |Ahead(s, key, now, Current(s, id))| < max
  }

  lemma TurnIsChosen(s: Store, key: DefinitionKey, now: Time, max: nat, id: string)
    requires Inv(s) && RunningAt(s, key, id)
    ensures InTurn(s, key, now, max, id) <==> Current(s, id) in Chosen(CandidateList(s, key), now, max)
  {
    var chosen, r := Chosen(CandidateList(s, key), now, max), Current(s, id);
    RunningIsDefined(s, key, id);
    ChosenIsFirst(s, key, now, max);
    ClaimableKeysApart(s, key, now);
    if IsClaimable(r, now) {
      assert r in Claimable(s, key, now);
      TakenByRank(chosen, Claimable(s, key, now), max, r);
    }
  }

  lemma ChosenIsCurrentRow(s: Store, key: DefinitionKey, now: Time, max: nat, n: nat)
    requires Inv(s) && n < |Chosen(CandidateList(s, key), now, max)|
    ensures var r := Chosen(CandidateList(s, key), now, max)[n];
            RunningAt(s, key, r.executionId) && Current(s, r.executionId) == r && r.stepName == s.executions[r.executionId].currentStepName
  {
    ChosenRows(s, key, now, max);
    ChosenIsCurrent(s, key, Chosen(CandidateList(s, key), now, max)[n]);
  }

  /** A poll goes through exactly when its arguments are in order, the workflow is registered, and each of the
      first `max` executions whose current step can be claimed is at a step with a usable lease. */
  lemma PollGoesThrough(rule: LeaseRule, s: Store, c: Call, key: DefinitionKey)
    requires Inv(s) && c.PollCall? && key == DefinitionKey(c.name, c.version)
    ensures GoesThrough(rule, s, c)
       <==> c.name != "" && c.version >= 1 && c.workerId != "" && c.max > 0 && key in s.definitions
            && forall id :: RunningAt(s, key, id) && InTurn(s, key, c.now, c.max, id) ==>
                 HasLease(rule, s.definitions[key], s.executions[id].currentStepName)
  {
    if key in s.definitions {
      var d, chosen := s.definitions[key], Chosen(CandidateList(s, key), c.now, c.max);
      KnownByExecution(rule, s, key, c.now, c.max);
    }
  }

  lemma KnownByExecution(rule: LeaseRule, s: Store, key: DefinitionKey, now: Time, max: nat)
    requires Inv(s) && key in s.definitions
    ensures LeasesKnown(rule, s.definitions[key], Chosen(CandidateList(s, key), now, max))
       <==> forall id :: RunningAt(s, key, id) && InTurn(s, key, now, max, id) ==>
              HasLease(rule, s.definitions[key], s.executions[id].currentStepName)
  {
    var d, chosen := s.definitions[key], Chosen(CandidateList(s, key), now, max);
    forall id | RunningAt(s, key, id) && InTurn(s, key, now, max, id)
      ensures exists n :: 0 <= n < |chosen| && chosen[n].stepName == s.executions[id].currentStepName
      ensures HasLease(rule, d, s.executions[id].currentStepName) <==> LeaseOf(rule, d, s.executions[id].currentStepName).Some?
    {
      TurnIsChosen(s, key, now, max, id);
      LeaseIsFound(rule, d, s.executions[id].currentStepName);
      RunningIsDefined(s, key, id);
    }
    forall n | 0 <= n < |chosen|
      ensures RunningAt(s, key, chosen[n].executionId) && InTurn(s, key, now, max, chosen[n].executionId)
      ensures HasLease(rule, d, chosen[n].stepName) <==> LeaseOf(rule, d, chosen[n].stepName).Some?
      ensures chosen[n].stepName == s.executions[chosen[n].executionId].currentStepName
    {
      ChosenIsCurrentRow(s, key, now, max, n);
      TurnIsChosen(s, key, now, max, chosen[n].executionId);
      LeaseIsFound(rule, d, chosen[n].stepName);
    }
  }

  /* ---- sweep ---- */

  /** The lease on the step the execution is at has run out. */
  ghost predicate RunOut(s: Store, now: Time, id: string) {
    && id in s.executions && s.executions[id].status.Running?
    && LeaseAt(s, CurrentKey(s.executions[id])).Some? && LeaseAt(s, CurrentKey(s.executions[id])).value.until <= now
  }

  lemma RunOutIsDue(s: Store, now: Time, id: string)
    requires Inv(s)
    ensures RunOut(s, now, id) <==> Due(s, now, id)
  {
    if Due(s, now, id) {
      assert StepOk(s, s.steps[CurrentKey(s.executions[id])]);
    }
  }

  /** A sweep goes through exactly when every step whose lease has run out is one its workflow's definition
      declares. */
  lemma SweepGoesThrough(rule: LeaseRule, s: Store, c: Call)
    requires Inv(s) && c.SweepCall? && Allowed(s, c)
    ensures GoesThrough(rule, s, c)
       <==> forall id :: RunOut(s, c.now, id) ==>
              RegisteredFor(s, id).Some? && DeclaresStep(RegisteredFor(s, id).value, s.executions[id].currentStepName)
  {
    SweepOrderFree(s, c.now, c.created, c.rows, c.rows);
    forall id | id in s.executions
      ensures RunOut(s, c.now, id) <==> id in DueIds(s, c.now)
      ensures DueRetries(s, id).Some? <==> RegisteredFor(s, id).Some? && DeclaresStep(RegisteredFor(s, id).value, s.executions[id].currentStepName)
    {
      RunOutIsDue(s, c.now, id);
      RetriesWhenDeclared(s, id);
    }
  }

  lemma RetriesWhenDeclared(s: Store, id: string)
    requires id in s.executions
    ensures DueRetries(s, id).Some? <==> RegisteredFor(s, id).Some? && DeclaresStep(RegisteredFor(s, id).value, s.executions[id].currentStepName)
  {
    if RegisteredFor(s, id).Some? {
      DeclaredIsFound(RegisteredFor(s, id).value, s.executions[id].currentStepName);
    }
  }
}
