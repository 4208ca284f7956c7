/** How many transitions an execution can make when its routing never comes back to a step. */
module Progress {
  import opened Prelude
  import opened JsonValue
  import opened Domain
  import opened Tables
  import opened Operations
  import opened Candidates
  import opened Invariant
  import opened Preservation
  import opened Sweeping
  import opened Runs
  import opened Singletons
  import opened Retries
  import opened Inputs

  /** A completion, failure or expiry of the execution's current step. */
  ghost predicate Progresses(rule: LeaseRule, s: Store, c: Call, id: string)
    requires Keyed(s)
  {
    (c.CompleteCall? || c.FailCall? || c.SweepCall?) && Effect(rule, s, c).Some? && id in Effect(rule, s, c).value.executions
  }

  /** The three ways on: over, the next attempt, or attempt 0 of a declared step by a completion. */
  ghost predicate StepsOn(e: Execution, e': Execution, completes: bool, d: WorkflowDefinition) {
    && e.status.Running?
    && (|| !e'.status.Running?
        || (e'.currentStepName == e.currentStepName && e'.currentStepAttempt == e.currentStepAttempt + 1
            && e.currentStepAttempt < LastAttempt(d, e.currentStepName))
        || (completes && e'.currentStepAttempt == 0 && RetriesOf(d, e'.currentStepName).Some?))
  }

  lemma SettleStepsOn(e: Execution, r: StepExecution, maxRetries: int, reason: string, clock: Clock, d: WorkflowDefinition)
    requires e.status.Running? && 0 <= e.currentStepAttempt && RetriesOf(d, e.currentStepName) == Some(maxRetries)
    ensures StepsOn(e, Settle(e, r, maxRetries, reason, clock).execution, false, d)
  {
  }

  lemma CompleteStepsOn(s: Store, clock: Clock, id: string, stepName: string, workerId: string, output: Json,
                        delay: Option<Time>, decision: NextStepDecision, d: WorkflowDefinition)
    requires Inv(s) && Complete(s, clock, id, stepName, workerId, output, delay, decision).Done?
    requires id in s.executions && RetriesFixed(s, WorkflowOf(s.executions[id]), d)
    ensures var t := Apply(s, Complete(s, clock, id, stepName, workerId, output, delay, decision).writes);
            id in t.executions && StepsOn(s.executions[id], t.executions[id], true, d)
  {
    OwnedIsCurrent(s, id, stepName, workerId, clock.checked);
    var claim := Owned(s, id, stepName, workerId, clock.checked).value;
    assert SameRetries(claim.definition, d);
    if !decision.workflowComplete {
      assert RetriesOf(claim.definition, decision.nextStepName.value) == RetriesOf(d, decision.nextStepName.value);
    }
  }

  lemma FailStepsOn(s: Store, clock: Clock, id: string, stepName: string, workerId: string, reason: string, d: WorkflowDefinition)
    requires Inv(s) && Fail(s, clock, id, stepName, workerId, reason).Done?
    requires id in s.executions && RetriesFixed(s, WorkflowOf(s.executions[id]), d)
    ensures var t := Apply(s, Fail(s, clock, id, stepName, workerId, reason).writes);
            id in t.executions && StepsOn(s.executions[id], t.executions[id], false, d)
  {
    OwnedIsCurrent(s, id, stepName, workerId, clock.checked);
    var claim := Owned(s, id, stepName, workerId, clock.checked).value;
    assert SameRetries(claim.definition, d);
    assert RetriesOf(claim.definition, stepName) == RetriesOf(d, stepName);
  }

  lemma WrittenIsDue(s: Store, now: Time, created: map<string, Time>, rows: seq<StepExecution>, id: string)
    requires Inv(s) && Enumerates(rows, Select(s, ByStatus(StepStatus.Running))) && Sweep(s, now, created, rows).Done?
    requires id in Sweep(s, now, created, rows).writes.executions
    ensures Due(s, now, id)
  {
    SweepIsPlan(s, now, created, rows);
    PlannedIsDue(PlanFor(s, now, created, DueIds(s, now)), Sweep(s, now, created, rows).writes, id);
  }

  lemma PlannedIsDue(plan: Plan, w: Store, id: string)
    requires CarriesOut(plan, w) && id in w.executions
    ensures id in plan
  {
    assert id in w.executions.Keys;
  }

  lemma SweptStepsOn(s: Store, t: Store, now: Time, created: map<string, Time>, id: string, d: WorkflowDefinition, e: Execution)
    requires ExecutionShape(e) && id in s.executions && e == s.executions[id] && RetriesFixed(s, WorkflowOf(e), d)
    requires Due(s, now, id) && SweptAs(s, t, now, created, id)
    ensures id in t.executions && StepsOn(e, t.executions[id], false, d)
  {
    assert SameRetries(s.definitions[WorkflowOf(e)], d);
    assert RetriesOf(s.definitions[WorkflowOf(e)], e.currentStepName) == RetriesOf(d, e.currentStepName);
    SettleStepsOn(e, s.steps[CurrentKey(e)], DueRetries(s, id).value, LEASE_EXPIRED, SweepClock(now, created, id), d);
  }

  lemma SweepStepsOn(s: Store, now: Time, created: map<string, Time>, rows: seq<StepExecution>, id: string, d: WorkflowDefinition)
    requires Inv(s) && Enumerates(rows, Select(s, ByStatus(StepStatus.Running))) && Sweep(s, now, created, rows).Done?
    requires id in Sweep(s, now, created, rows).writes.executions
    requires id in s.executions && RetriesFixed(s, WorkflowOf(s.executions[id]), d)
    ensures var t := Apply(s, Sweep(s, now, created, rows).writes);
            id in t.executions && StepsOn(s.executions[id], t.executions[id], false, d)
  {
    WrittenIsDue(s, now, created, rows, id);
    SweptExecution(s, now, created, rows, id);
    assert ExecutionOk(s, s.executions[id]);
    SweptStepsOn(s, Apply(s, Sweep(s, now, created, rows).writes), now, created, id, d, s.executions[id]);
  }

  lemma CompletionStepsOn(rule: LeaseRule, s: Store, c: Call, id: string, d: WorkflowDefinition)
    requires Inv(s) && c.CompleteCall? && Progresses(rule, s, c, id) && id in s.executions
    requires RetriesFixed(s, WorkflowOf(s.executions[id]), d)
    ensures id in After(rule, s, c).executions && Completes(rule, s, c, id)
    ensures StepsOn(s.executions[id], After(rule, s, c).executions[id], true, d)
  {
    assert c.id == id by { OwnedIsCurrent(s, c.id, c.stepName, c.workerId, c.clock.checked); }
    CompleteStepsOn(s, c.clock, id, c.stepName, c.workerId, c.output, c.delay, c.decision, d);
  }

  lemma FailureStepsOn(rule: LeaseRule, s: Store, c: Call, id: string, d: WorkflowDefinition)
    requires Inv(s) && c.FailCall? && Progresses(rule, s, c, id) && id in s.executions
    requires RetriesFixed(s, WorkflowOf(s.executions[id]), d)
    ensures id in After(rule, s, c).executions
    ensures StepsOn(s.executions[id], After(rule, s, c).executions[id], false, d)
  {
    assert c.id == id by { OwnedIsCurrent(s, c.id, c.stepName, c.workerId, c.clock.checked); }
    FailStepsOn(s, c.clock, id, c.stepName, c.workerId, c.reason, d);
  }

  lemma ProgressStepsOn(rule: LeaseRule, s: Store, c: Call, id: string, d: WorkflowDefinition)
    requires Inv(s) && Allowed(s, c) && Progresses(rule, s, c, id) && id in s.executions
    requires RetriesFixed(s, WorkflowOf(s.executions[id]), d)
    ensures id in After(rule, s, c).executions
    ensures StepsOn(s.executions[id], After(rule, s, c).executions[id], Completes(rule, s, c, id), d)
  {
    if c.CompleteCall? {
      CompletionStepsOn(rule, s, c, id, d);
    } else if c.FailCall? {
      FailureStepsOn(rule, s, c, id, d);
    } else {
      SweepStepsOn(s, c.now, c.created, c.rows, id, d);
    }
  }

  /** Any other call leaves the execution's row alone or ends the execution. */
  lemma OtherwiseStays(rule: LeaseRule, s: Store, c: Call, id: string)
    requires Inv(s) && Allowed(s, c) && !Progresses(rule, s, c, id) && id in s.executions
    ensures id in After(rule, s, c).executions
    ensures var e, e' := s.executions[id], After(rule, s, c).executions[id]; e' == e || !e'.status.Running?
  {
    CallChanges(rule, s, c, id);
  }

  /* ---- the bound ---- */

  /** One transition for each attempt the steps not yet visited allow. */
  function Budget(d: WorkflowDefinition, steps: seq<WorkflowStep>, visited: set<string>): nat {
    if steps == [] then 0
    else
      var name := steps[|steps| - 1].name;
      Budget(d, steps[..|steps| - 1], visited) + if name in visited then 0 else LastAttempt(d, name) + 1
  }

  lemma {:induction false} BudgetShrinks(d: WorkflowDefinition, steps: seq<WorkflowStep>, visited: set<string>, name: string)
    requires name !in visited
    ensures Budget(d, steps, visited + {name}) <= Budget(d, steps, visited)
    ensures (exists i :: 0 <= i < |steps| && steps[i].name == name) ==>
              Budget(d, steps, visited + {name}) + LastAttempt(d, name) + 1 <= Budget(d, steps, visited)
  {
    if steps != [] {
      var front := steps[..|steps| - 1];
      BudgetShrinks(d, front, visited, name);
      if i :| 0 <= i < |steps| && steps[i].name == name && steps[|steps| - 1].name != name {
        assert front[i].name == name;
      }
    }
  }

  /** The transitions left to an execution: the attempts its current visit still allows, then the budget of
      the steps it has not been at. */
  function Left(d: WorkflowDefinition, e: Execution, visited: set<string>): int {
    if e.status.Running? then Budget(d, d.steps, visited) + LastAttempt(d, e.currentStepName) + 1 - e.currentStepAttempt else 0
  }

  /** A transition that does not go back to a step already visited uses up at least one of those left. */
  lemma StepUsesOne(d: WorkflowDefinition, e: Execution, e': Execution, completes: bool, visited: set<string>)
    requires StepsOn(e, e', completes, d) && AttemptBounded(e, d) && e.currentStepName in visited
    requires completes && e'.status.Running? ==> e'.currentStepName !in visited
    ensures Left(d, e', visited + {e'.currentStepName}) + 1 <= Left(d, e, visited)
  {
    if e'.status.Running? {
      if e'.currentStepName == e.currentStepName {
        assert visited + {e'.currentStepName} == visited;
      } else {
        var step := FindStep(d.steps, e'.currentStepName).value;
        assert step in d.steps && step.name == e'.currentStepName;
        BudgetShrinks(d, d.steps, visited, e'.currentStepName);
      }
    }
  }

  lemma StayUsesNone(d: WorkflowDefinition, e: Execution, e': Execution, visited: set<string>)
    requires (e' == e || !e'.status.Running?) && AttemptBounded(e, d) && e.currentStepName in visited
    ensures Left(d, e', visited + {e'.currentStepName}) <= Left(d, e, visited)
  {
    if e' == e {
      assert visited + {e'.currentStepName} == visited;
    }
  }

  /** The steps an execution has been at since state `i`. */
  ghost function Visited(states: seq<Store>, i: nat, j: nat, id: string): set<string>
    requires i <= j < |states|
    decreases j - i
  {
    var here := if id in states[j].executions then {states[j].executions[id].currentStepName} else {};
    if i == j then here else Visited(states, i, j - 1, id) + here
  }

  ghost function Transitions(rule: LeaseRule, states: seq<Store>, calls: seq<Call>, i: nat, j: nat, id: string): nat
    requires i <= j <= |calls| && |states| == |calls| + 1
    decreases j - i
  {
    if i == j then 0
    else
      Transitions(rule, states, calls, i, j - 1, id)
      + if Keyed(states[j - 1]) && Progresses(rule, states[j - 1], calls[j - 1], id) then 1 else 0
  }

  /** The `n`-th call, if it completes a step of the execution, does not take it back to one it has been at. */
  ghost predicate Forward(rule: LeaseRule, states: seq<Store>, calls: seq<Call>, i: nat, n: nat, id: string)
    requires i <= n < |calls| && |states| == |calls| + 1
  {
    Keyed(states[n]) && Completes(rule, states[n], calls[n], id)
    && id in states[n + 1].executions && states[n + 1].executions[id].status.Running? ==>
      states[n + 1].executions[id].currentStepName !in Visited(states, i, n, id)
  }

  ghost predicate NeverBack(rule: LeaseRule, states: seq<Store>, calls: seq<Call>, i: nat, j: nat, id: string)
    requires i <= j <= |calls| && |states| == |calls| + 1
  {
    forall n :: i <= n < j ==> Forward(rule, states, calls, i, n, id)
  }

  /** Every definition registered for the workflow has the retry bounds of `d`, from the first state on. */
  ghost predicate BoundsFixed(rule: LeaseRule, states: seq<Store>, calls: seq<Call>, key: DefinitionKey, d: WorkflowDefinition)
    requires Run(rule, states, calls)
  {
    && RetriesFixed(states[0], key, d) && AttemptsBounded(states[0], key, d)
    && forall j :: 0 <= j < |calls| ==> RegistersRetries(calls[j], key, d)
  }

  lemma LeftAfter(rule: LeaseRule, s: Store, c: Call, key: DefinitionKey, d: WorkflowDefinition, id: string, visited: set<string>)
    requires Inv(s) && Allowed(s, c) && RetriesFixed(s, key, d) && AttemptsBounded(s, key, d)
    requires id in s.executions && WorkflowOf(s.executions[id]) == key && s.executions[id].currentStepName in visited
    requires id in After(rule, s, c).executions
    requires var e' := After(rule, s, c).executions[id];
             e'.status.Running? && Completes(rule, s, c, id) ==> e'.currentStepName !in visited
    ensures var e' := After(rule, s, c).executions[id];
            Left(d, e', visited + {e'.currentStepName}) + (if Progresses(rule, s, c, id) then 1 else 0) <= Left(d, s.executions[id], visited)
  {
    var e, e' := s.executions[id], After(rule, s, c).executions[id];
    assert AttemptBounded(e, d);
    if Progresses(rule, s, c, id) {
      ProgressStepsOn(rule, s, c, id, d);
      StepUsesOne(d, e, e', Completes(rule, s, c, id), visited);
    } else {
      OtherwiseStays(rule, s, c, id);
      StayUsesNone(d, e, e', visited);
    }
  }

  /** What a run knows before and during its `n`-th call. */
  ghost predicate AtCall(rule: LeaseRule, states: seq<Store>, calls: seq<Call>, n: nat, key: DefinitionKey, d: WorkflowDefinition)
    requires n < |calls| && |states| == |calls| + 1
  {
    && Inv(states[n]) && Next(rule, states[n], calls[n], states[n + 1])
    && RetriesFixed(states[n], key, d) && AttemptsBounded(states[n], key, d)
  }

  lemma RunAtCall(rule: LeaseRule, states: seq<Store>, calls: seq<Call>, n: nat, key: DefinitionKey, d: WorkflowDefinition)
    requires Run(rule, states, calls) && n < |calls| && BoundsFixed(rule, states, calls, key, d)
    ensures AtCall(rule, states, calls, n, key, d)
  {
    RunKeeps(rule, states, calls, n);
    RunAttemptsBounded(rule, states, calls, key, d, n);
  }

  /** The transitions made and those left are together no more than there were at first. */
  ghost predicate UsedUp(rule: LeaseRule, states: seq<Store>, calls: seq<Call>, i: nat, j: nat, key: DefinitionKey,
                         d: WorkflowDefinition, id: string, allowed: int)
    requires i <= j <= |calls| && |states| == |calls| + 1
  {
    && id in states[j].executions && WorkflowOf(states[j].executions[id]) == key
    && states[j].executions[id].currentStepName in Visited(states, i, j, id)
    && Transitions(rule, states, calls, i, j, id) + Left(d, states[j].executions[id], Visited(states, i, j, id)) <= allowed
  }

  lemma UsedUpAtFirst(rule: LeaseRule, states: seq<Store>, calls: seq<Call>, i: nat, key: DefinitionKey, d: WorkflowDefinition, id: string)
    requires i <= |calls| && |states| == |calls| + 1 && id in states[i].executions && WorkflowOf(states[i].executions[id]) == key
    ensures UsedUp(rule, states, calls, i, i, key, d, id, Left(d, states[i].executions[id], {states[i].executions[id].currentStepName}))
  {
  }

  lemma OneMoreCall(rule: LeaseRule, states: seq<Store>, calls: seq<Call>, i: nat, j: nat,
                    key: DefinitionKey, d: WorkflowDefinition, id: string, allowed: int)
    requires i <= j < |calls| && |states| == |calls| + 1 && UsedUp(rule, states, calls, i, j, key, d, id, allowed)
    requires AtCall(rule, states, calls, j, key, d) && Forward(rule, states, calls, i, j, id)
    ensures UsedUp(rule, states, calls, i, j + 1, key, d, id, allowed)
  {
    CallKeepsWorkflow(rule, states[j], calls[j], id);
    LeftAfter(rule, states[j], calls[j], key, d, id, Visited(states, i, j, id));
  }

  /** The `n`-th call keeps to the transitions there were at first. */
  ghost predicate StaysWithin(rule: LeaseRule, states: seq<Store>, calls: seq<Call>, i: nat, n: nat, key: DefinitionKey, d: WorkflowDefinition,
                              id: string, allowed: int)
    requires i <= n < |calls| && |states| == |calls| + 1
  {
    UsedUp(rule, states, calls, i, n, key, d, id, allowed) ==> UsedUp(rule, states, calls, i, n + 1, key, d, id, allowed)
  }

  lemma AllStayWithin(rule: LeaseRule, states: seq<Store>, calls: seq<Call>, i: nat, j: nat, key: DefinitionKey, d: WorkflowDefinition, id: string, allowed: int)
    requires Run(rule, states, calls) && i <= j <= |calls| && BoundsFixed(rule, states, calls, key, d)
    requires NeverBack(rule, states, calls, i, j, id)
    ensures forall n :: i <= n < j ==> StaysWithin(rule, states, calls, i, n, key, d, id, allowed)
  {
    forall n | i <= n < j ensures StaysWithin(rule, states, calls, i, n, key, d, id, allowed) {
      if UsedUp(rule, states, calls, i, n, key, d, id, allowed) {
        NextUsesUp(rule, states, calls, i, n, j, key, d, id, allowed);
      }
    }
  }

  lemma {:induction false} RunUsesUp(rule: LeaseRule, states: seq<Store>, calls: seq<Call>, i: nat, j: nat, end: nat,
                                     key: DefinitionKey, d: WorkflowDefinition, id: string, allowed: int)
    requires i <= j <= end <= |calls| && |states| == |calls| + 1 && UsedUp(rule, states, calls, i, j, key, d, id, allowed)
    requires forall n :: i <= n < end ==> StaysWithin(rule, states, calls, i, n, key, d, id, allowed)
    ensures UsedUp(rule, states, calls, i, end, key, d, id, allowed)
    decreases end - j
  {
    if j < end {
      assert StaysWithin(rule, states, calls, i, j, key, d, id, allowed);
      RunUsesUp(rule, states, calls, i, j + 1, end, key, d, id, allowed);
    }
  }

  lemma NextUsesUp(rule: LeaseRule, states: seq<Store>, calls: seq<Call>, i: nat, j: nat, end: nat,
                   key: DefinitionKey, d: WorkflowDefinition, id: string, allowed: int)
    requires Run(rule, states, calls) && i <= j < end <= |calls| && BoundsFixed(rule, states, calls, key, d)
    requires UsedUp(rule, states, calls, i, j, key, d, id, allowed) && NeverBack(rule, states, calls, i, end, id)
    ensures UsedUp(rule, states, calls, i, j + 1, key, d, id, allowed)
  {
    RunAtCall(rule, states, calls, j, key, d);
    OneMoreCall(rule, states, calls, i, j, key, d, id, allowed);
  }

  lemma UsedUpBounds(rule: LeaseRule, states: seq<Store>, calls: seq<Call>, i: nat, j: nat, key: DefinitionKey, d: WorkflowDefinition, id: string,
                     allowed: int)
    requires i <= j <= |calls| && |states| == |calls| + 1
    requires UsedUp(rule, states, calls, i, j, key, d, id, allowed) && AttemptsBounded(states[j], key, d)
    ensures Transitions(rule, states, calls, i, j, id) <= allowed
  {
    LeftIsNatural(states[j], key, d, id, Visited(states, i, j, id));
  }

  /** The call before state `i` started the execution at a declared step. */
  lemma StartUsesNone(rule: LeaseRule, s: Store, c: Call, states: seq<Store>, calls: seq<Call>, i: nat, key: DefinitionKey,
                      d: WorkflowDefinition, id: string)
    requires i <= |calls| && |states| == |calls| + 1 && Inv(s) && Starts(rule, s, c, id) && states[i] == After(rule, s, c)
    requires key == DefinitionKey(c.name, c.version)
    requires id in states[i].executions && FindStep(d.steps, states[i].executions[id].currentStepName).Some?
    ensures UsedUp(rule, states, calls, i, i, key, d, id, Budget(d, d.steps, {}))
  {
    StartsFresh(rule, s, c, id);
    UsedUpAtFirst(rule, states, calls, i, key, d, id);
    LeftAtFirst(d, states[i].executions[id]);
  }

  /** A started execution whose routing never comes back to a step completes, fails and expires steps at most
      as many times as there are attempts in its definition: one more than its retries for each step. */
  lemma FewTransitions(rule: LeaseRule, states: seq<Store>, calls: seq<Call>, i: nat, j: nat, key: DefinitionKey, d: WorkflowDefinition, id: string)
    requires Run(rule, states, calls) && 0 < i <= j <= |calls| && BoundsFixed(rule, states, calls, key, d)
    requires StartedAt(rule, states[i - 1], calls[i - 1], key, id)
    requires NeverBack(rule, states, calls, i, j, id)
    ensures Transitions(rule, states, calls, i, j, id) <= Budget(d, d.steps, {})
  {
    StartedHere(rule, states, calls, i - 1, key, id);
    if FindStep(d.steps, states[i].executions[id].currentStepName).Some? {
      RunStartUsesNone(rule, states, calls, i, key, d, id);
      RunBounds(rule, states, calls, i, j, key, d, id, Budget(d, d.steps, {}));
    } else {
      UndeclaredNeverMoves(rule, states, calls, i, j, key, d, id);
    }
  }

  lemma StartedHere(rule: LeaseRule, states: seq<Store>, calls: seq<Call>, n: nat, key: DefinitionKey, id: string)
    requires Run(rule, states, calls) && n < |calls| && StartedAt(rule, states[n], calls[n], key, id)
    ensures WaitsAt(states[n + 1], id, key)
  {
    RunKeeps(rule, states, calls, n);
    RunKeeps(rule, states, calls, n + 1);
    assert Next(rule, states[n], calls[n], states[n + 1]);
    StartsWaiting(rule, states[n], calls[n], id);
  }

  /** The execution runs, and its current step is pending. */
  ghost predicate WaitsAt(s: Store, id: string, key: DefinitionKey) {
    Inv(s) && RunningAt(s, key, id) && Current(s, id).status.Pending?
  }

  lemma StartsWaiting(rule: LeaseRule, s: Store, c: Call, id: string)
    requires Inv(s) && Allowed(s, c) && Starts(rule, s, c, id) && Inv(After(rule, s, c))
    ensures WaitsAt(After(rule, s, c), id, DefinitionKey(c.name, c.version))
  {
  }

  /* ---- a start step that is not declared ---- */

  /** An execution that is over, or waits at a step the definition does not declare. */
  ghost predicate Idle(s: Store, id: string, key: DefinitionKey, d: WorkflowDefinition) {
    && Inv(s) && id in s.executions && WorkflowOf(s.executions[id]) == key
    && (s.executions[id].status.Running? ==>
          Current(s, id).status.Pending? && FindStep(d.steps, s.executions[id].currentStepName).None?)
  }

  lemma UndeclaredHasNoLease(rule: LeaseRule, s: Store, key: DefinitionKey, d: WorkflowDefinition, stepName: string)
    requires key in s.definitions && RetriesFixed(s, key, d) && FindStep(d.steps, stepName).None?
    ensures LeaseOf(rule, s.definitions[key], stepName).None?
  {
    assert SameRetries(s.definitions[key], d);
    assert RetriesOf(s.definitions[key], stepName) == RetriesOf(d, stepName);
  }

  lemma IdleStays(rule: LeaseRule, s: Store, c: Call, id: string, key: DefinitionKey, d: WorkflowDefinition)
    requires Idle(s, id, key, d) && Allowed(s, c) && RetriesFixed(s, key, d)
    ensures Idle(After(rule, s, c), id, key, d)
  {
    var t := After(rule, s, c);
    CallKeeps(rule, s, c);
    CallChanges(rule, s, c, id);
    if s.executions[id].status.Running? {
      assert ExecutionOk(s, s.executions[id]);
      UndeclaredHasNoLease(rule, s, key, d, s.executions[id].currentStepName);
      PendingStays(rule, s, c, t, id);
      if Untouched(s, t, id) {
        UntouchedCurrent(s, t, id);
      } else {
        CallKeepsWorkflow(rule, s, c, id);
      }
    }
  }

  lemma UntouchedCurrent(s: Store, t: Store, id: string)
    requires Inv(s) && Inv(t) && Untouched(s, t, id) && s.executions[id].status.Running?
    ensures Current(t, id) == Current(s, id)
  {
    var k := CurrentKey(s.executions[id]);
    assert Lookup(s.steps, k) == Lookup(t.steps, k);
  }

  /** Nothing completes, fails or expires a step that is not running. */
  lemma IdleDoesNotProgress(rule: LeaseRule, s: Store, c: Call, id: string, key: DefinitionKey, d: WorkflowDefinition)
    requires Idle(s, id, key, d) && Allowed(s, c)
    ensures !Progresses(rule, s, c, id)
  {
    if Progresses(rule, s, c, id) {
      if c.SweepCall? {
        WrittenIsDue(s, c.now, c.created, c.rows, id);
      } else {
        OwnedIsCurrent(s, c.id, c.stepName, c.workerId, c.clock.checked);
      }
    }
  }

  lemma {:induction false} IdleRun(rule: LeaseRule, states: seq<Store>, calls: seq<Call>, i: nat, j: nat, key: DefinitionKey, d: WorkflowDefinition, id: string)
    requires Run(rule, states, calls) && i <= j <= |calls| && BoundsFixed(rule, states, calls, key, d) && Idle(states[i], id, key, d)
    ensures Idle(states[j], id, key, d) && Transitions(rule, states, calls, i, j, id) == 0
    decreases j - i
  {
    if i < j {
      IdleRun(rule, states, calls, i, j - 1, key, d, id);
      IdleStep(rule, states, calls, i, j - 1, key, d, id);
    }
  }

  lemma IdleStep(rule: LeaseRule, states: seq<Store>, calls: seq<Call>, i: nat, j: nat, key: DefinitionKey, d: WorkflowDefinition, id: string)
    requires Run(rule, states, calls) && i <= j < |calls| && BoundsFixed(rule, states, calls, key, d) && Idle(states[j], id, key, d)
    ensures Idle(states[j + 1], id, key, d)
    ensures Transitions(rule, states, calls, i, j + 1, id) == Transitions(rule, states, calls, i, j, id)
  {
    RunAtCall(rule, states, calls, j, key, d);
    IdleStays(rule, states[j], calls[j], id, key, d);
    IdleDoesNotProgress(rule, states[j], calls[j], id, key, d);
  }

  lemma UndeclaredNeverMoves(rule: LeaseRule, states: seq<Store>, calls: seq<Call>, i: nat, j: nat, key: DefinitionKey, d: WorkflowDefinition, id: string)
    requires Run(rule, states, calls) && i <= j <= |calls| && BoundsFixed(rule, states, calls, key, d)
    requires WaitsAt(states[i], id, key) && FindStep(d.steps, states[i].executions[id].currentStepName).None?
    ensures Transitions(rule, states, calls, i, j, id) == 0
  {
    IdleRun(rule, states, calls, i, j, key, d, id);
  }

  ghost predicate StartedAt(rule: LeaseRule, s: Store, c: Call, key: DefinitionKey, id: string) {
    Keyed(s) && Starts(rule, s, c, id) && key == DefinitionKey(c.name, c.version)
  }

  lemma RunStartUsesNone(rule: LeaseRule, states: seq<Store>, calls: seq<Call>, i: nat, key: DefinitionKey, d: WorkflowDefinition, id: string)
    requires Run(rule, states, calls) && 0 < i <= |calls| && StartedAt(rule, states[i - 1], calls[i - 1], key, id)
    requires id in states[i].executions && FindStep(d.steps, states[i].executions[id].currentStepName).Some?
    ensures UsedUp(rule, states, calls, i, i, key, d, id, Budget(d, d.steps, {}))
  {
    RunKeeps(rule, states, calls, i - 1);
    assert Next(rule, states[i - 1], calls[i - 1], states[i]);
    StartUsesNone(rule, states[i - 1], calls[i - 1], states, calls, i, key, d, id);
  }

  lemma RunBounds(rule: LeaseRule, states: seq<Store>, calls: seq<Call>, i: nat, j: nat, key: DefinitionKey, d: WorkflowDefinition, id: string,
                  allowed: int)
    requires Run(rule, states, calls) && i <= j <= |calls| && BoundsFixed(rule, states, calls, key, d)
    requires UsedUp(rule, states, calls, i, i, key, d, id, allowed) && NeverBack(rule, states, calls, i, j, id)
    ensures Transitions(rule, states, calls, i, j, id) <= allowed
  {
    AllStayWithin(rule, states, calls, i, j, key, d, id, allowed);
    RunUsesUp(rule, states, calls, i, i, j, key, d, id, allowed);
    RunAttemptsBounded(rule, states, calls, key, d, j);
    UsedUpBounds(rule, states, calls, i, j, key, d, id, allowed);
  }

  lemma StartsFresh(rule: LeaseRule, s: Store, c: Call, id: string)
    requires Inv(s) && Starts(rule, s, c, id)
    ensures id in After(rule, s, c).executions
    ensures var e := After(rule, s, c).executions[id];
            e.currentStepAttempt == 0 && e.status.Running? && WorkflowOf(e) == DefinitionKey(c.name, c.version)
  {
  }

  lemma LeftAtFirst(d: WorkflowDefinition, e: Execution)
    requires e.currentStepAttempt == 0 && FindStep(d.steps, e.currentStepName).Some?
    ensures Left(d, e, {e.currentStepName}) <= Budget(d, d.steps, {})
  {
    var step := FindStep(d.steps, e.currentStepName).value;
    assert step in d.steps && step.name == e.currentStepName;
    BudgetShrinks(d, d.steps, {}, e.currentStepName);
    assert {} + {e.currentStepName} == {e.currentStepName};
  }

  lemma LeftIsNatural(s: Store, key: DefinitionKey, d: WorkflowDefinition, id: string, visited: set<string>)
    requires id in s.executions && WorkflowOf(s.executions[id]) == key && AttemptsBounded(s, key, d)
    ensures Left(d, s.executions[id], visited) >= 0
  {
    assert AttemptBounded(s.executions[id], d);
  }
}
