/** Retries: how far the attempts of a visit go, and how many transitions an execution can make. */
module Retries {
  import opened Prelude
  import opened JsonValue
  import opened Domain
  import opened Tables
  import opened Operations
  import opened Candidates
  import opened Invariant
  import opened Preservation
  import opened Sweeping
  import opened Runs
  import opened Singletons

  /** The last attempt a visit to the step can reach. */
  function LastAttempt(d: WorkflowDefinition, stepName: string): nat {
    match RetriesOf(d, stepName)
    case None => 0
    case Some(m) => if m < 0 then 0 else m
  }

  /** The definitions give every step the same retry bound. */
  ghost predicate SameRetries(a: WorkflowDefinition, b: WorkflowDefinition) {
    forall name: string :: RetriesOf(a, name) == RetriesOf(b, name)
  }

  /** Whatever is registered for the workflow, its retry bounds are those of `d`. */
  ghost predicate RetriesFixed(s: Store, key: DefinitionKey, d: WorkflowDefinition) {
    key in s.definitions ==> SameRetries(s.definitions[key], d)
  }

  ghost predicate RegistersRetries(c: Call, key: DefinitionKey, d: WorkflowDefinition) {
    c.RegisterCall? && KeyOfDefinition(c.definition) == key ==> SameRetries(c.definition, d)
  }

  ghost predicate AttemptBounded(e: Execution, d: WorkflowDefinition) {
    0 <= e.currentStepAttempt <= LastAttempt(d, e.currentStepName)
  }

  ghost predicate AttemptsBounded(s: Store, key: DefinitionKey, d: WorkflowDefinition) {
    forall id :: id in s.executions && WorkflowOf(s.executions[id]) == key ==> AttemptBounded(s.executions[id], d)
  }

  /** How one call moves one execution between its statuses, steps and attempts, under fixed retry bounds. */
  ghost predicate Moves(c: Call, e: Execution, e': Execution, d: WorkflowDefinition) {
    || (e'.status == e.status && e'.currentStepName == e.currentStepName && e'.currentStepAttempt == e.currentStepAttempt)
    || (e.status.Running? && c.CompleteCall?
        && ((e'.status.Completed? && e'.currentStepName == e.currentStepName && e'.currentStepAttempt == e.currentStepAttempt)
            || (e'.status.Running? && e'.currentStepAttempt == 0 && RetriesOf(d, e'.currentStepName).Some?)))
    || (e.status.Running? && (c.FailCall? || c.SweepCall?)
        && e'.currentStepName == e.currentStepName
        && if e.currentStepAttempt < LastAttempt(d, e.currentStepName)
           then e'.status.Running? && e'.currentStepAttempt == e.currentStepAttempt + 1
           else e'.status.Failed? && e'.currentStepAttempt == e.currentStepAttempt)
    || (e.status.Running? && c.CancelCall? && e'.status.Canceled?
        && e'.currentStepName == e.currentStepName && e'.currentStepAttempt == e.currentStepAttempt)
  }

  lemma CallMoves(rule: LeaseRule, s: Store, c: Call, id: string, d: WorkflowDefinition)
    requires Inv(s) && Allowed(s, c) && id in s.executions
    requires RetriesFixed(s, WorkflowOf(s.executions[id]), d)
    ensures var t := After(rule, s, c);
            id in t.executions && WorkflowOf(t.executions[id]) == WorkflowOf(s.executions[id])
            && Moves(c, s.executions[id], t.executions[id], d)
  {
    var t := After(rule, s, c);
    CallChanges(rule, s, c, id);
    CallKeepsWorkflow(rule, s, c, id);
    ChangeMoves(rule, s, c, t, id, d);
  }

  lemma ChangeMoves(rule: LeaseRule, s: Store, c: Call, t: Store, id: string, d: WorkflowDefinition)
    requires Inv(s) && id in s.executions && id in t.executions && Change(rule, s, c, t, id) && RetriesFixed(s, WorkflowOf(s.executions[id]), d)
    ensures Moves(c, s.executions[id], t.executions[id], d)
  {
    if !Untouched(s, t, id) {
      match c
      case CompleteCall(clock, _, stepName, workerId, output, _, decision) =>
        CompletedMoves(s, t, id, clock, stepName, workerId, output, decision, d);
      case FailCall(clock, _, _, _, reason) => FailedMoves(s, t, id, reason, clock, d);
      case SweepCall(now, created, _) => FailedMoves(s, t, id, LEASE_EXPIRED, SweepClock(now, created, id), d);
      case _ =>
    }
  }

  lemma CompletedMoves(s: Store, t: Store, id: string, clock: Clock, stepName: string, workerId: string, output: Json, decision: NextStepDecision,
                       d: WorkflowDefinition)
    requires Inv(s) && id in s.executions && CompletedBy(s, t, id, clock, stepName, workerId, output, decision)
    requires RetriesFixed(s, WorkflowOf(s.executions[id]), d)
    ensures id in t.executions
    ensures var e, e' := s.executions[id], t.executions[id];
            e.status.Running?
            && ((e'.status.Completed? && e'.currentStepName == e.currentStepName && e'.currentStepAttempt == e.currentStepAttempt)
                || (e'.status.Running? && e'.currentStepAttempt == 0 && RetriesOf(d, e'.currentStepName).Some?))
  {
    var definition := Owned(s, id, stepName, workerId, clock.checked).value.definition;
    assert SameRetries(definition, d);
    assert RetriesOf(definition, t.executions[id].currentStepName) == RetriesOf(d, t.executions[id].currentStepName);
  }

  lemma FailedMoves(s: Store, t: Store, id: string, reason: string, clock: Clock, d: WorkflowDefinition)
    requires Inv(s) && FailedOnce(s, t, id, reason, clock) && RetriesFixed(s, WorkflowOf(s.executions[id]), d)
    ensures var e, e' := s.executions[id], t.executions[id];
            e.status.Running? && e'.currentStepName == e.currentStepName
            && if e.currentStepAttempt < LastAttempt(d, e.currentStepName)
               then e'.status.Running? && e'.currentStepAttempt == e.currentStepAttempt + 1
               else e'.status.Failed? && e'.currentStepAttempt == e.currentStepAttempt
  {
    var e := s.executions[id];
    assert ExecutionOk(s, e);
    assert SameRetries(s.definitions[WorkflowOf(e)], d);
    assert RetriesOf(s.definitions[WorkflowOf(e)], e.currentStepName) == RetriesOf(d, e.currentStepName);
  }

  lemma CallKeepsBound(rule: LeaseRule, s: Store, c: Call, key: DefinitionKey, d: WorkflowDefinition)
    requires Inv(s) && Allowed(s, c) && RetriesFixed(s, key, d) && RegistersRetries(c, key, d) && AttemptsBounded(s, key, d)
    ensures RetriesFixed(After(rule, s, c), key, d) && AttemptsBounded(After(rule, s, c), key, d)
  {
    var t := After(rule, s, c);
    LocksAndDefinitions(rule, s, c, key);
    forall id | id in t.executions && WorkflowOf(t.executions[id]) == key ensures AttemptBounded(t.executions[id], d) {
      if id in s.executions {
        CallKeepsWorkflow(rule, s, c, id);
        CallMoves(rule, s, c, id, d);
        MoveKeepsBound(c, s.executions[id], t.executions[id], d);
      } else {
        NewStartsAtZero(rule, s, c, id);
      }
    }
  }

  lemma MoveKeepsBound(c: Call, e: Execution, e': Execution, d: WorkflowDefinition)
    requires Moves(c, e, e', d) && AttemptBounded(e, d)
    ensures AttemptBounded(e', d)
  {
  }

  lemma NewStartsAtZero(rule: LeaseRule, s: Store, c: Call, id: string)
    requires Inv(s) && Allowed(s, c) && id !in s.executions && id in After(rule, s, c).executions
    ensures c.StartCall? && c.id == id && Effect(rule, s, c).Some?
    ensures After(rule, s, c).executions[id].currentStepAttempt == 0
  {
    CallAdds(rule, s, c);
  }

  /** With the retry bounds of a workflow fixed, no attempt of its executions ever goes past the bound of its
      step, in any run. */
  lemma {:induction false} RunAttemptsBounded(rule: LeaseRule, states: seq<Store>, calls: seq<Call>, key: DefinitionKey, d: WorkflowDefinition, i: nat)
    requires Run(rule, states, calls) && i <= |calls|
    requires RetriesFixed(states[0], key, d) && AttemptsBounded(states[0], key, d)
    requires forall j :: 0 <= j < |calls| ==> RegistersRetries(calls[j], key, d)
    ensures RetriesFixed(states[i], key, d) && AttemptsBounded(states[i], key, d)
  {
    if i > 0 {
      RunAttemptsBounded(rule, states, calls, key, d, i - 1);
      NextBounded(rule, states, calls, key, d, i - 1);
    }
  }

  lemma NextBounded(rule: LeaseRule, states: seq<Store>, calls: seq<Call>, key: DefinitionKey, d: WorkflowDefinition, i: nat)
    requires Run(rule, states, calls) && i < |calls| && RetriesFixed(states[i], key, d) && AttemptsBounded(states[i], key, d)
    requires RegistersRetries(calls[i], key, d)
    ensures RetriesFixed(states[i + 1], key, d) && AttemptsBounded(states[i + 1], key, d)
  {
    RunKeeps(rule, states, calls, i);
    assert Next(rule, states[i], calls[i], states[i + 1]);
    CallKeepsBound(rule, states[i], calls[i], key, d);
  }

  /** How many of the first `n` attempts at a step are failed rows. */
  function FailedBelow(s: Store, id: string, stepName: string, n: nat): nat {
    if n == 0 then 0
    else
      var k := StepKey(id, stepName, n - 1);
      FailedBelow(s, id, stepName, n - 1) + if k in s.steps && s.steps[k].status.Failed? then 1 else 0
  }

  lemma {:induction false} AllFailedBelow(s: Store, id: string, stepName: string, n: nat)
    ensures FailedBelow(s, id, stepName, n) <= n
    ensures (forall a :: 0 <= a < n ==> StepKey(id, stepName, a) in s.steps && s.steps[StepKey(id, stepName, a)].status.Failed?) ==>
              FailedBelow(s, id, stepName, n) == n
  {
    if n > 0 {
      AllFailedBelow(s, id, stepName, n - 1);
    }
  }

  /** While an execution runs, its current visit has failed exactly the attempts before the current one. */
  lemma FailuresSoFar(s: Store, id: string)
    requires Inv(s) && id in s.executions && s.executions[id].status.Running?
    ensures var e := s.executions[id];
            FailedBelow(s, id, e.currentStepName, e.currentStepAttempt) == e.currentStepAttempt
  {
    var e := s.executions[id];
    assert ExecutionOk(s, e) && EarlierAttempts(s, e);
    AllFailedBelow(s, id, e.currentStepName, e.currentStepAttempt);
  }

  /** A call fails an execution exactly with the last failure its step allows: the attempts of the visit are
      then all failed, one more of them than the step has retries. */
  lemma FailsOnLastFailure(rule: LeaseRule, s: Store, c: Call, id: string, d: WorkflowDefinition)
    requires Inv(s) && Allowed(s, c) && id in s.executions && s.executions[id].status.Running?
    requires RetriesFixed(s, WorkflowOf(s.executions[id]), d) && AttemptBounded(s.executions[id], d)
    ensures var e, t := s.executions[id], After(rule, s, c);
            id in t.executions
            && (t.executions[id].status.Failed? <==>
                  FailedBelow(t, id, e.currentStepName, e.currentStepAttempt + 1) == LastAttempt(d, e.currentStepName) + 1)
  {
    var e, t := s.executions[id], After(rule, s, c);
    CallMoves(rule, s, c, id, d);
    if t.executions[id].status.Failed? {
      FailedToTheEnd(rule, s, c, id);
    } else {
      AllFailedBelow(t, id, e.currentStepName, e.currentStepAttempt);
      CurrentNotLost(rule, s, c, id, d);
    }
  }

  lemma FailedToTheEnd(rule: LeaseRule, s: Store, c: Call, id: string)
    requires Inv(s) && Allowed(s, c) && id in s.executions && s.executions[id].status.Running?
    requires var t := After(rule, s, c); id in t.executions && t.executions[id].status.Failed?
    ensures var e := s.executions[id];
            FailedBelow(After(rule, s, c), id, e.currentStepName, e.currentStepAttempt + 1) == e.currentStepAttempt + 1
  {
    var r := HowFailed(rule, s, c, id);
    AllFailedAfter(s, After(rule, s, c), id, r);
  }

  lemma AllFailedAfter(s: Store, t: Store, id: string, r: StepExecution)
    requires Inv(s) && id in s.executions && s.executions[id].status.Running?
    requires r.status.Failed? && KeyOfStep(r) == CurrentKey(s.executions[id]) && SameRows(PutStep(s, r), t, id)
    ensures var e := s.executions[id];
            FailedBelow(t, id, e.currentStepName, e.currentStepAttempt + 1) == e.currentStepAttempt + 1
  {
    var e := s.executions[id];
    var n := e.currentStepAttempt;
    assert ExecutionOk(s, e) && EarlierAttempts(s, e);
    forall a | 0 <= a < n + 1
      ensures StepKey(id, e.currentStepName, a) in t.steps && t.steps[StepKey(id, e.currentStepName, a)].status.Failed?
    {
      var k := StepKey(id, e.currentStepName, a);
      assert Lookup(PutStep(s, r).steps, k) == Lookup(t.steps, k);
    }
    AllFailedBelow(t, id, e.currentStepName, n + 1);
  }

  /** A call that does not fail the execution leaves its current row unfailed, or had an attempt to spare. */
  lemma CurrentNotLost(rule: LeaseRule, s: Store, c: Call, id: string, d: WorkflowDefinition)
    requires Inv(s) && Allowed(s, c) && id in s.executions && s.executions[id].status.Running?
    requires RetriesFixed(s, WorkflowOf(s.executions[id]), d)
    requires var t := After(rule, s, c); id in t.executions && !t.executions[id].status.Failed?
    ensures var e, t := s.executions[id], After(rule, s, c);
            (CurrentKey(e) in t.steps && t.steps[CurrentKey(e)].status.Failed?) ==>
              e.currentStepAttempt < LastAttempt(d, e.currentStepName)
  {
    var e, t := s.executions[id], After(rule, s, c);
    if (c.FailCall? || c.SweepCall?) && !Untouched(s, t, id) {
      CallChanges(rule, s, c, id);
      RetrySpared(s, t, id, d, if c.FailCall? then c.reason else LEASE_EXPIRED,
                  if c.FailCall? then c.clock else SweepClock(c.now, c.created, id));
    } else {
      CurrentNotFailed(rule, s, c, id);
    }
  }

  lemma RetrySpared(s: Store, t: Store, id: string, d: WorkflowDefinition, reason: string, clock: Clock)
    requires Inv(s) && FailedOnce(s, t, id, reason, clock) && !t.executions[id].status.Failed?
    requires RetriesFixed(s, WorkflowOf(s.executions[id]), d)
    ensures s.executions[id].currentStepAttempt < LastAttempt(d, s.executions[id].currentStepName)
  {
    var e := s.executions[id];
    FailedOnceRows(s, t, id, reason, clock);
    assert ExecutionOk(s, e);
    assert SameRetries(s.definitions[WorkflowOf(e)], d);
    assert RetriesOf(s.definitions[WorkflowOf(e)], e.currentStepName) == RetriesOf(d, e.currentStepName);
  }

  lemma CurrentNotFailed(rule: LeaseRule, s: Store, c: Call, id: string)
    requires Inv(s) && Allowed(s, c) && id in s.executions && s.executions[id].status.Running?
    requires !(c.FailCall? || c.SweepCall?) || Untouched(s, After(rule, s, c), id)
    ensures var e, t := s.executions[id], After(rule, s, c);
            CurrentKey(e) in t.steps && !t.steps[CurrentKey(e)].status.Failed?
  {
    var t := After(rule, s, c);
    CallChanges(rule, s, c, id);
    var r := NotFailedRow(rule, s, c, t, id);
    ShapeNotFailed(s, t, id, r);
  }

  lemma NotFailedRow(rule: LeaseRule, s: Store, c: Call, t: Store, id: string) returns (r: StepExecution)
    requires Inv(s) && id in s.executions && s.executions[id].status.Running? && Change(rule, s, c, t, id)
    requires !(c.FailCall? || c.SweepCall?) || Untouched(s, t, id)
    ensures Shapes(s, t, id, r) && !r.status.Failed?
  {
    if Untouched(s, t, id) {
      r := Current(s, id);
      assert ExecutionOk(s, s.executions[id]);
    } else {
      r := ChangeShapes(rule, s, c, t, id);
    }
  }

  /** The current row is not failed afterwards unless it was closed as such. */
  lemma ShapeNotFailed(s: Store, t: Store, id: string, r: StepExecution)
    requires Inv(s) && id in s.executions && s.executions[id].status.Running? && Shapes(s, t, id, r) && !r.status.Failed?
    ensures var k := CurrentKey(s.executions[id]); k in t.steps && !t.steps[k].status.Failed?
  {
    var k := CurrentKey(s.executions[id]);
    assert ExecutionOk(s, s.executions[id]);
    if Untouched(s, t, id) {
      assert Lookup(s.steps, k) == Lookup(t.steps, k);
    } else if SameRows(PutStep(s, r), t, id) {
      assert Lookup(PutStep(s, r).steps, k) == Lookup(t.steps, k);
    } else {
      assert Lookup(PutStep(PutStep(s, r), t.steps[CurrentKey(t.executions[id])]).steps, k) == Lookup(t.steps, k);
    }
  }
}
