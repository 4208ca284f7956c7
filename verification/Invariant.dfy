/** The cross-table invariant no single operation checks, and the shapes of change that keep it. */
module Invariant {
  import opened Prelude
  import opened Domain
  import opened JsonValue
  import opened Tables
  import opened Operations

  /** The optional fields of a step row say what its status says. */
  predicate RowShape(r: StepExecution) {
    && r.createdAt.Some?
    && (r.leaseExpiresAt.Some? <==> r.status.Running?)
    && (r.failureReason.Some? <==> r.status.Failed?)
    && (r.completedAt.Some? <==> !r.Open())
    && (r.status.Running? ==> r.workerId.Some?)
    && (r.status.Pending? || r.status.Canceled? ==> r.workerId.None?)
  }

  predicate ExecutionShape(e: Execution) {
    && e.startedAt.Some?
    && (e.completedAt.Some? <==> !e.status.Running?)
    && (e.failureReason.Some? <==> e.status.Failed?)
    && 0 <= e.currentStepAttempt
  }

  /** The attempts of the current visit before the current one are all there, all failed, on the same input. */
  ghost predicate EarlierAttempts(s: Store, e: Execution)
    requires CurrentKey(e) in s.steps
  {
    forall a :: 0 <= a < e.currentStepAttempt ==>
      var k := StepKey(e.id, e.currentStepName, a);
      k in s.steps && s.steps[k].status.Failed? && s.steps[k].input == s.steps[CurrentKey(e)].input
  }

  ghost predicate ExecutionOk(s: Store, e: Execution) {
    && ExecutionShape(e)
    && WorkflowOf(e) in s.definitions
    && (e.status.Running? ==> CurrentKey(e) in s.steps && s.steps[CurrentKey(e)].Open() && EarlierAttempts(s, e))
  }

  /** An open row is the current step of a running execution of its own workflow. */
  ghost predicate StepOk(s: Store, r: StepExecution) {
    && RowShape(r)
    && r.executionId in s.executions
    && var e := s.executions[r.executionId];
       r.workflowName == e.workflowName && r.workflowVersion == e.workflowVersion
       && (r.Open() ==> e.status.Running? && CurrentKey(e) == KeyOfStep(r))
  }

  ghost predicate Inv(s: Store) {
    && Keyed(s)
    && (forall id :: id in s.executions ==> ExecutionOk(s, s.executions[id]))
    && (forall k :: k in s.steps ==> StepOk(s, s.steps[k]))
  }

  /** A running execution has exactly one open step row, the one it points at; any other has none. */
  lemma OneOpenRow(s: Store, id: string)
    requires Inv(s) && id in s.executions
    ensures var e := s.executions[id];
            var open := set k | k in s.steps && k.executionId == id && s.steps[k].Open();
            open == if e.status.Running? then {CurrentKey(e)} else {}
  {
    forall k | k in s.steps && k.executionId == id && s.steps[k].Open()
      ensures s.executions[id].status.Running? && k == CurrentKey(s.executions[id])
    {
      assert StepOk(s, s.steps[k]);
    }
    assert ExecutionOk(s, s.executions[id]);
  }

  /* ---- the five shapes of change ---- */

  lemma KeepsRegister(s: Store, d: WorkflowDefinition)
    requires Inv(s)
    ensures Inv(PutDefinition(s, d))
  {
    var t := PutDefinition(s, d);
    forall id | id in t.executions ensures ExecutionOk(t, t.executions[id]) {
      assert ExecutionOk(s, s.executions[id]);
    }
    forall k | k in t.steps ensures StepOk(t, t.steps[k]) {
      assert StepOk(s, s.steps[k]);
    }
  }

  lemma KeepsLock(s: Store, l: SingletonLock)
    requires Inv(s)
    ensures Inv(PutLock(s, l))
  {
    var t := PutLock(s, l);
    forall id | id in t.executions ensures ExecutionOk(t, t.executions[id]) {
      assert ExecutionOk(s, s.executions[id]);
    }
    forall k | k in t.steps ensures StepOk(t, t.steps[k]) {
      assert StepOk(s, s.steps[k]);
    }
  }

  /** A new running execution, with the open row of its first step. */
  ghost predicate Creates(s: Store, t: Store, e: Execution, r: StepExecution) {
    && e.id !in s.executions && ExecutionShape(e) && e.status.Running? && e.currentStepAttempt == 0 && WorkflowOf(e) in s.definitions
    && RowShape(r) && r.Open() && KeyOfStep(r) == CurrentKey(e)
    && r.workflowName == e.workflowName && r.workflowVersion == e.workflowVersion
    && t == PutStep(PutExecution(s, e), r)
  }

  /** A new execution with its first step. */
  lemma KeepsCreate(s: Store, e: Execution, r: StepExecution)
    requires Inv(s) && Creates(s, PutStep(PutExecution(s, e), r), e, r)
    ensures Inv(PutStep(PutExecution(s, e), r))
  {
    var t := PutStep(PutExecution(s, e), r);
    CreateKeepsExecutions(s, t, e, r);
    CreateKeepsSteps(s, t, e, r);
  }

  lemma CreateKeepsExecutions(s: Store, t: Store, e: Execution, r: StepExecution)
    requires Inv(s) && Creates(s, t, e, r)
    ensures forall id :: id in t.executions ==> ExecutionOk(t, t.executions[id])
  {
    forall id | id in t.executions ensures ExecutionOk(t, t.executions[id]) {
      if id != e.id {
        assert ExecutionOk(s, s.executions[id]);
        ElsewhereOk(s, t, s.executions[id], e.id);
      }
    }
  }

  lemma CreateKeepsSteps(s: Store, t: Store, e: Execution, r: StepExecution)
    requires Inv(s) && Creates(s, t, e, r)
    ensures forall k :: k in t.steps ==> StepOk(t, t.steps[k])
  {
    forall k | k in t.steps ensures StepOk(t, t.steps[k]) {
      if k != KeyOfStep(r) {
        assert StepOk(s, s.steps[k]);
      }
    }
  }

  /** What is well with one execution stays so when only rows of another change. */
  lemma ElsewhereOk(s: Store, t: Store, e: Execution, other: string)
    requires ExecutionOk(s, e) && e.id != other && t.definitions.Keys >= s.definitions.Keys
    requires forall k: StepKey :: k.executionId != other ==> Lookup(t.steps, k) == Lookup(s.steps, k)
    ensures ExecutionOk(t, e)
  {
    if e.status.Running? {
      assert Lookup(t.steps, CurrentKey(e)) == Lookup(s.steps, CurrentKey(e));
      forall a | 0 <= a < e.currentStepAttempt
        ensures var k := StepKey(e.id, e.currentStepName, a);
                k in t.steps && t.steps[k].status.Failed? && t.steps[k].input == t.steps[CurrentKey(e)].input
      {
        var k := StepKey(e.id, e.currentStepName, a);
        assert Lookup(t.steps, k) == Lookup(s.steps, k);
      }
    }
  }

  /** An open row changes and stays open: claim, reclaim, keep-alive. */
  lemma KeepsOpen(s: Store, r: StepExecution)
    requires Inv(s) && KeyOfStep(r) in s.steps
    requires var old_ := s.steps[KeyOfStep(r)];
             old_.Open() && r.Open() && RowShape(r) && r.input == old_.input
             && r.workflowName == old_.workflowName && r.workflowVersion == old_.workflowVersion
    ensures Inv(PutStep(s, r))
  {
    var t := PutStep(s, r);
    assert StepOk(s, s.steps[KeyOfStep(r)]);
    forall id | id in t.executions ensures ExecutionOk(t, t.executions[id]) {
      assert ExecutionOk(s, s.executions[id]);
    }
    forall k | k in t.steps ensures StepOk(t, t.steps[k]) {
      assert StepOk(s, s.steps[k]);
    }
  }

  /** The current row of a running execution, and the row and execution that end it. */
  ghost predicate Ends(s: Store, e: Execution, r: StepExecution) {
    && e.id in s.executions
    && var e0 := s.executions[e.id];
       e0.status.Running? && WorkflowOf(e) == WorkflowOf(e0)
       && KeyOfStep(r) == CurrentKey(e0) && !r.Open() && RowShape(r)
       && r.workflowName == e.workflowName && r.workflowVersion == e.workflowVersion
       && ExecutionShape(e)
  }

  /** The execution ends with its current step. */
  lemma KeepsEnd(s: Store, e: Execution, r: StepExecution)
    requires Inv(s) && Ends(s, e, r) && !e.status.Running?
    ensures Inv(PutExecution(PutStep(s, r), e))
  {
    var t := PutExecution(PutStep(s, r), e);
    assert ExecutionOk(s, s.executions[e.id]);
    forall id | id in t.executions ensures ExecutionOk(t, t.executions[id]) {
      assert ExecutionOk(s, s.executions[id]);
    }
    forall k | k in t.steps ensures StepOk(t, t.steps[k]) {
      if k != KeyOfStep(r) {
        assert StepOk(s, s.steps[k]);
      }
    }
  }

  /** The next attempt after a failure has all the earlier ones behind it, failed. */
  lemma MoveKeepsAttempts(s: Store, e: Execution, r: StepExecution, next: StepExecution)
    requires e.id in s.executions && CurrentKey(s.executions[e.id]) in s.steps && EarlierAttempts(s, s.executions[e.id])
    requires s.executions[e.id].id == e.id && KeyOfStep(r) == CurrentKey(s.executions[e.id]) && KeyOfStep(next) == CurrentKey(e)
    requires e.currentStepName == s.executions[e.id].currentStepName && e.currentStepAttempt == s.executions[e.id].currentStepAttempt + 1
    requires r.status.Failed? && r.input == next.input == s.steps[CurrentKey(s.executions[e.id])].input
    ensures EarlierAttempts(PutStep(PutExecution(PutStep(s, r), e), next), e)
  {
    var t, e0 := PutStep(PutExecution(PutStep(s, r), e), next), s.executions[e.id];
    forall a | 0 <= a < e.currentStepAttempt
      ensures var k := StepKey(e.id, e.currentStepName, a);
              k in t.steps && t.steps[k].status.Failed? && t.steps[k].input == next.input
    {
      if a < e0.currentStepAttempt {
        assert StepKey(e.id, e.currentStepName, a) in s.steps;
      }
    }
  }

  /** The execution leaves its current step for attempt 0 of some step, possibly the same one again, or for
      the next attempt of the same step after a failure. */
  lemma KeepsMove(s: Store, e: Execution, r: StepExecution, next: StepExecution)
    requires Inv(s) && Ends(s, e, r) && e.status.Running?
    requires KeyOfStep(next) == CurrentKey(e) && next.Open() && RowShape(next)
    requires next.workflowName == e.workflowName && next.workflowVersion == e.workflowVersion
    requires var e0 := s.executions[e.id];
             e.currentStepAttempt == 0
             || (e.currentStepName == e0.currentStepName && e.currentStepAttempt == e0.currentStepAttempt + 1
                 && r.status.Failed? && r.input == next.input == s.steps[CurrentKey(e0)].input)
    ensures Inv(PutStep(PutExecution(PutStep(s, r), e), next))
  {
    var t := PutStep(PutExecution(PutStep(s, r), e), next);
    assert ExecutionOk(s, s.executions[e.id]);
    if e.currentStepAttempt > 0 {
      MoveKeepsAttempts(s, e, r, next);
    }
    forall id | id in t.executions ensures ExecutionOk(t, t.executions[id]) {
      if id != e.id {
        assert ExecutionOk(s, s.executions[id]);
        ElsewhereOk(s, t, s.executions[id], e.id);
      }
    }
    MoveKeepsSteps(s, t, e, r, next);
  }

  lemma MoveKeepsSteps(s: Store, t: Store, e: Execution, r: StepExecution, next: StepExecution)
    requires Inv(s) && Ends(s, e, r) && e.status.Running? && t == PutStep(PutExecution(PutStep(s, r), e), next)
    requires KeyOfStep(next) == CurrentKey(e) && next.Open() && RowShape(next)
    requires next.workflowName == e.workflowName && next.workflowVersion == e.workflowVersion
    ensures forall k :: k in t.steps ==> StepOk(t, t.steps[k])
  {
    forall k | k in t.steps ensures StepOk(t, t.steps[k]) {
      if k != KeyOfStep(r) && k != KeyOfStep(next) {
        assert StepOk(s, s.steps[k]);
      }
    }
  }
}
