/** The orchestrator's operations, statement by statement, against the functions that specify them. */
module Orchestration {
  import opened Prelude
  import opened JsonValue
  import opened Domain
  import opened Tables
  import opened Operations
  import opened Candidates
  import opened Preservation
  import opened Footprints
  import opened Transactions
  import Duration

  /** A call in a transaction did what its function says on the tables the transaction saw: it throws when
      the function does; otherwise it returns the function's value, stages exactly its writes, and has read
      everything the outcome depends on. */
  ghost predicate Refines<T>(o: Outcome<T>, r: Result<T>, staged: Store, now: Store, observed: set<Read>, needed: set<Read>) {
    && (r.Threw? <==> o.Thrown?)
    && (o.Done? ==> r == Returned(o.value) && now == Apply(staged, o.writes) && needed <= observed)
  }

  class Orchestrator {
    const decideNextStep: Logic
    const leaseRule: LeaseRule

    constructor (decide: Logic)
      ensures decideNextStep == decide
      ensures leaseRule == Duration.LeaseSeconds
    {
      decideNextStep := decide;
      leaseRule := Duration.LeaseSeconds;
    }

    method RegisterWorkflowDefinition(tx: Transaction, definition: WorkflowDefinition) returns (r: Result<WorkflowDefinition>)
      requires tx.Valid()
      modifies tx
      ensures tx.Valid()
      ensures Refines(Register(old(tx.View()), definition), r, old(tx.writes), tx.writes, tx.observed, {})
    {
      if definition.workflowName == "" || definition.workflowVersion < 1 {
        return Threw;
      }
      ApplyPuts(tx.writes, EMPTY);
      ApplyNothing(tx.writes);
      tx.StageDefinition(definition);
      return Returned(definition);
    }

    method StartWorkflow(tx: Transaction, clock: Clock, id: string, name: string, version: int, input: Json)
      returns (r: Result<Execution>)
      requires tx.Valid()
      modifies tx
      ensures tx.Valid()
      ensures Refines(Start(old(tx.View()), clock, id, name, version, input), r, old(tx.writes), tx.writes,
                      tx.observed, StartReads(old(tx.View()), name, version))
    {
      ghost var view, w := tx.View(), tx.writes;
      if !ValidNameAndVersion(name, version) {
        return Threw;
      }
      var definition := tx.GetDefinition(DefinitionKey(name, version));
      if definition.None? {
        return Threw;
      }
      var e := Execution(id, name, version, ExecutionStatus.Running, definition.value.startWorkflowStepName, input,
                         EMPTY_OBJECT, 0, None, Some(clock.stored), None);
      if definition.value.singleton {
        var taken := TakeSingletonLock(tx, e);
        if !taken {
          return Threw;
        }
      }
      tx.StageExecution(e);
      var step := NewStep(e, definition.value.startWorkflowStepName, 0, e.input, clock.created, None);
      tx.StageStep(step);
      StartRefined(view, w, clock, id, name, version, input, definition.value, e, step, tx.observed);
      return Returned(e);
    }

    /** Lines 424-440: point the singleton lock at the new execution unless it names a running one. */
    method TakeSingletonLock(tx: Transaction, e: Execution) returns (taken: bool)
      requires tx.Valid()
      modifies tx
      ensures tx.Valid()
      ensures taken <==> !Occupied(old(tx.View()), WorkflowOf(e))
      ensures tx.writes == if taken then PutLock(old(tx.writes), LockFor(e)) else old(tx.writes)
      ensures old(tx.observed) + {LockRow(WorkflowOf(e))} <= tx.observed
      ensures WorkflowOf(e) in old(tx.View()).locks ==> ExecutionRow(old(tx.View()).locks[WorkflowOf(e)].executionId) in tx.observed
    {
      var lock := tx.GetLock(WorkflowOf(e));
      if lock.Some? {
        var existing := tx.GetExecution(lock.value.executionId);
        if existing.Some? && existing.value.status.Running? {
          return false;
        }
      }
      tx.StageLock(LockFor(e));
      return true;
    }

    method PollAndClaimWorkflowSteps(tx: Transaction, now: Time, name: string, version: int, workerId: string, maxResults: nat)
      returns (r: Result<seq<StepExecution>>)
      requires tx.Valid() && Keyed(tx.View())
      modifies tx
      ensures tx.Valid()
      ensures Refines(Poll(leaseRule, old(tx.View()), now, name, version, workerId, maxResults), r, old(tx.writes), tx.writes,
                      tx.observed, PollReads(name, version))
    {
      ghost var view, w := tx.View(), tx.writes;
      var key := DefinitionKey(name, version);
      if !ValidNameAndVersion(name, version) || workerId == "" || maxResults == 0 {
        return Threw;
      }
      var definition := tx.GetDefinition(key);
      if definition.None? {
        return Threw;
      }
      var candidates := QueryCandidates(tx, key);
      var claimed := ClaimCandidates(tx, definition.value, candidates, now, workerId, maxResults);
      if claimed.Threw? {
        return Threw;
      }
      PollRefined(leaseRule, view, w, now, name, version, workerId, maxResults, tx.observed);
      return claimed;
    }

    /** Lines 496-535: the pending and the running rows of the workflow, sorted. */
    method QueryCandidates(tx: Transaction, key: DefinitionKey) returns (candidates: seq<StepExecution>)
      requires tx.Valid() && Keyed(tx.View())
      modifies tx`observed
      ensures candidates == CandidateList(tx.View(), key) && DistinctKeys(candidates)
      ensures forall j :: 0 <= j < |candidates| ==> Lookup(tx.View().steps, KeyOfStep(candidates[j])) == Some(candidates[j])
      ensures old(tx.observed) <= tx.observed
      ensures StepQuery(ByWorkflow(key.name, key.version, StepStatus.Pending)) in tx.observed
      ensures StepQuery(ByWorkflow(key.name, key.version, StepStatus.Running)) in tx.observed
    {
      var pendingRows := tx.Query(ByWorkflow(key.name, key.version, StepStatus.Pending));
      var runningRows := tx.Query(ByWorkflow(key.name, key.version, StepStatus.Running));
      QueriesCoverOpenRows(tx.View(), key, pendingRows, runningRows);
      candidates := SortCandidates(pendingRows + runningRows);
      SortedCandidates(tx.View(), key, pendingRows + runningRows, candidates);
    }

    /** Lines 537-577: claim the claimable candidates in order until there are enough. */
    method ClaimCandidates(tx: Transaction, definition: WorkflowDefinition, candidates: seq<StepExecution>, now: Time,
                           workerId: string, maxResults: nat)
      returns (r: Result<seq<StepExecution>>)
      requires tx.Valid() && DistinctKeys(candidates)
      requires forall j :: 0 <= j < |candidates| ==> Lookup(tx.View().steps, KeyOfStep(candidates[j])) == Some(candidates[j])
      modifies tx
      ensures tx.Valid() && old(tx.observed) <= tx.observed
      ensures var chosen := Chosen(candidates, now, maxResults);
              && (r.Threw? <==> !LeasesKnown(leaseRule, definition, chosen))
              && (r.Returned? ==>
                    r.value == ClaimAll(leaseRule, definition, chosen, workerId, now)
                    && tx.writes == PutSteps(old(tx.writes), r.value))
    {
      ghost var w := tx.writes;
      ghost var chosen: seq<StepExecution> := [];
      var claimed: seq<StepExecution> := [];
      var i := 0;
      while i < |candidates| && |claimed| < maxResults
        invariant tx.Valid() && old(tx.observed) <= tx.observed
        invariant Claiming(leaseRule, definition, candidates, now, workerId, maxResults, i, chosen, claimed)
        invariant tx.writes == PutSteps(w, claimed)
        invariant forall j :: i <= j < |candidates| ==> Lookup(tx.View().steps, KeyOfStep(candidates[j])) == Some(candidates[j])
      {
        var candidate := candidates[i];
        var claim := TryClaim(tx, definition, candidate, now, workerId);
        ClaimStep(leaseRule, definition, candidates, now, workerId, maxResults, i, chosen, claimed);
        if claim.Threw? {
          return Threw;
        }
        if claim.value.Some? {
          PutStepsOneMore(w, claimed, claim.value.value);
          claimed := claimed + [claim.value.value];
          chosen := chosen + [candidate];
        }
        i := i + 1;
      }
      return Returned(claimed);
    }

    /** One candidate: read its row again and claim it if it is claimable. */
    method TryClaim(tx: Transaction, definition: WorkflowDefinition, candidate: StepExecution, now: Time, workerId: string)
      returns (r: Result<Option<StepExecution>>)
      requires tx.Valid() && Lookup(tx.View().steps, KeyOfStep(candidate)) == Some(candidate)
      modifies tx
      ensures tx.Valid() && old(tx.observed) <= tx.observed
      ensures !IsClaimable(candidate, now) ==> r == Returned(None) && tx.writes == old(tx.writes)
      ensures IsClaimable(candidate, now) ==>
                match LeaseOf(leaseRule, definition, candidate.stepName)
                case None => r == Threw
                case Some(lease) =>
                  && r == Returned(Some(ClaimedRow(candidate, workerId, now, lease)))
                  && tx.writes == PutStep(old(tx.writes), r.value.value)
      ensures forall k :: k != KeyOfStep(candidate) ==> Lookup(tx.View().steps, k) == Lookup(old(tx.View()).steps, k)
    {
      var current := tx.GetStep(StepKey(candidate.executionId, candidate.stepName, candidate.attempt));
      if current.None? || !IsClaimable(current.value, now) {
        return Returned(None);
      }
      var lease := LeaseOf(leaseRule, definition, current.value.stepName);
      if lease.None? {
        return Threw;
      }
      var claim := ClaimedRow(current.value, workerId, now, lease.value);
      tx.StageStep(claim);
      return Returned(Some(claim));
    }

    /** The checks keep-alive, complete and fail open with: the execution exists, is running and is at the
        step, the caller holds its unexpired claim, and the definition is still there. None: one of them throws. */
    method CheckClaim(tx: Transaction, id: string, stepName: string, workerId: string, now: Time) returns (claim: Option<Claim>)
      requires tx.Valid()
      modifies tx`observed
      ensures tx.Valid()
      ensures claim == Owned(tx.View(), id, stepName, workerId, now)
      ensures claim.Some? ==> ClaimReads(tx.View(), id, stepName) <= tx.observed
    {
      if id == "" || stepName == "" || workerId == "" {
        return None;
      }
      var execution := tx.GetExecution(id);
      if execution.None? || !execution.value.status.Running? || execution.value.currentStepName != stepName {
        return None;
      }
      var step := tx.GetStep(StepKey(id, stepName, execution.value.currentStepAttempt));
      if step.None? || !OwnsClaim(step.value, workerId, now) {
        return None;
      }
      var definition := tx.GetDefinition(WorkflowOf(execution.value));
      if definition.None? {
        return None;
      }
      return Some(Claim(execution.value, step.value, definition.value));
    }

    method KeepAliveStep(tx: Transaction, clock: Clock, id: string, stepName: string, workerId: string)
      returns (r: Result<StepExecution>)
      requires tx.Valid()
      modifies tx
      ensures tx.Valid()
      ensures Refines(KeepAlive(leaseRule, old(tx.View()), clock, id, stepName, workerId), r, old(tx.writes), tx.writes,
                      tx.observed, ClaimReads(old(tx.View()), id, stepName))
    {
      ghost var w := tx.writes;
      ghost var view := tx.View();
      var claim := CheckClaim(tx, id, stepName, workerId, clock.checked);
      if claim.None? {
        return Threw;
      }
      var lease := LeaseOf(leaseRule, claim.value.definition, stepName);
      if lease.None? {
        return Threw;
      }
      var row := RenewedRow(claim.value.row, clock.stored + lease.value);
      tx.StageStep(row);
      KeepAliveRefined(leaseRule, view, w, clock, id, stepName, workerId, tx.observed, claim.value, lease.value, row);
      return Returned(row);
    }

    /** A completion that throws may leave the closed row staged behind it: the decision is only looked at
        after the row has been put. */
    method CompleteStep(tx: Transaction, clock: Clock, id: string, stepName: string, workerId: string, output: Json, delay: Option<Time>)
      returns (r: Result<Execution>)
      requires tx.Valid()
      modifies tx
      ensures tx.Valid()
      ensures match DecisionFor(old(tx.View()), id, stepName, output)
              case None => r.Threw? && tx.writes == old(tx.writes)
              case Some(decision) =>
                Refines(Complete(old(tx.View()), clock, id, stepName, workerId, output, delay, decision),
                        r, old(tx.writes), tx.writes, tx.observed, ClaimReads(old(tx.View()), id, stepName))
      ensures var claim := Owned(old(tx.View()), id, stepName, workerId, clock.checked);
              r.Threw? ==>
                tx.writes == if claim.Some? && (delay.Some? ==> delay.value > 0)
                                && DecisionFor(old(tx.View()), id, stepName, output).Some?
                             then PutStep(old(tx.writes), CompletedRow(claim.value.row, output, clock.stored))
                             else old(tx.writes)
    {
      ghost var view := tx.View();
      if delay.Some? && delay.value <= 0 {
        return Threw;
      }
      var claim := CheckClaim(tx, id, stepName, workerId, clock.checked);
      if claim.None? {
        return Threw;
      }
      var decided := decideNextStep(CompletionContext(claim.value.execution, stepName, output));
      if decided.None? {
        return Threw;
      }
      r := CarryOn(tx, clock, id, stepName, workerId, output, delay, claim.value, decided.value, view);
    }

    /** Lines 732-780: close the row, then finish the execution or move it on as the logic has decided. */
    method CarryOn(tx: Transaction, clock: Clock, id: string, stepName: string, workerId: string, output: Json, delay: Option<Time>,
                   claim: Claim, decision: NextStepDecision, ghost view: Store)
      returns (r: Result<Execution>)
      requires tx.Valid() && (delay.Some? ==> delay.value > 0)
      requires Owned(view, id, stepName, workerId, clock.checked) == Some(claim) && ClaimReads(view, id, stepName) <= tx.observed
      modifies tx`writes
      ensures tx.Valid()
      ensures Refines(Complete(view, clock, id, stepName, workerId, output, delay, decision), r, old(tx.writes), tx.writes,
                      tx.observed, ClaimReads(view, id, stepName))
      ensures r.Threw? ==> tx.writes == PutStep(old(tx.writes), CompletedRow(claim.row, output, clock.stored))
    {
      ghost var w := tx.writes;
      var e := claim.execution;
      var closed := CompletedRow(claim.row, output, clock.stored);
      tx.StageStep(closed);
      e := e.(state := decision.updatedState);
      if decision.workflowComplete {
        e := e.(status := ExecutionStatus.Completed, completedAt := Some(clock.settled));
        tx.StageExecution(e);
        CompleteFinishes(view, w, clock, id, stepName, workerId, output, delay, decision, tx.observed, claim, closed, e);
        return Returned(e);
      }
      if decision.nextStepName.None? {
        return Threw;
      }
      var next := decision.nextStepName.value;
      var declared := FindStep(claim.definition.steps, next);
      if declared.None? {
        return Threw;
      }
      e := e.(currentStepName := next, currentStepAttempt := 0);
      tx.StageExecution(e);
      var scheduledAt := if delay.Some? then Some(clock.settled + delay.value) else None;
      var nextRow := NewStep(e, next, 0, decision.nextStepInput, clock.created, scheduledAt);
      tx.StageStep(nextRow);
      CompleteMoves(view, w, clock, id, stepName, workerId, output, delay, decision, tx.observed, claim, closed, e, nextRow);
      return Returned(e);
    }

    /** What the workflow logic says when this execution completes this step; None when it throws, or when
        there is no such execution and it is not asked. */
    function DecisionFor(s: Store, id: string, stepName: string, output: Json): Option<NextStepDecision> {
      if id in s.executions then decideNextStep(CompletionContext(s.executions[id], stepName, output)) else None
    }

    method FailStep(tx: Transaction, clock: Clock, id: string, stepName: string, workerId: string, reason: string)
      returns (r: Result<Execution>)
      requires tx.Valid()
      modifies tx
      ensures tx.Valid()
      ensures Refines(Fail(old(tx.View()), clock, id, stepName, workerId, reason), r, old(tx.writes), tx.writes,
                      tx.observed, ClaimReads(old(tx.View()), id, stepName))
    {
      var claim := CheckClaim(tx, id, stepName, workerId, clock.checked);
      if claim.None? {
        return Threw;
      }
      var declared := FindStep(claim.value.definition.steps, stepName);
      if declared.None? {
        return Threw;
      }
      var _, e := SettleStep(tx, claim.value.execution, claim.value.row, MaxRetries(declared.value), reason, clock);
      return Returned(e);
    }

    /** Close the current step as failed and open the next attempt or fail the execution; the tail of
        failStep and of each iteration of the sweep. */
    method SettleStep(tx: Transaction, e: Execution, step: StepExecution, maxRetries: int, reason: string, clock: Clock)
      returns (retried: bool, after: Execution)
      requires tx.Valid()
      modifies tx`writes
      ensures tx.Valid()
      ensures var x := Settle(e, step, maxRetries, reason, clock);
              retried == x.retried && after == x.execution && tx.writes == Apply(old(tx.writes), x.writes)
    {
      ghost var w := tx.writes;
      var failed := step.(status := StepStatus.Failed, failureReason := Some(reason), leaseExpiresAt := None,
                          completedAt := Some(clock.stored));
      tx.StageStep(failed);
      if e.currentStepAttempt < maxRetries {
        after := e.(currentStepAttempt := e.currentStepAttempt + 1);
        tx.StageExecution(after);
        var nextRow := NewStep(after, step.stepName, after.currentStepAttempt, step.input, clock.created, None);
        tx.StageStep(nextRow);
        ApplyMove(w, after, failed, nextRow);
        retried := true;
      } else {
        after := e.(status := ExecutionStatus.Failed, failureReason := Some(reason), completedAt := Some(clock.settled));
        tx.StageExecution(after);
        ApplyEnd(w, after, failed);
        retried := false;
      }
    }

    method CancelWorkflow(tx: Transaction, now: Time, id: string) returns (r: Result<Execution>)
      requires tx.Valid() && Keyed(tx.View())
      modifies tx
      ensures tx.Valid()
      ensures Refines(Cancel(old(tx.View()), now, id), r, old(tx.writes), tx.writes, tx.observed, CancelReads(id))
    {
      ghost var view, w := tx.View(), tx.writes;
      if id == "" {
        return Threw;
      }
      var execution := tx.GetExecution(id);
      if execution.None? || !execution.value.status.Running? {
        return Threw;
      }
      var stepRows := tx.Query(ByExecution(id));
      CancelOpenSteps(tx, stepRows, now);
      var canceled := execution.value.(status := ExecutionStatus.Canceled, completedAt := Some(now));
      tx.StageExecution(canceled);
      CancelRefined(view, w, now, id, stepRows, canceled, tx.observed);
      return Returned(canceled);
    }

    /** Lines 906-919: cancel the open rows among those queried. */
    method CancelOpenSteps(tx: Transaction, stepRows: seq<StepExecution>, now: Time)
      requires tx.Valid()
      modifies tx`writes
      ensures tx.Valid()
      ensures tx.writes == PutRows(old(tx.writes), CanceledRows(stepRows, now))
    {
      ghost var w := tx.writes;
      assert w.steps + map[] == w.steps;
      for i := 0 to |stepRows|
        invariant tx.Valid()
        invariant tx.writes == PutRows(w, CanceledRows(stepRows[..i], now))
      {
        assert stepRows[..i + 1][..i] == stepRows[..i];
        var step := stepRows[i];
        if step.status.Pending? || step.status.Running? {
          PutOneMore(w, CanceledRows(stepRows[..i], now), CanceledRow(step, now));
          tx.StageStep(CanceledRow(step, now));
        }
      }
      assert stepRows[..|stepRows|] == stepRows;
    }

    /** `rows` is the list the query gave. */
    method SweepExpiredLeases(tx: Transaction, now: Time, created: map<string, Time>)
      returns (r: Result<SweepResult>, ghost rows: seq<StepExecution>)
      requires tx.Valid() && Keyed(tx.View())
      modifies tx
      ensures tx.Valid()
      ensures Enumerates(rows, Select(old(tx.View()), ByStatus(StepStatus.Running)))
      ensures Refines(Sweep(old(tx.View()), now, created, rows), r, old(tx.writes), tx.writes,
                      tx.observed, SweepReads(old(tx.View()), now, created, rows))
    {
      ghost var view, w := tx.View(), tx.writes;
      var runningSteps := tx.Query(ByStatus(StepStatus.Running));
      rows := runningSteps;
      var sweepResult := SweepResult(0, 0);
      SweepBegins(view, w, tx.snapshot, now, created, rows, tx.observed);
      for i := 0 to |runningSteps|
        invariant tx.Valid()
        invariant Sweeping(view, w, tx.snapshot, now, created, rows, i, sweepResult, tx.writes, tx.observed)
      {
        ghost var sofar, before := tx.writes, tx.observed;
        var one := SweepStep(tx, now, created, runningSteps[i]);
        SweepMoves(view, w, tx.snapshot, now, created, rows, i, sweepResult, sofar, before, one, tx.writes, tx.observed);
        if one.Threw? {
          return Threw, rows;
        }
        sweepResult := SweepResult(sweepResult.retriedCount + one.value.retriedCount,
                                   sweepResult.failedCount + one.value.failedCount);
      }
      assert rows[..|rows|] == rows;
      return Returned(sweepResult), rows;
    }

    /** The loop body of the sweep: one queried row, judged on the tables as they are now. */
    method SweepStep(tx: Transaction, now: Time, created: map<string, Time>, expired: StepExecution) returns (r: Result<SweepResult>)
      requires tx.Valid()
      modifies tx
      ensures tx.Valid() && old(tx.observed) <= tx.observed
      ensures Refines(SweepRow(old(tx.View()), now, created, expired), r, old(tx.writes), tx.writes,
                      tx.observed, SweepRowReads(old(tx.View()), now, expired))
    {
      ApplyNothing(tx.writes);
      if expired.leaseExpiresAt.None? || expired.leaseExpiresAt.value > now {
        return Returned(SweepResult(0, 0));
      }
      var execution := tx.GetExecution(expired.executionId);
      if execution.None? || !execution.value.status.Running? || execution.value.currentStepName != expired.stepName
         || execution.value.currentStepAttempt != expired.attempt
      {
        return Returned(SweepResult(0, 0));
      }
      var definition := tx.GetDefinition(WorkflowOf(execution.value));
      if definition.None? {
        return Returned(SweepResult(0, 0));
      }
      var declared := FindStep(definition.value.steps, expired.stepName);
      if declared.None? {
        return Threw;
      }
      var clock := SweepClock(now, created, expired.executionId);
      var retried, _ := SettleStep(tx, execution.value, expired, MaxRetries(declared.value), LEASE_EXPIRED, clock);
      return Returned(if retried then SweepResult(1, 0) else SweepResult(0, 1));
    }

    /** completeStep in a transaction of its own: a call that throws changes nothing, whatever it had staged. */
    method CompleteStepAtomically(db: Database, clock: Clock, id: string, stepName: string, workerId: string,
                                  output: Json, delay: Option<Time>)
      returns (r: Result<Execution>)
      requires Keyed(db.committed)
      modifies db
      ensures Keyed(db.committed)
      ensures r.Threw? ==> db.committed == old(db.committed)
      ensures r.Returned? ==>
                var decision := DecisionFor(old(db.committed), id, stepName, output);
                decision.Some?
                && var o := Complete(old(db.committed), clock, id, stepName, workerId, output, delay, decision.value);
                   o.Done? && r.value == o.value && db.committed == Apply(old(db.committed), o.writes)
    {
      var tx := db.Begin();
      r := CompleteStep(tx, clock, id, stepName, workerId, output, delay);
      if r.Returned? {
        ApplyNothing(tx.writes);
        ApplyNothing(Complete(tx.snapshot, clock, id, stepName, workerId, output, delay,
                              DecisionFor(tx.snapshot, id, stepName, output).value).writes);
        AgreesWithItself(tx.snapshot, tx.observed);
        var ok := db.Commit(tx);
      }
    }
  }

  /* ---- the end of each path through an operation ---- */

  lemma StartRefined(s: Store, w: Store, clock: Clock, id: string, name: string, version: int, input: Json, d: WorkflowDefinition,
                     e: Execution, step: StepExecution, observed: set<Read>)
    requires ValidNameAndVersion(name, version) && Lookup(s.definitions, DefinitionKey(name, version)) == Some(d)
    requires !(d.singleton && Occupied(s, DefinitionKey(name, version))) && StartReads(s, name, version) <= observed
    requires e == NewExecution(d, id, name, version, input, clock.stored)
    requires step == NewStep(e, e.currentStepName, 0, input, clock.created, None)
    ensures Refines(Start(s, clock, id, name, version, input), Returned(e), w,
                    PutStep(PutExecution(if d.singleton then PutLock(w, LockFor(e)) else w, e), step),
                    observed, StartReads(s, name, version))
  {
    ApplyCreate(w, d.singleton, LockFor(e), e, step);
  }

  lemma KeepAliveRefined(rule: LeaseRule, s: Store, w: Store, clock: Clock, id: string, stepName: string, workerId: string, observed: set<Read>,
                         claim: Claim, lease: Time, row: StepExecution)
    requires Owned(s, id, stepName, workerId, clock.checked) == Some(claim) && ClaimReads(s, id, stepName) <= observed
    requires LeaseOf(rule, claim.definition, stepName) == Some(lease) && row == RenewedRow(claim.row, clock.stored + lease)
    ensures Refines(KeepAlive(rule, s, clock, id, stepName, workerId), Returned(row), w, PutStep(w, row), observed,
                    ClaimReads(s, id, stepName))
  {
    ApplyStep(w, row);
  }

  lemma CompleteFinishes(s: Store, w: Store, clock: Clock, id: string, stepName: string, workerId: string, output: Json,
                         delay: Option<Time>, decision: NextStepDecision, observed: set<Read>,
                         claim: Claim, closed: StepExecution, e: Execution)
    requires Owned(s, id, stepName, workerId, clock.checked) == Some(claim) && ClaimReads(s, id, stepName) <= observed
    requires (delay.Some? ==> delay.value > 0) && decision.workflowComplete
    requires closed == CompletedRow(claim.row, output, clock.stored)
    requires e == claim.execution.(state := decision.updatedState, status := ExecutionStatus.Completed, completedAt := Some(clock.settled))
    ensures Refines(Complete(s, clock, id, stepName, workerId, output, delay, decision), Returned(e), w,
                    PutExecution(PutStep(w, closed), e), observed, ClaimReads(s, id, stepName))
  {
    ApplyEnd(w, e, closed);
  }

  lemma CompleteMoves(s: Store, w: Store, clock: Clock, id: string, stepName: string, workerId: string, output: Json,
                      delay: Option<Time>, decision: NextStepDecision, observed: set<Read>,
                      claim: Claim, closed: StepExecution, e: Execution, nextRow: StepExecution)
    requires Owned(s, id, stepName, workerId, clock.checked) == Some(claim) && ClaimReads(s, id, stepName) <= observed
    requires (delay.Some? ==> delay.value > 0) && !decision.workflowComplete && decision.nextStepName.Some?
    requires FindStep(claim.definition.steps, decision.nextStepName.value).Some?
    requires closed == CompletedRow(claim.row, output, clock.stored)
    requires e == claim.execution.(state := decision.updatedState, currentStepName := decision.nextStepName.value, currentStepAttempt := 0)
    requires nextRow == NewStep(e, decision.nextStepName.value, 0, decision.nextStepInput, clock.created,
                                if delay.Some? then Some(clock.settled + delay.value) else None)
    ensures Refines(Complete(s, clock, id, stepName, workerId, output, delay, decision), Returned(e), w,
                    PutStep(PutExecution(PutStep(w, closed), e), nextRow), observed, ClaimReads(s, id, stepName))
  {
    ApplyMove(w, e, closed, nextRow);
  }

  /* ---- what the loops rely on ---- */

  lemma QueriesCoverOpenRows(s: Store, key: DefinitionKey, pending: seq<StepExecution>, running: seq<StepExecution>)
    requires Keyed(s)
    requires Enumerates(pending, Select(s, ByWorkflow(key.name, key.version, StepStatus.Pending)))
    requires Enumerates(running, Select(s, ByWorkflow(key.name, key.version, StepStatus.Running)))
    ensures DistinctKeys(pending + running)
    ensures forall r :: r in pending + running <==> r in OpenRows(s, key)
  {
    var p := Select(s, ByWorkflow(key.name, key.version, StepStatus.Pending));
    var q := Select(s, ByWorkflow(key.name, key.version, StepStatus.Running));
    var all := pending + running;
    forall i, j | 0 <= i < j < |all| ensures KeyOfStep(all[i]) != KeyOfStep(all[j]) {
      if i < |pending| <= j {
        assert KeyOfStep(all[i]) in p && KeyOfStep(all[j]) in q;
      }
    }
    forall r | r in OpenRows(s, key) ensures r in all {
      assert KeyOfStep(r) in p || KeyOfStep(r) in q;
    }
    forall r | r in all ensures r in OpenRows(s, key) {
      if r in pending {
        var i :| 0 <= i < |pending| && pending[i] == r;
        assert KeyOfStep(r) in p;
      } else {
        var i :| 0 <= i < |running| && running[i] == r;
        assert KeyOfStep(r) in q;
      }
    }
  }

  /** Sorting the queried rows gives the one candidate list. */
  lemma SortedCandidates(s: Store, key: DefinitionKey, rows: seq<StepExecution>, sorted: seq<StepExecution>)
    requires Keyed(s) && DistinctKeys(rows) && (forall r :: r in rows <==> r in OpenRows(s, key))
    requires Sorted(sorted) && multiset(sorted) == multiset(rows)
    ensures sorted == CandidateList(s, key) && DistinctKeys(sorted)
    ensures forall j :: 0 <= j < |sorted| ==> Lookup(s.steps, KeyOfStep(sorted[j])) == Some(sorted[j])
  {
    var list := CandidateList(s, key);
    assert forall r :: r in sorted <==> r in multiset(sorted);
    assert forall r :: r in rows <==> r in multiset(rows);
    SortedKeysDiffer(s, key, sorted);
    SortedKeysDiffer(s, key, list);
    SortedUnique(sorted, list);
    forall j | 0 <= j < |sorted| ensures Lookup(s.steps, KeyOfStep(sorted[j])) == Some(sorted[j]) {
      assert sorted[j] in OpenRows(s, key);
    }
  }

  lemma SortedKeysDiffer(s: Store, key: DefinitionKey, sorted: seq<StepExecution>)
    requires Keyed(s) && Sorted(sorted) && forall r :: r in sorted ==> r in OpenRows(s, key)
    ensures DistinctKeys(sorted)
  {
    forall i, j | 0 <= i < j < |sorted| ensures KeyOfStep(sorted[i]) != KeyOfStep(sorted[j]) {
      assert sorted[i] in OpenRows(s, key) && sorted[j] in OpenRows(s, key);
      BeforeIrreflexive(sorted[i]);
    }
  }

  /** Where the claiming loop has got to: the rows claimed so far, followed by what the rest still offers,
      are the rows a poll claims. */
  ghost predicate Claiming(rule: LeaseRule, d: WorkflowDefinition, candidates: seq<StepExecution>, now: Time, workerId: string,
                           max: nat, i: nat, chosen: seq<StepExecution>, claimed: seq<StepExecution>)
  {
    && i <= |candidates| && |claimed| == |chosen| <= max
    && Chosen(candidates, now, max) == chosen + Chosen(candidates[i..], now, max - |claimed|)
    && LeasesKnown(rule, d, chosen) && claimed == ClaimAll(rule, d, chosen, workerId, now)
  }

  lemma ClaimStep(rule: LeaseRule, d: WorkflowDefinition, candidates: seq<StepExecution>, now: Time, workerId: string,
                  max: nat, i: nat, chosen: seq<StepExecution>, claimed: seq<StepExecution>)
    requires Claiming(rule, d, candidates, now, workerId, max, i, chosen, claimed) && i < |candidates| && |claimed| < max
    ensures var c := candidates[i];
            if !IsClaimable(c, now) then Claiming(rule, d, candidates, now, workerId, max, i + 1, chosen, claimed)
            else
              match LeaseOf(rule, d, c.stepName)
              case None => !LeasesKnown(rule, d, Chosen(candidates, now, max))
              case Some(lease) =>
                Claiming(rule, d, candidates, now, workerId, max, i + 1, chosen + [c], claimed + [ClaimedRow(c, workerId, now, lease)])
  {
    var c := candidates[i];
    assert candidates[i..][1..] == candidates[i + 1..];
    if IsClaimable(c, now) {
      var all := Chosen(candidates, now, max);
      assert all[|chosen|] == c;
      if LeaseOf(rule, d, c.stepName).Some? {
        assert all == (chosen + [c]) + Chosen(candidates[i + 1..], now, max - |claimed| - 1);
      }
    }
  }

  lemma PutStepsOneMore(s: Store, rows: seq<StepExecution>, r: StepExecution)
    ensures PutSteps(s, rows + [r]) == PutStep(PutSteps(s, rows), r)
  {
    assert (rows + [r])[..|rows|] == rows;
  }

  lemma PollRefined(rule: LeaseRule, s: Store, w: Store, now: Time, name: string, version: int, workerId: string, max: nat, observed: set<Read>)
    requires Keyed(s) && Poll(rule, s, now, name, version, workerId, max).Done? && PollReads(name, version) <= observed
    ensures var o := Poll(rule, s, now, name, version, workerId, max);
            Refines(o, Returned(o.value), w, PutSteps(w, o.value), observed, PollReads(name, version))
  {
    ApplyPutSteps(w, EMPTY, Poll(rule, s, now, name, version, workerId, max).value);
    ApplyNothing(w);
  }

  function PutRows(s: Store, rows: map<StepKey, StepExecution>): Store {
    s.(steps := s.steps + rows)
  }

  lemma PutOneMore(s: Store, rows: map<StepKey, StepExecution>, r: StepExecution)
    ensures PutStep(PutRows(s, rows), r) == PutRows(s, rows[KeyOfStep(r) := r])
  {
    assert (s.steps + rows)[KeyOfStep(r) := r] == s.steps + rows[KeyOfStep(r) := r];
  }

  lemma CancelRefined(s: Store, w: Store, now: Time, id: string, rows: seq<StepExecution>, canceled: Execution, observed: set<Read>)
    requires Keyed(s) && Enumerates(rows, Select(s, ByExecution(id))) && CancelReads(id) <= observed
    requires id != "" && id in s.executions && s.executions[id].status.Running?
    requires canceled == s.executions[id].(status := ExecutionStatus.Canceled, completedAt := Some(now))
    ensures Refines(Cancel(s, now, id), Returned(canceled), w,
                    PutExecution(PutRows(w, CanceledRows(rows, now)), canceled), observed, CancelReads(id))
  {
    CanceledRowsOf(s, id, rows, now);
    assert Cancel(s, now, id).writes.steps == CanceledRows(rows, now);
    assert w.executions + map[canceled.id := canceled] == w.executions[canceled.id := canceled];
    assert w.definitions + map[] == w.definitions && w.locks + map[] == w.locks;
  }

  /** Where the sweep's loop has got to: it has done what the function does on the rows before this one. */
  ghost predicate Sweeping(view: Store, w: Store, snapshot: Store, now: Time, created: map<string, Time>, rows: seq<StepExecution>,
                           i: nat, result: SweepResult, writes: Store, observed: set<Read>)
  {
    && i <= |rows| && view == Apply(snapshot, w)
    && SweepReads(view, now, created, rows[..i]) <= observed
    && Sweep(view, now, created, rows[..i]).Done?
    && Sweep(view, now, created, rows[..i]).value == result
    && writes == Apply(w, Sweep(view, now, created, rows[..i]).writes)
  }

  lemma SweepBegins(view: Store, w: Store, snapshot: Store, now: Time, created: map<string, Time>, rows: seq<StepExecution>, observed: set<Read>)
    requires view == Apply(snapshot, w) && StepQuery(ByStatus(StepStatus.Running)) in observed
    ensures Sweeping(view, w, snapshot, now, created, rows, 0, SweepResult(0, 0), w, observed)
  {
    ApplyNothing(w);
  }

  /** One more row swept. */
  lemma SweepMoves(view: Store, w: Store, snapshot: Store, now: Time, created: map<string, Time>, rows: seq<StepExecution>,
                   i: nat, result: SweepResult, sofar: Store, before: set<Read>, one: Result<SweepResult>,
                   writes: Store, observed: set<Read>)
    requires i < |rows| && before <= observed && Sweeping(view, w, snapshot, now, created, rows, i, result, sofar, before)
    requires Refines(SweepRow(Apply(snapshot, sofar), now, created, rows[i]), one, sofar, writes, observed,
                     SweepRowReads(Apply(snapshot, sofar), now, rows[i]))
    ensures one.Threw? ==> Sweep(view, now, created, rows).Thrown?
    ensures one.Returned? ==>
              Sweeping(view, w, snapshot, now, created, rows, i + 1,
                       SweepResult(result.retriedCount + one.value.retriedCount, result.failedCount + one.value.failedCount),
                       writes, observed)
  {
    var o := Sweep(view, now, created, rows[..i]);
    var more := SweepRow(Apply(view, o.writes), now, created, rows[i]);
    ApplyAssociative(snapshot, w, o.writes);
    SweepUnfolds(view, now, created, rows, i);
    if one.Threw? {
      SweepStops(view, now, created, rows, i + 1);
    } else {
      AndThenApplies(w, o, more);
    }
  }

  lemma AndThenApplies(w: Store, o: Outcome<SweepResult>, more: Outcome<SweepResult>)
    requires o.Done? && more.Done?
    ensures var all := AndThen(o, more);
            && all.Done? && Apply(Apply(w, o.writes), more.writes) == Apply(w, all.writes)
            && all.value == SweepResult(o.value.retriedCount + more.value.retriedCount, o.value.failedCount + more.value.failedCount)
  {
    ApplyAssociative(w, o.writes, more.writes);
  }

  lemma SweepUnfolds(view: Store, now: Time, created: map<string, Time>, rows: seq<StepExecution>, i: nat)
    requires i < |rows| && Sweep(view, now, created, rows[..i]).Done?
    ensures var o := Sweep(view, now, created, rows[..i]);
            && Sweep(view, now, created, rows[..i + 1]) == AndThen(o, SweepRow(Apply(view, o.writes), now, created, rows[i]))
            && SweepReads(view, now, created, rows[..i + 1])
               == SweepReads(view, now, created, rows[..i]) + SweepRowReads(Apply(view, o.writes), now, rows[i])
  {
    assert rows[..i + 1][..i] == rows[..i];
  }

  /** The open rows among a list, canceled, under their keys. */
  function CanceledRows(rows: seq<StepExecution>, now: Time): map<StepKey, StepExecution> {
    if rows == [] then map[]
    else
      var sofar := CanceledRows(rows[..|rows| - 1], now);
      var r := rows[|rows| - 1];
      if r.Open() then sofar[KeyOfStep(r) := CanceledRow(r, now)] else sofar
  }

  lemma {:induction false} CanceledRowsAt(rows: seq<StepExecution>, now: Time)
    requires DistinctKeys(rows)
    ensures forall i :: 0 <= i < |rows| && rows[i].Open() ==>
              KeyOfStep(rows[i]) in CanceledRows(rows, now) && CanceledRows(rows, now)[KeyOfStep(rows[i])] == CanceledRow(rows[i], now)
    ensures forall k :: k in CanceledRows(rows, now) ==> exists i :: 0 <= i < |rows| && rows[i].Open() && KeyOfStep(rows[i]) == k
  {
    if rows != [] {
      CanceledRowsAt(rows[..|rows| - 1], now);
    }
  }

  lemma CanceledRowsOf(s: Store, id: string, rows: seq<StepExecution>, now: Time)
    requires Keyed(s) && Enumerates(rows, Select(s, ByExecution(id)))
    ensures CanceledRows(rows, now)
         == map k | k in s.steps && s.steps[k].executionId == id && s.steps[k].Open() :: CanceledRow(s.steps[k], now)
  {
    var selected := Select(s, ByExecution(id));
    CanceledRowsAt(rows, now);
    forall k | k in selected && s.steps[k].Open()
      ensures k in CanceledRows(rows, now) && CanceledRows(rows, now)[k] == CanceledRow(s.steps[k], now)
    {
      assert selected[k] in rows;
    }
    forall k | k in CanceledRows(rows, now) ensures k in selected && s.steps[k].Open() {
      var i :| 0 <= i < |rows| && rows[i].Open() && KeyOfStep(rows[i]) == k;
    }
  }

  /** Once an iteration throws, the whole sweep does. */
  lemma {:induction false} SweepStops(s: Store, now: Time, created: map<string, Time>, rows: seq<StepExecution>, n: nat)
    requires n <= |rows|
    ensures Sweep(s, now, created, rows[..n]).Thrown? ==> Sweep(s, now, created, rows).Thrown?
    decreases |rows| - n
  {
    if n == |rows| {
      assert rows[..n] == rows;
    } else {
      assert rows[..n + 1][..n] == rows[..n];
      SweepStops(s, now, created, rows, n + 1);
    }
  }
}
