/** What a failure or an expiry comes to, read off the definition's own fields and the tables afterwards. */
module Verdicts {
  import opened Prelude
  import opened Domain
  import opened Tables
  import opened Operations
  import opened Invariant
  import opened Preservation
  import opened Sweeping
  import opened Runs
  import opened Retries
  import opened Leases
  import opened Progress
  import opened Records
  import opened Admission

  /* ---- retried or failed ---- */

  /** The step allows another attempt after the given one; a step that says nothing of retries has none. */
  predicate AllowsRetry(step: WorkflowStep, attempt: int) {
    step.maxRetries.Some? && attempt < step.maxRetries.value
  }

  lemma RetriesRead(d: WorkflowDefinition, n: nat, name: string)
    requires FirstNamed(d, n, name)
    ensures RetriesOf(d, name).Some?
    ensures forall attempt: int :: 0 <= attempt ==> (attempt < RetriesOf(d, name).value <==> AllowsRetry(d.steps[n], attempt))
  {
    FoundFirst(d.steps, n);
  }

  /** The last attempt of a step, as its definition has it. */
  lemma LastAttemptRead(d: WorkflowDefinition, n: nat, name: string)
    requires FirstNamed(d, n, name)
    ensures LastAttempt(d, name) == if d.steps[n].maxRetries.Some? && d.steps[n].maxRetries.value > 0 then d.steps[n].maxRetries.value else 0
  {
    FoundFirst(d.steps, n);
  }

  /** The execution is at its next attempt of the step, or has failed at this one. */
  ghost predicate Verdict(e: Execution, e': Execution, retried: bool) {
    && e'.currentStepName == e.currentStepName
    && if retried then e'.status.Running? && e'.currentStepAttempt == e.currentStepAttempt + 1
       else e'.status.Failed? && e'.currentStepAttempt == e.currentStepAttempt
  }

  /** A failure reported or an expiry swept leads to the next attempt exactly when the first step the definition
      gives that name has more retries than there have been attempts before; otherwise it fails the execution. */
  lemma RetriedOrFailed(rule: LeaseRule, s: Store, c: Call, id: string) returns (n: nat)
    requires Inv(s) && Allowed(s, c) && FailsStep(rule, s, c, id)
    ensures id in s.executions && id in After(rule, s, c).executions && RegisteredFor(s, id).Some?
    ensures FirstNamed(RegisteredFor(s, id).value, n, s.executions[id].currentStepName)
    ensures var e := s.executions[id];
            Verdict(e, After(rule, s, c).executions[id], AllowsRetry(RegisteredFor(s, id).value.steps[n], e.currentStepAttempt))
  {
    FailsOnce(rule, s, c, id);
    n := OnceVerdict(s, After(rule, s, c), id, ReasonOf(c), FailClock(c, id));
  }

  lemma OnceVerdict(s: Store, t: Store, id: string, reason: string, clock: Clock) returns (n: nat)
    requires Inv(s) && FailedOnce(s, t, id, reason, clock)
    ensures RegisteredFor(s, id).Some? && FirstNamed(RegisteredFor(s, id).value, n, s.executions[id].currentStepName)
    ensures var e := s.executions[id];
            Verdict(e, t.executions[id], AllowsRetry(RegisteredFor(s, id).value.steps[n], e.currentStepAttempt))
  {
    var e := s.executions[id];
    assert ExecutionOk(s, e);
    n := FirstFound(s.definitions[WorkflowOf(e)].steps, e.currentStepName);
    RetriesRead(s.definitions[WorkflowOf(e)], n, e.currentStepName);
  }

  /* ---- what a sweep counts ---- */

  /** The executions whose step had run out of its lease, by what the sweep has made of them. */
  ghost function NowRunning(s: Store, t: Store, now: Time): set<string> {
    set id | id in s.executions && RunOut(s, now, id) && id in t.executions && t.executions[id].status.Running?
  }

  ghost function NowFailed(s: Store, t: Store, now: Time): set<string> {
    set id | id in s.executions && RunOut(s, now, id) && id in t.executions && t.executions[id].status.Failed?
  }

  lemma SettledStatus(e: Execution, r: StepExecution, maxRetries: int, reason: string, clock: Clock)
    requires e.status.Running?
    ensures var x := Settle(e, r, maxRetries, reason, clock);
            if x.retried then x.execution.status.Running? else x.execution.status.Failed?
  {
  }

  lemma PlannedStatus(s: Store, now: Time, created: map<string, Time>, id: string)
    requires Due(s, now, id) && DueRetries(s, id).Some?
    ensures var x := SettleDue(s, now, created, id);
            if x.retried then x.execution.status.Running? else x.execution.status.Failed?
  {
    var e := s.executions[id];
    SettledStatus(e, s.steps[CurrentKey(e)], DueRetries(s, id).value, LEASE_EXPIRED, SweepClock(now, created, id));
  }

  lemma SweptVerdict(s: Store, t: Store, now: Time, created: map<string, Time>, rows: seq<StepExecution>, plan: Plan, id: string)
    requires Inv(s) && Enumerates(rows, Select(s, ByStatus(StepStatus.Running))) && Sweep(s, now, created, rows).Done?
    requires t == Apply(s, Sweep(s, now, created, rows).writes) && AllSettle(s, now, DueIds(s, now))
    requires plan == PlanFor(s, now, created, DueIds(s, now)) && id in s.executions && RunOut(s, now, id)
    ensures id in plan && id in t.executions && t.executions[id].status.Running? == plan[id].retried
    ensures t.executions[id].status.Failed? == !plan[id].retried
  {
    RunOutIsDue(s, now, id);
    SweptExecution(s, now, created, rows, id);
    PlannedStatus(s, now, created, id);
  }

  /** A sweep reports as retried the executions it has left running with a new attempt, and as failed the ones
      it has failed: of those whose lease had run out, each once. */
  lemma SweepTally(s: Store, t: Store, now: Time, created: map<string, Time>, rows: seq<StepExecution>)
    requires Inv(s) && Enumerates(rows, Select(s, ByStatus(StepStatus.Running))) && Sweep(s, now, created, rows).Done?
    requires t == Apply(s, Sweep(s, now, created, rows).writes)
    ensures Sweep(s, now, created, rows).value == SweepResult(|NowRunning(s, t, now)|, |NowFailed(s, t, now)|)
  {
    SweepIsPlan(s, now, created, rows);
    var plan := PlanFor(s, now, created, DueIds(s, now));
    TallySets(s, t, now, created, rows, plan);
    PlanTally(Sweep(s, now, created, rows), plan, |NowRunning(s, t, now)|, |NowFailed(s, t, now)|);
  }

  lemma PlanTally(o: Outcome<SweepResult>, plan: Plan, retried: nat, failed: nat)
    requires Yields(o, plan) && |Retried(plan)| == retried && |GivenUp(plan)| == failed
    ensures o.value == SweepResult(retried, failed)
  {
  }

  lemma TallySets(s: Store, t: Store, now: Time, created: map<string, Time>, rows: seq<StepExecution>, plan: Plan)
    requires Inv(s) && Enumerates(rows, Select(s, ByStatus(StepStatus.Running))) && Sweep(s, now, created, rows).Done?
    requires t == Apply(s, Sweep(s, now, created, rows).writes) && AllSettle(s, now, DueIds(s, now))
    requires plan == PlanFor(s, now, created, DueIds(s, now))
    ensures Retried(plan) == NowRunning(s, t, now) && GivenUp(plan) == NowFailed(s, t, now)
  {
    forall id ensures PlannedAs(s, t, now, plan, id) {
      OneTallied(s, t, now, created, rows, plan, id);
    }
    AllTallied(s, t, now, plan);
  }

  ghost predicate PlannedAs(s: Store, t: Store, now: Time, plan: Plan, id: string) {
    && (id in plan <==> RunOut(s, now, id))
    && (id in plan ==> id in t.executions && t.executions[id].status.Running? == plan[id].retried
                       && t.executions[id].status.Failed? == !plan[id].retried)
  }

  lemma OneTallied(s: Store, t: Store, now: Time, created: map<string, Time>, rows: seq<StepExecution>, plan: Plan, id: string)
    requires Inv(s) && Enumerates(rows, Select(s, ByStatus(StepStatus.Running))) && Sweep(s, now, created, rows).Done?
    requires t == Apply(s, Sweep(s, now, created, rows).writes) && AllSettle(s, now, DueIds(s, now))
    requires plan == PlanFor(s, now, created, DueIds(s, now))
    ensures PlannedAs(s, t, now, plan, id)
  {
    RunOutIsDue(s, now, id);
    if RunOut(s, now, id) {
      SweptVerdict(s, t, now, created, rows, plan, id);
    }
  }

  lemma AllTallied(s: Store, t: Store, now: Time, plan: Plan)
    requires forall id :: PlannedAs(s, t, now, plan, id)
    ensures Retried(plan) == NowRunning(s, t, now) && GivenUp(plan) == NowFailed(s, t, now)
  {
    forall id ensures id in Retried(plan) <==> id in NowRunning(s, t, now) {
      assert PlannedAs(s, t, now, plan, id);
    }
    forall id ensures id in GivenUp(plan) <==> id in NowFailed(s, t, now) {
      assert PlannedAs(s, t, now, plan, id);
    }
  }
}
