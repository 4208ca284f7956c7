/** What each orchestrator operation does, as a function of the tables it sees. */
module Operations {
  import opened Prelude
  import opened JsonValue
  import opened Domain
  import opened Tables

  /** An operation throws, or returns a value and the rows it has put. */
  datatype Outcome<+T> = Thrown | Done(value: T, writes: Store)

  /** The clock readings an operation takes: the one claims and leases are judged by, the one stored in
      the row it closes or starts, the one it settles the execution with, and the one of a new step row. */
  datatype Clock = Clock(checked: Time, stored: Time, settled: Time, created: Time)

  /** How a step's expected time becomes a lease in seconds, None when it throws: `calculateLeaseDuration`.
      The operations are specified, and their properties proved, for any such rule. */
  type LeaseRule = string -> Option<nat>

  /** The workflow logic: the same answer to the same question, None when it throws. */
  type Logic = StepCompletionContext -> Option<NextStepDecision>

  /* ---- helpers ---- */

  predicate ValidNameAndVersion(name: string, version: int) {
    name != "" && version >= 1
  }

  /** The first step of that name, as std::find_if finds it. */
  function FindStep(steps: seq<WorkflowStep>, name: string): (r: Option<WorkflowStep>)
    ensures r.Some? ==> r.value in steps && r.value.name == name
    ensures r.None? ==> forall i :: 0 <= i < |steps| ==> steps[i].name != name
  {
    if steps == [] then None
    else if steps[0].name == name then Some(steps[0])
    else FindStep(steps[1..], name)
  }

  function MaxRetries(step: WorkflowStep): int {
    if step.maxRetries.Some? then step.maxRetries.value else 0
  }

  /** The retry bound a definition gives a step; None when the step is not declared. */
  function RetriesOf(d: WorkflowDefinition, stepName: string): Option<int> {
    match FindStep(d.steps, stepName)
    case None => None
    case Some(step) => Some(MaxRetries(step))
  }

  /** The lease a definition gives a step: None when the step is not declared, has no expected time, or
      has one the rule refuses. */
  function LeaseOf(rule: LeaseRule, d: WorkflowDefinition, stepName: string): Option<Time> {
    match FindStep(d.steps, stepName)
    case None => None
    case Some(step) =>
      if step.expectedExecutionTime.None? then None
      else
        match rule(step.expectedExecutionTime.value)
        case None => None
        case Some(n) => Some(n * SECOND)
  }

  /** A first (or next) attempt at a step, waiting to be claimed. */
  function NewStep(e: Execution, stepName: string, attempt: int, input: Json, created: Time, scheduledAt: Option<Time>): StepExecution {
    StepExecution(e.id, e.workflowName, e.workflowVersion, stepName, attempt, StepStatus.Pending,
                  None, None, None, Some(created), scheduledAt, None, None, input, e.state, EMPTY_OBJECT)
  }

  predicate IsClaimable(r: StepExecution, now: Time) {
    if r.status.Pending? then r.scheduledAt.None? || r.scheduledAt.value <= now
    else r.status.Running? && r.leaseExpiresAt.Some? && r.leaseExpiresAt.value <= now
  }

  /** `validateClaimOwnership` does not throw. */
  predicate OwnsClaim(r: StepExecution, workerId: string, now: Time) {
    r.status.Running? && r.workerId == Some(workerId) && r.leaseExpiresAt.Some? && now < r.leaseExpiresAt.value
  }

  datatype Claim = Claim(execution: Execution, row: StepExecution, definition: WorkflowDefinition)

  /** The checks keep-alive, complete and fail share: None when any of them throws. */
  function Owned(s: Store, id: string, stepName: string, workerId: string, now: Time): Option<Claim> {
    if id == "" || stepName == "" || workerId == "" || id !in s.executions then None
    else
      var e := s.executions[id];
      var key := StepKey(id, stepName, e.currentStepAttempt);
      if !e.status.Running? || e.currentStepName != stepName then None
      else if key !in s.steps || !OwnsClaim(s.steps[key], workerId, now) then None
      else if WorkflowOf(e) !in s.definitions then None
      else Some(Claim(e, s.steps[key], s.definitions[WorkflowOf(e)]))
  }

  /* ---- register, start ---- */

  function Register(s: Store, d: WorkflowDefinition): Outcome<WorkflowDefinition> {
    if ValidNameAndVersion(d.workflowName, d.workflowVersion) then Done(d, PutDefinition(EMPTY, d)) else Thrown
  }

  function NewExecution(d: WorkflowDefinition, id: string, name: string, version: int, input: Json, now: Time): Execution {
    Execution(id, name, version, ExecutionStatus.Running, d.startWorkflowStepName, input, EMPTY_OBJECT, 0, None, Some(now), None)
  }

  function LockFor(e: Execution): SingletonLock {
    SingletonLock(e.workflowName, e.workflowVersion, e.id, e.startedAt)
  }

  /** The lock row names an execution that is still running. */
  predicate Occupied(s: Store, key: DefinitionKey) {
    key in s.locks && s.locks[key].executionId in s.executions
    && s.executions[s.locks[key].executionId].status.Running?
  }

  function Start(s: Store, clock: Clock, id: string, name: string, version: int, input: Json): Outcome<Execution> {
    var key := DefinitionKey(name, version);
    if !ValidNameAndVersion(name, version) || key !in s.definitions then Thrown
    else
      var d := s.definitions[key];
      var e := NewExecution(d, id, name, version, input, clock.stored);
      if d.singleton && Occupied(s, key) then Thrown
      else
        var locked := if d.singleton then PutLock(EMPTY, LockFor(e)) else EMPTY;
        Done(e, PutStep(PutExecution(locked, e), NewStep(e, e.currentStepName, 0, input, clock.created, None)))
  }

  /* ---- keep-alive, complete, fail ---- */

  function KeepAlive(rule: LeaseRule, s: Store, clock: Clock, id: string, stepName: string, workerId: string): Outcome<StepExecution> {
    match Owned(s, id, stepName, workerId, clock.checked)
    case None => Thrown
    case Some(claim) =>
      match LeaseOf(rule, claim.definition, stepName)
      case None => Thrown
      case Some(lease) =>
        var row := RenewedRow(claim.row, clock.stored + lease);
        Done(row, PutStep(EMPTY, row))
  }

  function RenewedRow(r: StepExecution, until: Time): StepExecution {
    r.(leaseExpiresAt := Some(until))
  }

  function CompletionContext(e: Execution, stepName: string, output: Json): StepCompletionContext {
    StepCompletionContext(e.workflowName, e.workflowVersion, e.id, stepName, e.input, e.state, output)
  }

  function CompletedRow(r: StepExecution, output: Json, now: Time): StepExecution {
    r.(status := StepStatus.Completed, output := output, leaseExpiresAt := None, completedAt := Some(now))
  }

  /** When the delay of a completion is over; None when it has none. */
  function DelayEnd(clock: Clock, delay: Option<Time>): Option<Time> {
    if delay.Some? then Some(clock.settled + delay.value) else None
  }

  function Complete(s: Store, clock: Clock, id: string, stepName: string, workerId: string, output: Json,
                    delay: Option<Time>, decision: NextStepDecision): Outcome<Execution>
  {
    if delay.Some? && delay.value <= 0 then Thrown
    else
      match Owned(s, id, stepName, workerId, clock.checked)
      case None => Thrown
      case Some(claim) =>
        var closed := PutStep(EMPTY, CompletedRow(claim.row, output, clock.stored));
        var e := claim.execution.(state := decision.updatedState);
        if decision.workflowComplete then
          var done := e.(status := ExecutionStatus.Completed, completedAt := Some(clock.settled));
          Done(done, PutExecution(closed, done))
        else if decision.nextStepName.None? then Thrown
        else if FindStep(claim.definition.steps, decision.nextStepName.value).None? then Thrown
        else
          var next := decision.nextStepName.value;
          var moved := e.(currentStepName := next, currentStepAttempt := 0);
          Done(moved, PutStep(PutExecution(closed, moved),
                              NewStep(moved, next, 0, decision.nextStepInput, clock.created, DelayEnd(clock, delay))))
  }

  function FailedRow(r: StepExecution, reason: string, now: Time): StepExecution {
    r.(status := StepStatus.Failed, failureReason := Some(reason), leaseExpiresAt := None, completedAt := Some(now))
  }

  /** What fail and sweep do with the current step of a running execution: close it as failed, and either
      open the next attempt or fail the execution. */
  datatype Settlement = Settlement(execution: Execution, retried: bool, writes: Store)

  function Settle(e: Execution, r: StepExecution, maxRetries: int, reason: string, clock: Clock): Settlement {
    var closed := PutStep(EMPTY, FailedRow(r, reason, clock.stored));
    if e.currentStepAttempt < maxRetries then
      var retried := e.(currentStepAttempt := e.currentStepAttempt + 1);
      Settlement(retried, true,
                 PutStep(PutExecution(closed, retried),
                         NewStep(retried, r.stepName, retried.currentStepAttempt, r.input, clock.created, None)))
    else
      var failed := e.(status := ExecutionStatus.Failed, failureReason := Some(reason), completedAt := Some(clock.settled));
      Settlement(failed, false, PutExecution(closed, failed))
  }

  function Fail(s: Store, clock: Clock, id: string, stepName: string, workerId: string, reason: string): Outcome<Execution> {
    match Owned(s, id, stepName, workerId, clock.checked)
    case None => Thrown
    case Some(claim) =>
      match RetriesOf(claim.definition, stepName)
      case None => Thrown
      case Some(maxRetries) =>
        var x := Settle(claim.execution, claim.row, maxRetries, reason, clock);
        Done(x.execution, x.writes)
  }

  /* ---- cancel ---- */

  function CanceledRow(r: StepExecution, now: Time): StepExecution {
    r.(status := StepStatus.Canceled, workerId := None, leaseExpiresAt := None, completedAt := Some(now))
  }

  function Cancel(s: Store, now: Time, id: string): Outcome<Execution> {
    if id == "" || id !in s.executions || !s.executions[id].status.Running? then Thrown
    else
      var canceled := s.executions[id].(status := ExecutionStatus.Canceled, completedAt := Some(now));
      Done(canceled, PutExecution(EMPTY, canceled).(
        steps := map k | k in s.steps && s.steps[k].executionId == id && s.steps[k].Open() :: CanceledRow(s.steps[k], now)))
  }

  /* ---- sweep ---- */

  datatype SweepResult = SweepResult(retriedCount: nat, failedCount: nat)

  const LEASE_EXPIRED := "lease expired"

  predicate Expired(r: StepExecution, now: Time) {
    r.leaseExpiresAt.Some? && r.leaseExpiresAt.value <= now
  }

  /** The sweep goes past the row without touching anything. */
  predicate SweepSkips(s: Store, now: Time, r: StepExecution) {
    || !Expired(r, now)
    || r.executionId !in s.executions
    || var e := s.executions[r.executionId];
       !e.status.Running? || e.currentStepName != r.stepName || e.currentStepAttempt != r.attempt
       || WorkflowOf(e) !in s.definitions
  }

  /** The reading makeStepExecution takes for a row the sweep opens, one for each execution it retries. */
  function SweepClock(now: Time, created: map<string, Time>, id: string): Clock {
    Clock(now, now, now, if id in created then created[id] else now)
  }

  /** The sweep's loop body for one queried row. */
  function SweepRow(s: Store, now: Time, created: map<string, Time>, r: StepExecution): Outcome<SweepResult> {
    if SweepSkips(s, now, r) then Done(SweepResult(0, 0), EMPTY)
    else
      var e := s.executions[r.executionId];
      match RetriesOf(s.definitions[WorkflowOf(e)], r.stepName)
      case None => Thrown
      case Some(maxRetries) =>
        var x := Settle(e, r, maxRetries, LEASE_EXPIRED, SweepClock(now, created, r.executionId));
        Done(if x.retried then SweepResult(1, 0) else SweepResult(0, 1), x.writes)
  }

  /** A sweep that has got somewhere, and one more iteration. */
  function AndThen(sofar: Outcome<SweepResult>, one: Outcome<SweepResult>): Outcome<SweepResult> {
    if sofar.Thrown? || one.Thrown? then Thrown
    else
      Done(SweepResult(sofar.value.retriedCount + one.value.retriedCount, sofar.value.failedCount + one.value.failedCount),
           Apply(sofar.writes, one.writes))
  }

  /** The sweep over the queried rows in order; each row is judged on the tables as the earlier ones left them. */
  function Sweep(s: Store, now: Time, created: map<string, Time>, rows: seq<StepExecution>): Outcome<SweepResult> {
    if rows == [] then Done(SweepResult(0, 0), EMPTY)
    else
      var sofar := Sweep(s, now, created, rows[..|rows| - 1]);
      if sofar.Thrown? then Thrown
      else AndThen(sofar, SweepRow(Apply(s, sofar.writes), now, created, rows[|rows| - 1]))
  }
}
