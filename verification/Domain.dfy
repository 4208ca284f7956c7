/** The entities the orchestrator stores. Times are microseconds since 1970-01-01T00:00:00Z. */
module Domain {
  import opened Prelude
  import opened JsonValue

  type Time = int

  const SECOND: Time := 1_000_000

  datatype ExecutionStatus = Running | Completed | Failed | Canceled

  datatype StepStatus = Pending | Running | Completed | Failed | Canceled

  datatype WorkflowStep = WorkflowStep(
    name: string,
    expectedExecutionTime: Option<string>,
    maxRetries: Option<int>,
    additionalFields: map<string, Json>)

  datatype WorkflowDefinition = WorkflowDefinition(
    workflowName: string,
    workflowVersion: int,
    startWorkflowStepName: string,
    expectedExecutionTime: string,
    singleton: bool,
    steps: seq<WorkflowStep>)

  datatype Execution = Execution(
    id: string,
    workflowName: string,
    workflowVersion: int,
    status: ExecutionStatus,
    currentStepName: string,
    input: Json,
    state: Json,
    currentStepAttempt: int,
    failureReason: Option<string>,
    startedAt: Option<Time>,
    completedAt: Option<Time>)

  datatype StepExecution = StepExecution(
    executionId: string,
    workflowName: string,
    workflowVersion: int,
    stepName: string,
    attempt: int,
    status: StepStatus,
    workerId: Option<string>,
    leaseExpiresAt: Option<Time>,
    failureReason: Option<string>,
    createdAt: Option<Time>,
    scheduledAt: Option<Time>,
    startedAt: Option<Time>,
    completedAt: Option<Time>,
    input: Json,
    state: Json,
    output: Json)
  {
    /** Neither finished nor given up. */
    predicate Open() {
      status.Pending? || status.Running?
    }
  }

  datatype SingletonLock = SingletonLock(
    workflowName: string,
    workflowVersion: int,
    executionId: string,
    createdAt: Option<Time>)

  /** What the workflow logic is asked, and what it answers. */
  datatype StepCompletionContext = StepCompletionContext(
    workflowName: string,
    workflowVersion: int,
    executionId: string,
    completedStepName: string,
    input: Json,
    state: Json,
    stepOutput: Json)

  datatype NextStepDecision = NextStepDecision(
    workflowComplete: bool,
    nextStepName: Option<string>,
    updatedState: Json,
    nextStepInput: Json)
}
