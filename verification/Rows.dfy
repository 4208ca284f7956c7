/** What the tables store: entities as rows, rows as JSON objects, and back. */
module Rows {
  import opened Prelude
  import opened JsonValue
  import opened Domain
  import opened Timestamp

  /* ---- statuses ---- */

  function ExecutionStatusText(s: ExecutionStatus): string {
    match s
    case Running => "Running"
    case Completed => "Completed"
    case Failed => "Failed"
    case Canceled => "Canceled"
  }

  function StepStatusText(s: StepStatus): string {
    match s
    case Pending => "Pending"
    case Running => "Running"
    case Completed => "Completed"
    case Failed => "Failed"
    case Canceled => "Canceled"
  }

  /** Anything unknown reads as Running. */
  function ExecutionStatusOf(s: string): ExecutionStatus {
    if s == "Completed" then ExecutionStatus.Completed
    else if s == "Failed" then ExecutionStatus.Failed
    else if s == "Canceled" then ExecutionStatus.Canceled
    else ExecutionStatus.Running
  }

  /** Anything unknown reads as Pending. */
  function StepStatusOf(s: string): StepStatus {
    if s == "Running" then StepStatus.Running
    else if s == "Completed" then StepStatus.Completed
    else if s == "Failed" then StepStatus.Failed
    else if s == "Canceled" then StepStatus.Canceled
    else StepStatus.Pending
  }

  lemma StatusesReadBack(e: ExecutionStatus, r: StepStatus)
    ensures ExecutionStatusOf(ExecutionStatusText(e)) == e
    ensures StepStatusOf(StepStatusText(r)) == r
  {
  }

  /* ---- rows ---- */

  datatype StepRow = StepRow(name: string, expectedExecutionTime: Option<string>, maxRetries: Option<int>, additionalFields: Json)

  datatype DefinitionRow = DefinitionRow(
    workflowName: string,
    workflowVersion: int,
    startWorkflowStepName: string,
    expectedExecutionTime: string,
    singleton: Option<bool>,
    steps: seq<StepRow>)

  datatype ExecutionRow = ExecutionRow(
    executionId: string,
    workflowName: string,
    workflowVersion: int,
    status: string,
    currentStepName: string,
    input: Json,
    state: Json,
    currentStepAttempt: int,
    failureReason: Option<string>,
    startedAt: Option<string>,
    completedAt: Option<string>)

  datatype StepExecutionRow = StepExecutionRow(
    executionId: string,
    workflowName: string,
    workflowVersion: int,
    stepName: string,
    attempt: int,
    status: string,
    workerId: Option<string>,
    leaseExpiresAt: Option<string>,
    failureReason: Option<string>,
    createdAt: Option<string>,
    scheduledAt: Option<string>,
    startedAt: Option<string>,
    completedAt: Option<string>,
    input: Json,
    state: Json,
    output: Json)

  /** A stored time lies between 1970 and 9999. */
  predicate Storable(t: Option<Time>) {
    t.Some? ==> 0 <= t.value < END_OF_9999
  }

  predicate From1970(t: Option<Time>) {
    t.Some? ==> 0 <= t.value
  }

  function ToStorageTime(t: Option<Time>): Option<string>
    requires From1970(t)
  {
    if t.None? then None else Some(ToIso8601(t.value))
  }

  function FromStorageTime(s: Option<string>): Option<Time> {
    if s.None? then None else Some(FromIso8601(s.value))
  }

  lemma StorageTimeReadBack(t: Option<Time>)
    requires From1970(t)
    ensures FromStorageTime(ToStorageTime(t)) == t <==> Storable(t)
  {
    if t.Some? {
      TimestampRoundTrip(t.value);
    }
  }

  function StepToRow(step: WorkflowStep): StepRow {
    StepRow(step.name, step.expectedExecutionTime, step.maxRetries, Object(step.additionalFields))
  }

  function StepFromRow(row: StepRow): WorkflowStep {
    WorkflowStep(row.name, row.expectedExecutionTime,
                 if row.maxRetries.Some? then Some(ToInt32(row.maxRetries.value)) else None,
                 if row.additionalFields.Object? then row.additionalFields.fields else map[])
  }

  function DefinitionToRow(d: WorkflowDefinition): DefinitionRow {
    DefinitionRow(d.workflowName, d.workflowVersion, d.startWorkflowStepName, d.expectedExecutionTime, Some(d.singleton),
                  seq(|d.steps|, i requires 0 <= i < |d.steps| => StepToRow(d.steps[i])))
  }

  function DefinitionFromRow(row: DefinitionRow): WorkflowDefinition {
    WorkflowDefinition(row.workflowName, ToInt32(row.workflowVersion), row.startWorkflowStepName, row.expectedExecutionTime,
                       row.singleton == Some(true),
                       seq(|row.steps|, i requires 0 <= i < |row.steps| => StepFromRow(row.steps[i])))
  }

  /** The conversion's loop over the steps. */
  method StepsToRows(steps: seq<WorkflowStep>) returns (rows: seq<StepRow>)
    ensures |rows| == |steps| && forall i :: 0 <= i < |rows| ==> rows[i] == StepToRow(steps[i])
  {
    rows := [];
    for i := 0 to |steps|
      invariant |rows| == i && forall k :: 0 <= k < i ==> rows[k] == StepToRow(steps[k])
    {
      rows := rows + [StepToRow(steps[i])];
    }
  }

  method StepsFromRows(rows: seq<StepRow>) returns (steps: seq<WorkflowStep>)
    ensures |steps| == |rows| && forall i :: 0 <= i < |steps| ==> steps[i] == StepFromRow(rows[i])
  {
    steps := [];
    for i := 0 to |rows|
      invariant |steps| == i && forall k :: 0 <= k < i ==> steps[k] == StepFromRow(rows[k])
    {
      steps := steps + [StepFromRow(rows[i])];
    }
  }

  predicate TimesFrom1970(e: Execution) {
    From1970(e.startedAt) && From1970(e.completedAt)
  }

  predicate StepTimesFrom1970(r: StepExecution) {
    From1970(r.leaseExpiresAt) && From1970(r.createdAt) && From1970(r.scheduledAt) && From1970(r.startedAt) && From1970(r.completedAt)
  }

  function ExecutionToRow(e: Execution): ExecutionRow
    requires TimesFrom1970(e)
  {
    ExecutionRow(e.id, e.workflowName, e.workflowVersion, ExecutionStatusText(e.status), e.currentStepName, e.input, e.state,
                 e.currentStepAttempt, e.failureReason, ToStorageTime(e.startedAt), ToStorageTime(e.completedAt))
  }

  function ExecutionFromRow(row: ExecutionRow): Execution {
    Execution(row.executionId, row.workflowName, ToInt32(row.workflowVersion), ExecutionStatusOf(row.status), row.currentStepName,
              row.input, row.state, ToInt32(row.currentStepAttempt), row.failureReason,
              FromStorageTime(row.startedAt), FromStorageTime(row.completedAt))
  }

  function StepExecutionToRow(r: StepExecution): StepExecutionRow
    requires StepTimesFrom1970(r)
  {
    StepExecutionRow(r.executionId, r.workflowName, r.workflowVersion, r.stepName, r.attempt, StepStatusText(r.status), r.workerId,
                     ToStorageTime(r.leaseExpiresAt), r.failureReason, ToStorageTime(r.createdAt), ToStorageTime(r.scheduledAt),
                     ToStorageTime(r.startedAt), ToStorageTime(r.completedAt), r.input, r.state, r.output)
  }

  function StepExecutionFromRow(row: StepExecutionRow): StepExecution {
    StepExecution(row.executionId, row.workflowName, ToInt32(row.workflowVersion), row.stepName, ToInt32(row.attempt),
                  StepStatusOf(row.status), row.workerId, FromStorageTime(row.leaseExpiresAt), row.failureReason,
                  FromStorageTime(row.createdAt), FromStorageTime(row.scheduledAt), FromStorageTime(row.startedAt),
                  FromStorageTime(row.completedAt), row.input, row.state, row.output)
  }

  /* ---- JSON ---- */

  function At(v: Json, field: string): Option<Json> {
    if Has(v, field) then Some(v.fields[field]) else None
  }

  /** as_string of a field; None when it throws. */
  function StringAt(v: Json, field: string): Option<string> {
    match At(v, field) case Some(String(s)) => Some(s) case _ => None
  }

  function IntAt(v: Json, field: string): Option<int> {
    match At(v, field) case Some(Int(i)) => Some(i) case _ => None
  }

  /** A field that is null or a string. */
  function TextAt(v: Json, field: string): Option<Option<string>> {
    match At(v, field) case Some(Null) => Some(None) case Some(String(s)) => Some(Some(s)) case _ => None
  }

  function FlagAt(v: Json, field: string): Option<Option<bool>> {
    match At(v, field) case Some(Null) => Some(None) case Some(Bool(b)) => Some(Some(b)) case _ => None
  }

  function NumberAtField(v: Json, field: string): Option<Option<int>> {
    match At(v, field) case Some(Null) => Some(None) case Some(Int(i)) => Some(Some(i)) case _ => None
  }

  function TextJson(s: Option<string>): Json {
    if s.None? then Null else String(s.value)
  }

  const EXECUTION_ID := "workflowExecutionId"
  const WORKFLOW_NAME := "workflowName"
  const WORKFLOW_VERSION := "workflowVersion"
  const STATUS := "status"
  const CURRENT_STEP_NAME := "currentStepName"
  const INPUT := "input"
  const STATE := "state"
  const OUTPUT := "output"
  const CURRENT_STEP_ATTEMPT := "currentStepAttempt"
  const FAILURE_REASON := "failureReason"
  const STARTED_AT := "startedAt"
  const COMPLETED_AT := "completedAt"
  const STEP_NAME := "stepName"
  const ATTEMPT := "attempt"
  const WORKER_ID := "workerId"
  const LEASE_EXPIRES_AT := "leaseExpiresAt"
  const CREATED_AT := "createdAt"
  const SCHEDULED_AT := "scheduledAt"
  const START_STEP := "startWorkflowStepName"
  const EXPECTED_TIME := "expectedExecutionTime"
  const SINGLETON := "singleton"
  const STEPS := "steps"
  const NAME := "name"
  const MAX_RETRIES := "maxRetries"
  const ADDITIONAL_FIELDS := "additionalFields"

  function ExecutionRowToJson(row: ExecutionRow): Json {
    Object(map[
      EXECUTION_ID := String(row.executionId),
      WORKFLOW_NAME := String(row.workflowName),
      WORKFLOW_VERSION := Int(row.workflowVersion),
      STATUS := String(row.status),
      CURRENT_STEP_NAME := String(row.currentStepName),
      INPUT := row.input,
      STATE := row.state,
      CURRENT_STEP_ATTEMPT := Int(row.currentStepAttempt),
      FAILURE_REASON := TextJson(row.failureReason),
      STARTED_AT := TextJson(row.startedAt),
      COMPLETED_AT := TextJson(row.completedAt)])
  }

  /** None when an accessor throws. */
  function ExecutionRowFromJson(v: Json): Option<ExecutionRow> {
    var id, name, version, status := StringAt(v, EXECUTION_ID), StringAt(v, WORKFLOW_NAME), IntAt(v, WORKFLOW_VERSION), StringAt(v, STATUS);
    var step, input, state, attempt := StringAt(v, CURRENT_STEP_NAME), At(v, INPUT), At(v, STATE), IntAt(v, CURRENT_STEP_ATTEMPT);
    var reason, started, completed := TextAt(v, FAILURE_REASON), TextAt(v, STARTED_AT), TextAt(v, COMPLETED_AT);
    if id.None? || name.None? || version.None? || status.None? || step.None? || input.None? || state.None? || attempt.None?
       || reason.None? || started.None? || completed.None?
    then None
    else Some(ExecutionRow(id.value, name.value, version.value, status.value, step.value, input.value, state.value, attempt.value,
                           reason.value, started.value, completed.value))
  }

  lemma ExecutionJsonReadBack(row: ExecutionRow)
    ensures ExecutionRowFromJson(ExecutionRowToJson(row)) == Some(row)
  {
    ExecutionValuesReadBack(row, ExecutionRowToJson(row));
    ExecutionTextsReadBack(row, ExecutionRowToJson(row));
  }

  lemma ExecutionValuesReadBack(row: ExecutionRow, v: Json)
    requires v == ExecutionRowToJson(row)
    ensures StringAt(v, EXECUTION_ID) == Some(row.executionId) && StringAt(v, WORKFLOW_NAME) == Some(row.workflowName)
    ensures IntAt(v, WORKFLOW_VERSION) == Some(row.workflowVersion) && StringAt(v, STATUS) == Some(row.status)
    ensures StringAt(v, CURRENT_STEP_NAME) == Some(row.currentStepName) && At(v, INPUT) == Some(row.input)
  {
  }

  lemma ExecutionTextsReadBack(row: ExecutionRow, v: Json)
    requires v == ExecutionRowToJson(row)
    ensures At(v, STATE) == Some(row.state) && IntAt(v, CURRENT_STEP_ATTEMPT) == Some(row.currentStepAttempt)
    ensures TextAt(v, FAILURE_REASON) == Some(row.failureReason)
    ensures TextAt(v, STARTED_AT) == Some(row.startedAt) && TextAt(v, COMPLETED_AT) == Some(row.completedAt)
  {
  }

  function StepExecutionRowToJson(row: StepExecutionRow): Json {
    Object(map[
      EXECUTION_ID := String(row.executionId),
      WORKFLOW_NAME := String(row.workflowName),
      WORKFLOW_VERSION := Int(row.workflowVersion),
      STEP_NAME := String(row.stepName),
      ATTEMPT := Int(row.attempt),
      STATUS := String(row.status),
      WORKER_ID := TextJson(row.workerId),
      LEASE_EXPIRES_AT := TextJson(row.leaseExpiresAt),
      FAILURE_REASON := TextJson(row.failureReason),
      CREATED_AT := TextJson(row.createdAt),
      SCHEDULED_AT := TextJson(row.scheduledAt),
      STARTED_AT := TextJson(row.startedAt),
      COMPLETED_AT := TextJson(row.completedAt),
      INPUT := row.input,
      STATE := row.state,
      OUTPUT := row.output])
  }

  function StepExecutionRowFromJson(v: Json): Option<StepExecutionRow> {
    var id, name, version, step := StringAt(v, EXECUTION_ID), StringAt(v, WORKFLOW_NAME), IntAt(v, WORKFLOW_VERSION), StringAt(v, STEP_NAME);
    var attempt, status, worker, lease := IntAt(v, ATTEMPT), StringAt(v, STATUS), TextAt(v, WORKER_ID), TextAt(v, LEASE_EXPIRES_AT);
    var reason, created, scheduled := TextAt(v, FAILURE_REASON), TextAt(v, CREATED_AT), TextAt(v, SCHEDULED_AT);
    var started, completed := TextAt(v, STARTED_AT), TextAt(v, COMPLETED_AT);
    var input, state, output := At(v, INPUT), At(v, STATE), At(v, OUTPUT);
    if id.None? || name.None? || version.None? || step.None? || attempt.None? || status.None? || worker.None? || lease.None?
       || reason.None? || created.None? || scheduled.None? || started.None? || completed.None?
       || input.None? || state.None? || output.None?
    then None
    else Some(StepExecutionRow(id.value, name.value, version.value, step.value, attempt.value, status.value, worker.value, lease.value,
                               reason.value, created.value, scheduled.value, started.value, completed.value,
                               input.value, state.value, output.value))
  }

  lemma StepIdentityFields(row: StepExecutionRow)
    ensures var v := StepExecutionRowToJson(row);
            && StringAt(v, EXECUTION_ID) == Some(row.executionId) && StringAt(v, WORKFLOW_NAME) == Some(row.workflowName)
            && IntAt(v, WORKFLOW_VERSION) == Some(row.workflowVersion) && StringAt(v, STEP_NAME) == Some(row.stepName)
            && IntAt(v, ATTEMPT) == Some(row.attempt)
  {
  }

  lemma StepClaimFields(row: StepExecutionRow)
    ensures var v := StepExecutionRowToJson(row);
            && StringAt(v, STATUS) == Some(row.status) && TextAt(v, WORKER_ID) == Some(row.workerId)
            && TextAt(v, LEASE_EXPIRES_AT) == Some(row.leaseExpiresAt)
  {
  }

  lemma StepTimeFields(row: StepExecutionRow)
    ensures var v := StepExecutionRowToJson(row);
            && TextAt(v, FAILURE_REASON) == Some(row.failureReason) && TextAt(v, CREATED_AT) == Some(row.createdAt)
            && TextAt(v, SCHEDULED_AT) == Some(row.scheduledAt) && TextAt(v, STARTED_AT) == Some(row.startedAt)
            && TextAt(v, COMPLETED_AT) == Some(row.completedAt)
            && At(v, INPUT) == Some(row.input) && At(v, STATE) == Some(row.state) && At(v, OUTPUT) == Some(row.output)
  {
  }

  lemma StepExecutionJsonReadBack(row: StepExecutionRow)
    ensures StepExecutionRowFromJson(StepExecutionRowToJson(row)) == Some(row)
  {
    StepIdentityFields(row);
    StepClaimFields(row);
    StepTimeFields(row);
  }

  function FlagJson(b: Option<bool>): Json {
    if b.None? then Null else Bool(b.value)
  }

  function NumberJson(i: Option<int>): Json {
    if i.None? then Null else Int(i.value)
  }

  function StepRowToJson(row: StepRow): Json {
    Object(map[
      NAME := String(row.name),
      EXPECTED_TIME := TextJson(row.expectedExecutionTime),
      MAX_RETRIES := NumberJson(row.maxRetries),
      ADDITIONAL_FIELDS := row.additionalFields])
  }

  function StepRowFromJson(v: Json): Option<StepRow> {
    var name, time, retries, additional := StringAt(v, NAME), TextAt(v, EXPECTED_TIME), NumberAtField(v, MAX_RETRIES), At(v, ADDITIONAL_FIELDS);
    if name.None? || time.None? || retries.None? || additional.None? then None
    else Some(StepRow(name.value, time.value, retries.value, additional.value))
  }

  function StepRowsToJson(rows: seq<StepRow>): seq<Json> {
    seq(|rows|, i requires 0 <= i < |rows| => StepRowToJson(rows[i]))
  }

  /** None when one of the items throws. */
  function StepRowsFromJson(items: seq<Json>): Option<seq<StepRow>> {
    if items == [] then Some([])
    else
      var front, last := StepRowsFromJson(items[..|items| - 1]), StepRowFromJson(items[|items| - 1]);
      if front.None? || last.None? then None else Some(front.value + [last.value])
  }

  method StepArrayToJson(rows: seq<StepRow>) returns (items: seq<Json>)
    ensures items == StepRowsToJson(rows)
  {
    items := [];
    for i := 0 to |rows|
      invariant items == StepRowsToJson(rows)[..i]
    {
      items := items + [StepRowToJson(rows[i])];
    }
  }

  method StepArrayFromJson(items: seq<Json>) returns (rows: Option<seq<StepRow>>)
    ensures rows == StepRowsFromJson(items)
  {
    var values: seq<StepRow> := [];
    for i := 0 to |items|
      invariant StepRowsFromJson(items[..i]) == Some(values)
    {
      assert items[..i + 1][..i] == items[..i];
      var row := StepRowFromJson(items[i]);
      if row.None? {
        OneBadItem(items, i + 1);
        return None;
      }
      values := values + [row.value];
    }
    assert items[..|items|] == items;
    return Some(values);
  }

  lemma {:induction false} OneBadItem(items: seq<Json>, n: nat)
    requires n <= |items| && StepRowsFromJson(items[..n]).None?
    ensures StepRowsFromJson(items).None?
    decreases |items| - n
  {
    if n == |items| {
      assert items[..n] == items;
    } else {
      assert items[..n + 1][..n] == items[..n];
      OneBadItem(items, n + 1);
    }
  }

  function DefinitionRowToJson(row: DefinitionRow): Json {
    Object(map[
      WORKFLOW_NAME := String(row.workflowName),
      WORKFLOW_VERSION := Int(row.workflowVersion),
      START_STEP := String(row.startWorkflowStepName),
      EXPECTED_TIME := String(row.expectedExecutionTime),
      SINGLETON := FlagJson(row.singleton),
      STEPS := Array(StepRowsToJson(row.steps))])
  }

  function DefinitionRowFromJson(v: Json): Option<DefinitionRow> {
    var name, version, start, time := StringAt(v, WORKFLOW_NAME), IntAt(v, WORKFLOW_VERSION), StringAt(v, START_STEP), StringAt(v, EXPECTED_TIME);
    var singleton, steps := FlagAt(v, SINGLETON), At(v, STEPS);
    if name.None? || version.None? || start.None? || time.None? || singleton.None? || steps.None? || !steps.value.Array? then None
    else
      match StepRowsFromJson(steps.value.items)
      case None => None
      case Some(rows) => Some(DefinitionRow(name.value, version.value, start.value, time.value, singleton.value, rows))
  }

  lemma StepRowReadBack(row: StepRow)
    ensures StepRowFromJson(StepRowToJson(row)) == Some(row)
  {
  }

  lemma {:induction false} StepRowsReadBack(rows: seq<StepRow>)
    ensures StepRowsFromJson(StepRowsToJson(rows)) == Some(rows)
  {
    if rows != [] {
      var n := |rows| - 1;
      var items := StepRowsToJson(rows);
      StepRowsReadBack(rows[..n]);
      StepRowReadBack(rows[n]);
      assert items[..n] == StepRowsToJson(rows[..n]);
      assert rows == rows[..n] + [rows[n]];
    }
  }

  lemma DefinitionJsonReadBack(row: DefinitionRow)
    ensures DefinitionRowFromJson(DefinitionRowToJson(row)) == Some(row)
  {
    StepRowsReadBack(row.steps);
    DefinitionFieldsReadBack(row, DefinitionRowToJson(row));
  }

  lemma DefinitionFieldsReadBack(row: DefinitionRow, v: Json)
    requires v == DefinitionRowToJson(row)
    ensures StringAt(v, WORKFLOW_NAME) == Some(row.workflowName) && IntAt(v, WORKFLOW_VERSION) == Some(row.workflowVersion)
    ensures StringAt(v, START_STEP) == Some(row.startWorkflowStepName) && StringAt(v, EXPECTED_TIME) == Some(row.expectedExecutionTime)
    ensures FlagAt(v, SINGLETON) == Some(row.singleton) && At(v, STEPS) == Some(Array(StepRowsToJson(row.steps)))
  {
  }

  /* ---- stored and read back ---- */

  predicate NumbersFit(d: WorkflowDefinition) {
    InInt32(d.workflowVersion)
    && forall i :: 0 <= i < |d.steps| && d.steps[i].maxRetries.Some? ==> InInt32(d.steps[i].maxRetries.value)
  }

  /** A definition comes back from the table as it was put. */
  lemma DefinitionStored(d: WorkflowDefinition)
    requires NumbersFit(d)
    ensures var row := DefinitionRowFromJson(DefinitionRowToJson(DefinitionToRow(d)));
            row.Some? && DefinitionFromRow(row.value) == d
  {
    DefinitionJsonReadBack(DefinitionToRow(d));
    assert DefinitionFromRow(DefinitionToRow(d)).steps == d.steps;
  }

  /** An execution comes back as it was put exactly when its times lie before the year 10000. */
  lemma ExecutionStored(e: Execution)
    requires InInt32(e.workflowVersion) && InInt32(e.currentStepAttempt) && TimesFrom1970(e)
    ensures var row := ExecutionRowFromJson(ExecutionRowToJson(ExecutionToRow(e)));
            row.Some? && (ExecutionFromRow(row.value) == e <==> Storable(e.startedAt) && Storable(e.completedAt))
  {
    ExecutionJsonReadBack(ExecutionToRow(e));
    StatusesReadBack(e.status, StepStatus.Pending);
    StorageTimeReadBack(e.startedAt);
    StorageTimeReadBack(e.completedAt);
  }

  predicate StepTimesStorable(r: StepExecution) {
    Storable(r.leaseExpiresAt) && Storable(r.createdAt) && Storable(r.scheduledAt) && Storable(r.startedAt) && Storable(r.completedAt)
  }

  /** And so does a step execution. */
  lemma StepExecutionStored(r: StepExecution)
    requires InInt32(r.workflowVersion) && InInt32(r.attempt) && StepTimesFrom1970(r)
    ensures var row := StepExecutionRowFromJson(StepExecutionRowToJson(StepExecutionToRow(r)));
            row.Some? && (StepExecutionFromRow(row.value) == r <==> StepTimesStorable(r))
  {
    StepExecutionJsonReadBack(StepExecutionToRow(r));
    StatusesReadBack(ExecutionStatus.Running, r.status);
    StorageTimeReadBack(r.leaseExpiresAt);
    StorageTimeReadBack(r.createdAt);
    StorageTimeReadBack(r.scheduledAt);
    StorageTimeReadBack(r.startedAt);
    StorageTimeReadBack(r.completedAt);
  }
}
