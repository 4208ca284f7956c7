/** Executions and step executions as JSON on the HTTP interface, against what the tables store. */
module Wire {
  import opened Prelude
  import opened JsonValue
  import opened Domain
  import opened Timestamp
  import opened Rows

  function TimeJson(t: Option<Time>): Json
    requires From1970(t)
  {
    if t.None? then Null else String(ToIso8601(t.value))
  }

  function ExecutionToJson(e: Execution): Json
    requires TimesFrom1970(e)
  {
    Object(map[
      EXECUTION_ID := String(e.id),
      WORKFLOW_NAME := String(e.workflowName),
      WORKFLOW_VERSION := Int(e.workflowVersion),
      STATUS := String(ExecutionStatusText(e.status)),
      CURRENT_STEP_NAME := String(e.currentStepName),
      INPUT := e.input,
      STATE := e.state,
      CURRENT_STEP_ATTEMPT := Int(e.currentStepAttempt),
      FAILURE_REASON := TextJson(e.failureReason),
      STARTED_AT := TimeJson(e.startedAt),
      COMPLETED_AT := TimeJson(e.completedAt)])
  }

  /** A field that may be left out, null, or a string; None when as_string throws. */
  function OptionalAt(v: Json, field: string): Option<Option<string>> {
    if !Has(v, field) then Some(None) else TextAt(v, field)
  }

  function OrEmpty(v: Json, field: string): Json {
    if Has(v, field) then v.fields[field] else EMPTY_OBJECT
  }

  /** None when an accessor throws. */
  function ExecutionFromJson(v: Json): Option<Execution> {
    var id, name, version, status := StringAt(v, EXECUTION_ID), StringAt(v, WORKFLOW_NAME), IntAt(v, WORKFLOW_VERSION), StringAt(v, STATUS);
    var step, input, state, attempt := StringAt(v, CURRENT_STEP_NAME), At(v, INPUT), At(v, STATE), IntAt(v, CURRENT_STEP_ATTEMPT);
    var reason, started, completed := OptionalAt(v, FAILURE_REASON), OptionalAt(v, STARTED_AT), OptionalAt(v, COMPLETED_AT);
    if id.None? || name.None? || version.None? || status.None? || step.None? || input.None? || state.None? || attempt.None?
       || reason.None? || started.None? || completed.None?
    then None
    else Some(Execution(id.value, name.value, ToInt32(version.value), ExecutionStatusOf(status.value), step.value, input.value, state.value,
                        ToInt32(attempt.value), reason.value, FromStorageTime(started.value), FromStorageTime(completed.value)))
  }

  function StepExecutionToJson(r: StepExecution): Json
    requires StepTimesFrom1970(r)
  {
    Object(map[
      EXECUTION_ID := String(r.executionId),
      WORKFLOW_NAME := String(r.workflowName),
      WORKFLOW_VERSION := Int(r.workflowVersion),
      STEP_NAME := String(r.stepName),
      ATTEMPT := Int(r.attempt),
      STATUS := String(StepStatusText(r.status)),
      WORKER_ID := TextJson(r.workerId),
      LEASE_EXPIRES_AT := TimeJson(r.leaseExpiresAt),
      FAILURE_REASON := TextJson(r.failureReason),
      CREATED_AT := TimeJson(r.createdAt),
      SCHEDULED_AT := TimeJson(r.scheduledAt),
      STARTED_AT := TimeJson(r.startedAt),
      COMPLETED_AT := TimeJson(r.completedAt),
      INPUT := r.input,
      STATE := r.state,
      OUTPUT := r.output])
  }

  function StepExecutionFromJson(v: Json): Option<StepExecution> {
    var id, name, version, step := StringAt(v, EXECUTION_ID), StringAt(v, WORKFLOW_NAME), IntAt(v, WORKFLOW_VERSION), StringAt(v, STEP_NAME);
    var attempt, status, worker, lease := IntAt(v, ATTEMPT), StringAt(v, STATUS), OptionalAt(v, WORKER_ID), OptionalAt(v, LEASE_EXPIRES_AT);
    var reason, created, scheduled := OptionalAt(v, FAILURE_REASON), OptionalAt(v, CREATED_AT), OptionalAt(v, SCHEDULED_AT);
    var started, completed := OptionalAt(v, STARTED_AT), OptionalAt(v, COMPLETED_AT);
    if id.None? || name.None? || version.None? || step.None? || attempt.None? || status.None? || worker.None? || lease.None?
       || reason.None? || created.None? || scheduled.None? || started.None? || completed.None?
    then None
    else Some(StepExecution(id.value, name.value, ToInt32(version.value), step.value, ToInt32(attempt.value), StepStatusOf(status.value),
                            worker.value, FromStorageTime(lease.value), reason.value, FromStorageTime(created.value),
                            FromStorageTime(scheduled.value), FromStorageTime(started.value), FromStorageTime(completed.value),
                            OrEmpty(v, INPUT), OrEmpty(v, STATE), OrEmpty(v, OUTPUT)))
  }

  /** The interface writes an execution as the table stores it, and reads whatever the table reads as the same
      execution. */
  lemma ExecutionWireIsRow(e: Execution, v: Json)
    ensures TimesFrom1970(e) ==> ExecutionToJson(e) == ExecutionRowToJson(ExecutionToRow(e))
    ensures ExecutionRowFromJson(v).Some? ==> ExecutionFromJson(v) == Some(ExecutionFromRow(ExecutionRowFromJson(v).value))
  {
  }

  lemma StepExecutionWireIsRow(r: StepExecution, v: Json)
    ensures StepTimesFrom1970(r) ==> StepExecutionToJson(r) == StepExecutionRowToJson(StepExecutionToRow(r))
    ensures StepExecutionRowFromJson(v).Some? ==> StepExecutionFromJson(v) == Some(StepExecutionFromRow(StepExecutionRowFromJson(v).value))
  {
    if StepTimesFrom1970(r) {
      WrittenLikeRow(r);
    }
    if StepExecutionRowFromJson(v).Some? {
      ReadLikeRow(v);
    }
  }

  lemma WrittenLikeRow(r: StepExecution)
    requires StepTimesFrom1970(r)
    ensures StepExecutionToJson(r) == StepExecutionRowToJson(StepExecutionToRow(r))
  {
    var row := StepExecutionToRow(r);
    assert TimeJson(r.leaseExpiresAt) == TextJson(row.leaseExpiresAt) && TimeJson(r.createdAt) == TextJson(row.createdAt);
    assert TimeJson(r.scheduledAt) == TextJson(row.scheduledAt) && TimeJson(r.startedAt) == TextJson(row.startedAt);
    assert TimeJson(r.completedAt) == TextJson(row.completedAt);
  }

  lemma ReadLikeRow(v: Json)
    requires StepExecutionRowFromJson(v).Some?
    ensures StepExecutionFromJson(v) == Some(StepExecutionFromRow(StepExecutionRowFromJson(v).value))
  {
    assert OptionalAt(v, WORKER_ID) == TextAt(v, WORKER_ID) && OptionalAt(v, LEASE_EXPIRES_AT) == TextAt(v, LEASE_EXPIRES_AT);
    assert OptionalAt(v, FAILURE_REASON) == TextAt(v, FAILURE_REASON) && OptionalAt(v, CREATED_AT) == TextAt(v, CREATED_AT);
    assert OptionalAt(v, SCHEDULED_AT) == TextAt(v, SCHEDULED_AT) && OptionalAt(v, STARTED_AT) == TextAt(v, STARTED_AT);
    assert OptionalAt(v, COMPLETED_AT) == TextAt(v, COMPLETED_AT);
    assert OrEmpty(v, INPUT) == At(v, INPUT).value && OrEmpty(v, STATE) == At(v, STATE).value && OrEmpty(v, OUTPUT) == At(v, OUTPUT).value;
  }

  /** What a client reads from the interface is what the orchestrator holds. */
  lemma WireRoundTrip(e: Execution, r: StepExecution)
    ensures InInt32(e.workflowVersion) && InInt32(e.currentStepAttempt) && TimesFrom1970(e) ==>
              (ExecutionFromJson(ExecutionToJson(e)) == Some(e) <==> Storable(e.startedAt) && Storable(e.completedAt))
    ensures InInt32(r.workflowVersion) && InInt32(r.attempt) && StepTimesFrom1970(r) ==>
              (StepExecutionFromJson(StepExecutionToJson(r)) == Some(r) <==> StepTimesStorable(r))
  {
    if InInt32(e.workflowVersion) && InInt32(e.currentStepAttempt) && TimesFrom1970(e) {
      ExecutionStored(e);
      ExecutionWireIsRow(e, ExecutionToJson(e));
    }
    if InInt32(r.workflowVersion) && InInt32(r.attempt) && StepTimesFrom1970(r) {
      StepExecutionStored(r);
      StepExecutionWireIsRow(r, StepExecutionToJson(r));
    }
  }
}
