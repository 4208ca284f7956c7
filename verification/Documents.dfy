/** The documents the framework reads and writes, by the names of their fields. */
module Documents {
  import opened Prelude
  import opened JsonValue
  import opened Domain
  import opened Calendar
  import opened Text
  import opened Timestamp
  import opened Rows
  import opened Wire
  import opened Definitions

  /* ---- definitions ---- */

  /** What a step says in its document. */
  ghost predicate StepSays(fields: map<string, Json>, step: WorkflowStep) {
    && "name" in fields && fields["name"] == String(step.name)
    && (match step.expectedExecutionTime
        case None => "expectedExecutionTime" !in fields
        case Some(text) => "expectedExecutionTime" in fields && fields["expectedExecutionTime"] == String(text))
    && (match step.maxRetries
        case None => "maxRetries" !in fields
        case Some(n) => "maxRetries" in fields && fields["maxRetries"].Int? && ToInt32(fields["maxRetries"].i) == n && n >= 0)
    && step.additionalFields == fields - {"name", "expectedExecutionTime", "maxRetries"}
  }

  /** What a definition says in its document; one that does not say whether it is a singleton is none. */
  ghost predicate Says(fields: map<string, Json>, d: WorkflowDefinition) {
    && "workflowName" in fields && fields["workflowName"] == String(d.workflowName)
    && "workflowVersion" in fields && fields["workflowVersion"].Int? && ToInt32(fields["workflowVersion"].i) == d.workflowVersion
    && d.workflowVersion >= 1
    && "startWorkflowStepName" in fields && fields["startWorkflowStepName"] == String(d.startWorkflowStepName)
    && "expectedExecutionTime" in fields && fields["expectedExecutionTime"] == String(d.expectedExecutionTime)
    && (if "singleton" in fields then fields["singleton"] == Bool(d.singleton) else !d.singleton)
    && "steps" in fields && fields["steps"].Array? && |fields["steps"].items| == |d.steps|
    && forall i :: 0 <= i < |d.steps| ==> fields["steps"].items[i].Object? && StepSays(fields["steps"].items[i].fields, d.steps[i])
  }

  lemma ParsedStepSays(step: Json)
    requires StepFieldsOk(step)
    ensures StepSays(step.fields, ParseStep(step))
  {
  }

  /** A definition that parses says in its document what it is parsed to, field by field. */
  lemma DefinitionRead(value: Json)
    requires WellFormed(value)
    ensures value.Object? && Says(value.fields, Parsed(value))
  {
    WellFormedSteps(value.fields[STEPS].items);
    forall i | 0 <= i < |value.fields[STEPS].items| ensures StepSays(value.fields[STEPS].items[i].fields, ParseStep(value.fields[STEPS].items[i])) {
      ParsedStepSays(value.fields[STEPS].items[i]);
    }
  }

  /* ---- executions ---- */

  function TimeOrNull(t: Option<Time>): Json
    requires From1970(t)
  {
    match t case None => Null case Some(at) => String(ToIso8601(at))
  }

  function TextOrNull(s: Option<string>): Json {
    match s case None => Null case Some(text) => String(text)
  }

  const STATUS_WORDS := ["Pending", "Running", "Completed", "Failed", "Canceled"]

  function WordOf(s: StepStatus): string {
    STATUS_WORDS[if s.Pending? then 0 else if s.Running? then 1 else if s.Completed? then 2 else if s.Failed? then 3 else 4]
  }

  function ExecutionWordOf(s: ExecutionStatus): string {
    STATUS_WORDS[if s.Running? then 1 else if s.Completed? then 2 else if s.Failed? then 3 else 4]
  }

  lemma StatusWords(e: ExecutionStatus, r: StepStatus)
    ensures ExecutionStatusText(e) == ExecutionWordOf(e) && StepStatusText(r) == WordOf(r)
  {
  }

  /** An execution's document, in the tables and on the interface. */
  lemma ExecutionWritten(e: Execution)
    requires TimesFrom1970(e)
    ensures ExecutionToJson(e) == Object(map[
              "workflowExecutionId" := String(e.id),
              "workflowName" := String(e.workflowName),
              "workflowVersion" := Int(e.workflowVersion),
              "status" := String(ExecutionWordOf(e.status)),
              "currentStepName" := String(e.currentStepName),
              "input" := e.input,
              "state" := e.state,
              "currentStepAttempt" := Int(e.currentStepAttempt),
              "failureReason" := TextOrNull(e.failureReason),
              "startedAt" := TimeOrNull(e.startedAt),
              "completedAt" := TimeOrNull(e.completedAt)])
  {
    StatusWords(e.status, StepStatus.Pending);
  }

  /** A step execution's. */
  lemma StepExecutionWritten(r: StepExecution)
    requires StepTimesFrom1970(r)
    ensures StepExecutionToJson(r) == Object(map[
              "workflowExecutionId" := String(r.executionId),
              "workflowName" := String(r.workflowName),
              "workflowVersion" := Int(r.workflowVersion),
              "stepName" := String(r.stepName),
              "attempt" := Int(r.attempt),
              "status" := String(WordOf(r.status)),
              "workerId" := TextOrNull(r.workerId),
              "leaseExpiresAt" := TimeOrNull(r.leaseExpiresAt),
              "failureReason" := TextOrNull(r.failureReason),
              "createdAt" := TimeOrNull(r.createdAt),
              "scheduledAt" := TimeOrNull(r.scheduledAt),
              "startedAt" := TimeOrNull(r.startedAt),
              "completedAt" := TimeOrNull(r.completedAt),
              "input" := r.input,
              "state" := r.state,
              "output" := r.output])
  {
    StatusWords(ExecutionStatus.Running, r.status);
  }

  /* ---- timestamps ---- */

  /** Reading a timestamp with six digits of fraction gives its microseconds since 1970 by the closed formula for
      days, for every month there is. */
  lemma TimestampRead(year: string, month: string, day: string, hour: string, minute: string, second: string, fraction: string)
    requires IsField(year, 4) && IsField(month, 2) && IsField(day, 2) && IsField(hour, 2) && IsField(minute, 2) && IsField(second, 2)
    requires IsField(fraction, 6) && 1 <= NumeralValue(month) <= 12
    ensures FromIso8601(Stamp(year, month, day, hour, minute, second, fraction))
         == (CivilDays(NumeralValue(year), NumeralValue(month), NumeralValue(day)) * 86_400
             + NumeralValue(hour) * 3_600 + NumeralValue(minute) * 60 + NumeralValue(second)) * 1_000_000
            + NumeralValue(fraction)
  {
    var f := Fields(NumeralValue(year), NumeralValue(month), NumeralValue(day),
                    NumeralValue(hour), NumeralValue(minute), NumeralValue(second), fraction);
    ReadsInstant(year, month, day, hour, minute, second, fraction, f);
    CivilInstant(f);
  }

  /** The layout of a timestamp. */
  lemma StampLayout(year: string, month: string, day: string, hour: string, minute: string, second: string, fraction: string)
    ensures Stamp(year, month, day, hour, minute, second, fraction)
         == year + ("-" + (month + ("-" + (day + ("T" + (hour + (":" + (minute + (":" + (second + ("." + (fraction + "Z"))))))))))))
  {
  }

  lemma CivilInstant(f: Fields)
    requires 1 <= f.month <= 12 && |f.fraction| == 6
    ensures RoundedDown(f)
         == (CivilDays(f.year, f.month, f.day) * 86_400 + f.hour * 3_600 + f.minute * 60 + f.second) * 1_000_000 + NumeralValue(f.fraction)
  {
    DayNumberIsCivil(f.year, f.month, f.day);
    MonthIndex(f.year, f.month, f.day, f.hour, f.minute, f.second);
    SixDigits(NumeralValue(f.fraction));
  }

  lemma SixDigits(n: nat)
    ensures Pow10(6) == 1_000_000 && n * MICROS / Pow10(6) == n
  {
  }
}
