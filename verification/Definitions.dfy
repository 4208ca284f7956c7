/** Workflow definitions as JSON: what the validator accepts, and what parsing makes of it. */
module Definitions {
  import opened Prelude
  import opened JsonValue
  import opened Domain
  import opened Rows
  import Duration

  predicate IsLetter(c: char) {
    'A' <= c <= 'Z' || 'a' <= c <= 'z'
  }

  predicate IsNameChar(c: char) {
    IsLetter(c) || '0' <= c <= '9' || c == '_' || c == '-'
  }

  /** A letter, then letters, digits, underscores and hyphens. */
  predicate IsValidName(s: string) {
    s != "" && IsLetter(s[0]) && forall i :: 0 <= i < |s| ==> IsNameChar(s[i])
  }

  /** The ASCII codes of the capital and of the small letters. */
  predicate LetterCode(n: int) {
    65 <= n < 65 + 26 || 97 <= n < 97 + 26
  }

  /** The pattern of names, in ASCII codes: a letter, then any number of letters, digits (from 48), hyphens (45)
      and underscores (95). */
  lemma NamePattern(s: string)
    ensures IsValidName(s)
       <==> s != "" && LetterCode(s[0] as int)
            && forall i :: 1 <= i < |s| ==>
                 LetterCode(s[i] as int) || 48 <= s[i] as int < 48 + 10 || s[i] as int == 45 || s[i] as int == 95
  {
    if s != "" && IsLetter(s[0]) {
      assert IsNameChar(s[0]);
    }
  }

  const ALLOWED_FIELDS := {WORKFLOW_NAME, WORKFLOW_VERSION, START_STEP, EXPECTED_TIME, SINGLETON, STEPS}
  const STEP_FIELDS := {NAME, EXPECTED_TIME, MAX_RETRIES}

  /* ---- the validator's checks: true when they add no error ---- */

  predicate IsNonEmptyString(v: Json) {
    v.String? && v.s != ""
  }

  predicate RequiredString(v: Json, field: string) {
    Has(v, field) && IsNonEmptyString(v.fields[field])
  }

  predicate RequiredName(v: Json, field: string) {
    RequiredString(v, field) && (v.fields[field].String? ==> IsValidName(v.fields[field].s))
  }

  predicate RequiredDuration(v: Json, field: string) {
    RequiredString(v, field) && (v.fields[field].String? ==> Duration.IsValidDuration(v.fields[field].s))
  }

  predicate OptionalDuration(v: Json, field: string) {
    Has(v, field) ==> v.fields[field].String? && Duration.IsValidDuration(v.fields[field].s)
  }

  /** The integer is cut to an int before it is compared. */
  predicate OptionalNonNegative(v: Json, field: string) {
    Has(v, field) ==> v.fields[field].Int? && ToInt32(v.fields[field].i) >= 0
  }

  predicate OptionalBoolean(v: Json, field: string) {
    Has(v, field) ==> v.fields[field].Bool?
  }

  predicate PositiveVersion(v: Json) {
    Has(v, WORKFLOW_VERSION) && v.fields[WORKFLOW_VERSION].Int? && ToInt32(v.fields[WORKFLOW_VERSION].i) >= 1
  }

  /** The checks on one step that do not look at the others. */
  predicate StepFieldsOk(step: Json) {
    step.Object? && RequiredName(step, NAME) && OptionalDuration(step, EXPECTED_TIME) && OptionalNonNegative(step, MAX_RETRIES)
  }

  function NameOf(step: Json): Option<string> {
    if Has(step, NAME) && step.fields[NAME].String? then Some(step.fields[NAME].s) else None
  }

  function NamesIn(steps: seq<Json>): set<string> {
    set i | 0 <= i < |steps| && NameOf(steps[i]).Some? :: NameOf(steps[i]).value
  }

  predicate TopLevelOk(value: Json) {
    && value.Object? && value.fields.Keys <= ALLOWED_FIELDS
    && RequiredName(value, WORKFLOW_NAME) && RequiredString(value, START_STEP)
    && RequiredDuration(value, EXPECTED_TIME) && OptionalBoolean(value, SINGLETON) && PositiveVersion(value)
  }

  /** The validator, check by check. */
  method ValidateWorkflowJson(value: Json) returns (valid: bool)
    ensures valid <==> WellFormed(value)
  {
    ChecksDecide(value);
    if !value.Object? {
      return false;
    }
    valid := TopLevelOk(value);
    if STEPS !in value.fields || !value.fields[STEPS].Array? || value.fields[STEPS].items == [] {
      return false;
    }
    var stepsValid, stepNames := ValidateSteps(value.fields[STEPS].items);
    valid := valid && stepsValid;
    if Has(value, START_STEP) && value.fields[START_STEP].String? && value.fields[START_STEP].s !in stepNames {
      valid := false;
    }
  }

  /** Its loop over the steps, which remembers the names it has seen. */
  method ValidateSteps(steps: seq<Json>) returns (valid: bool, stepNames: set<string>)
    ensures valid <==> StepsWellFormed(steps)
    ensures stepNames == NamesIn(steps)
  {
    valid, stepNames := true, {};
    for i := 0 to |steps|
      invariant stepNames == NamesIn(steps[..i])
      invariant valid <==> StepsWellFormed(steps[..i])
    {
      OneMoreStep(steps, i);
      var step := steps[i];
      if !StepFieldsOk(step) {
        valid := false;
      }
      var name := NameOf(step);
      if name.Some? {
        if name.value in stepNames {
          valid := false;
        } else {
          stepNames := stepNames + {name.value};
        }
      }
    }
    assert steps[..|steps|] == steps;
  }

  /* ---- what is well-formed ---- */

  ghost predicate ValidNameIn(v: Json) {
    v.String? && IsValidName(v.s)
  }

  ghost predicate DurationIn(v: Json) {
    v.String? && Duration.InValidatorLanguage(v.s)
  }

  /** The int a JSON integer is taken for lies in the range. */
  ghost predicate IntFrom(v: Json, least: int) {
    v.Int? && ToInt32(v.i) >= least
  }

  ghost predicate StepWellFormed(step: Json) {
    && Has(step, NAME) && ValidNameIn(step.fields[NAME])
    && (Has(step, EXPECTED_TIME) ==> DurationIn(step.fields[EXPECTED_TIME]))
    && (Has(step, MAX_RETRIES) ==> IntFrom(step.fields[MAX_RETRIES], 0))
  }

  /** Every step well-formed, no two of the same name. */
  ghost predicate StepsWellFormed(steps: seq<Json>) {
    && (forall i :: 0 <= i < |steps| ==> StepWellFormed(steps[i]))
    && (forall i, j :: 0 <= i < j < |steps| ==> NameOf(steps[i]) != NameOf(steps[j]))
  }

  ghost predicate HeadWellFormed(value: Json) {
    && value.Object? && value.fields.Keys <= ALLOWED_FIELDS
    && Has(value, WORKFLOW_NAME) && ValidNameIn(value.fields[WORKFLOW_NAME])
    && Has(value, WORKFLOW_VERSION) && IntFrom(value.fields[WORKFLOW_VERSION], 1)
    && Has(value, EXPECTED_TIME) && DurationIn(value.fields[EXPECTED_TIME])
    && (Has(value, SINGLETON) ==> value.fields[SINGLETON].Bool?)
  }

  /** Some step of the list has the name. */
  ghost predicate Declares(steps: seq<Json>, name: Json) {
    name.String? && exists i :: 0 <= i < |steps| && NameOf(steps[i]) == Some(name.s)
  }

  /** A workflow definition in JSON: no fields but the six; a valid name, a version from 1, a duration, a
      Boolean if it says whether it is a singleton; a list of well-formed steps of different names, and a
      start step that is one of them. */
  ghost predicate WellFormed(value: Json) {
    && HeadWellFormed(value)
    && Has(value, STEPS) && value.fields[STEPS].Array? && StepsWellFormed(value.fields[STEPS].items)
    && Has(value, START_STEP) && Declares(value.fields[STEPS].items, value.fields[START_STEP])
  }

  lemma StepChecks(step: Json)
    ensures StepFieldsOk(step) <==> StepWellFormed(step)
  {
    if Has(step, EXPECTED_TIME) && step.fields[EXPECTED_TIME].String? {
      Duration.MatchersDecide(step.fields[EXPECTED_TIME].s);
    }
  }

  lemma OneMoreStep(steps: seq<Json>, i: nat)
    requires i < |steps|
    ensures steps[..i + 1] == steps[..i] + [steps[i]]
    ensures StepsWellFormed(steps[..i + 1]) <==>
              StepsWellFormed(steps[..i]) && StepFieldsOk(steps[i]) && NameOf(steps[i]).value !in NamesIn(steps[..i])
    ensures NamesIn(steps[..i + 1]) == NamesIn(steps[..i]) + if NameOf(steps[i]).Some? then {NameOf(steps[i]).value} else {}
  {
    StepChecks(steps[i]);
  }

  lemma DurationChecks(v: Json)
    ensures DurationIn(v) <==> IsNonEmptyString(v) && Duration.IsValidDuration(v.s)
  {
    if v.String? {
      Duration.MatchersDecide(v.s);
    }
  }

  lemma HeadChecks(value: Json)
    ensures TopLevelOk(value) <==> HeadWellFormed(value) && RequiredString(value, START_STEP)
  {
    if Has(value, EXPECTED_TIME) {
      DurationChecks(value.fields[EXPECTED_TIME]);
    }
  }

  lemma DeclaredNames(steps: seq<Json>, name: Json)
    ensures Declares(steps, name) <==> name.String? && name.s in NamesIn(steps)
    ensures StepsWellFormed(steps) && Declares(steps, name) ==> IsNonEmptyString(name) && steps != []
  {
    if StepsWellFormed(steps) && Declares(steps, name) {
      var i :| 0 <= i < |steps| && NameOf(steps[i]) == Some(name.s);
      assert StepWellFormed(steps[i]);
    }
  }

  lemma ChecksDecide(value: Json)
    ensures WellFormed(value) <==>
              && TopLevelOk(value)
              && STEPS in value.fields && value.fields[STEPS].Array? && value.fields[STEPS].items != []
              && StepsWellFormed(value.fields[STEPS].items)
              && value.fields[START_STEP].String? && value.fields[START_STEP].s in NamesIn(value.fields[STEPS].items)
  {
    HeadChecks(value);
    if Has(value, STEPS) && value.fields[STEPS].Array? && Has(value, START_STEP) {
      DeclaredNames(value.fields[STEPS].items, value.fields[START_STEP]);
    }
  }

  /* ---- parsing ---- */

  function ParseStep(step: Json): WorkflowStep
    requires StepFieldsOk(step)
  {
    WorkflowStep(
      step.fields[NAME].s,
      if Has(step, EXPECTED_TIME) then Some(step.fields[EXPECTED_TIME].s) else None,
      if Has(step, MAX_RETRIES) then Some(ToInt32(step.fields[MAX_RETRIES].i)) else None,
      map k | k in step.fields && k !in STEP_FIELDS :: step.fields[k])
  }

  /** The parser's loop over the fields of a step: those it has no place of its own for. */
  method AdditionalFields(step: Json) returns (additional: map<string, Json>)
    requires step.Object?
    ensures additional == map k | k in step.fields && k !in STEP_FIELDS :: step.fields[k]
  {
    additional := map[];
    var todo := step.fields.Keys;
    while todo != {}
      invariant todo <= step.fields.Keys
      invariant additional == map k | k in step.fields && k !in STEP_FIELDS && k !in todo :: step.fields[k]
    {
      var key :| key in todo;
      if key != NAME && key != EXPECTED_TIME && key != MAX_RETRIES {
        additional := additional[key := step.fields[key]];
      }
      todo := todo - {key};
    }
  }

  ghost predicate AllStepsOk(steps: seq<Json>) {
    forall i :: 0 <= i < |steps| ==> StepFieldsOk(steps[i])
  }

  ghost function ParseSteps(steps: seq<Json>): (parsed: seq<WorkflowStep>)
    requires AllStepsOk(steps)
  {
    seq(|steps|, i requires 0 <= i < |steps| => ParseStep(steps[i]))
  }

  lemma WellFormedSteps(steps: seq<Json>)
    requires StepsWellFormed(steps)
    ensures AllStepsOk(steps)
  {
    forall i | 0 <= i < |steps| ensures StepFieldsOk(steps[i]) {
      StepChecks(steps[i]);
    }
  }

  ghost function Parsed(value: Json): WorkflowDefinition
    requires WellFormed(value)
  {
    WellFormedSteps(value.fields[STEPS].items);
    WorkflowDefinition(
      value.fields[WORKFLOW_NAME].s,
      ToInt32(value.fields[WORKFLOW_VERSION].i),
      value.fields[START_STEP].s,
      value.fields[EXPECTED_TIME].s,
      Has(value, SINGLETON) && value.fields[SINGLETON].b,
      ParseSteps(value.fields[STEPS].items))
  }

  /** None when it throws, which is exactly when the JSON is not well-formed. */
  method ParseWorkflowDefinition(value: Json) returns (d: Option<WorkflowDefinition>)
    ensures d.Some? <==> WellFormed(value)
    ensures d.Some? ==> d.value == Parsed(value)
  {
    var valid := ValidateWorkflowJson(value);
    if !valid {
      return None;
    }
    WellFormedSteps(value.fields[STEPS].items);
    var steps := ParseStepList(value.fields[STEPS].items);
    return Some(WorkflowDefinition(value.fields[WORKFLOW_NAME].s, ToInt32(value.fields[WORKFLOW_VERSION].i), value.fields[START_STEP].s,
                                   value.fields[EXPECTED_TIME].s, Has(value, SINGLETON) && value.fields[SINGLETON].b, steps));
  }

  method ParseStepList(items: seq<Json>) returns (steps: seq<WorkflowStep>)
    requires AllStepsOk(items)
    ensures steps == ParseSteps(items)
  {
    steps := [];
    for i := 0 to |items|
      invariant steps == ParseSteps(items)[..i]
    {
      var item := items[i];
      var additional := AdditionalFields(item);
      var step := WorkflowStep(item.fields[NAME].s,
                               if Has(item, EXPECTED_TIME) then Some(item.fields[EXPECTED_TIME].s) else None,
                               if Has(item, MAX_RETRIES) then Some(ToInt32(item.fields[MAX_RETRIES].i)) else None,
                               additional);
      steps := steps + [step];
    }
  }

  /* ---- printing ---- */

  /** An additional field of the same name would replace one of the three. */
  function StepToJson(step: WorkflowStep): Json {
    var named := map[NAME := String(step.name)];
    var timed := if step.expectedExecutionTime.Some? then named[EXPECTED_TIME := String(step.expectedExecutionTime.value)] else named;
    var bounded := if step.maxRetries.Some? then timed[MAX_RETRIES := Int(step.maxRetries.value)] else timed;
    Object(bounded + step.additionalFields)
  }

  function StepsToJson(steps: seq<WorkflowStep>): seq<Json> {
    seq(|steps|, i requires 0 <= i < |steps| => StepToJson(steps[i]))
  }

  function DefinitionToJson(d: WorkflowDefinition): Json {
    Object(map[
      WORKFLOW_NAME := String(d.workflowName),
      WORKFLOW_VERSION := Int(d.workflowVersion),
      START_STEP := String(d.startWorkflowStepName),
      EXPECTED_TIME := String(d.expectedExecutionTime),
      SINGLETON := Bool(d.singleton),
      STEPS := Array(StepsToJson(d.steps))])
  }

  /** Printing's loop over the steps. */
  method PrintDefinition(d: WorkflowDefinition) returns (v: Json)
    ensures v == DefinitionToJson(d)
  {
    var steps: seq<Json> := [];
    for i := 0 to |d.steps|
      invariant steps == StepsToJson(d.steps)[..i]
    {
      steps := steps + [StepToJson(d.steps[i])];
    }
    assert steps == StepsToJson(d.steps);
    return Object(map[
      WORKFLOW_NAME := String(d.workflowName),
      WORKFLOW_VERSION := Int(d.workflowVersion),
      START_STEP := String(d.startWorkflowStepName),
      EXPECTED_TIME := String(d.expectedExecutionTime),
      SINGLETON := Bool(d.singleton),
      STEPS := Array(steps)]);
  }

  /* ---- parsing what was printed ---- */

  /** Printing a step whose additional fields are none of the three keeps every field apart. */
  lemma PrintedFields(p: WorkflowStep)
    requires p.additionalFields.Keys !! STEP_FIELDS
    ensures var fields := StepToJson(p).fields;
            && NAME in fields && fields[NAME] == String(p.name)
            && (EXPECTED_TIME in fields <==> p.expectedExecutionTime.Some?)
            && (p.expectedExecutionTime.Some? ==> fields[EXPECTED_TIME] == String(p.expectedExecutionTime.value))
            && (MAX_RETRIES in fields <==> p.maxRetries.Some?)
            && (p.maxRetries.Some? ==> fields[MAX_RETRIES] == Int(p.maxRetries.value))
            && (map k | k in fields && k !in STEP_FIELDS :: fields[k]) == p.additionalFields
  {
    assert NAME in STEP_FIELDS && EXPECTED_TIME in STEP_FIELDS && MAX_RETRIES in STEP_FIELDS;
  }

  lemma StepReadBack(step: Json)
    requires StepFieldsOk(step)
    ensures var printed := StepToJson(ParseStep(step));
            StepFieldsOk(printed) && ParseStep(printed) == ParseStep(step) && NameOf(printed) == NameOf(step)
  {
    PrintedFields(ParseStep(step));
  }

  lemma StepsReadBack(steps: seq<Json>)
    requires StepsWellFormed(steps) && AllStepsOk(steps)
    ensures var printed := StepsToJson(ParseSteps(steps));
            StepsWellFormed(printed) && AllStepsOk(printed) && ParseSteps(printed) == ParseSteps(steps)
            && |printed| == |steps| && forall i :: 0 <= i < |steps| ==> NameOf(printed[i]) == NameOf(steps[i])
  {
    var printed := StepsToJson(ParseSteps(steps));
    forall i | 0 <= i < |steps|
      ensures StepFieldsOk(printed[i]) && StepWellFormed(printed[i]) && ParseStep(printed[i]) == ParseStep(steps[i])
      ensures NameOf(printed[i]) == NameOf(steps[i])
    {
      StepReadBack(steps[i]);
      StepChecks(printed[i]);
    }
  }

  /** Parsing, printing and parsing again gives what parsing gave, for every JSON value that parses. */
  lemma ParsePrintParse(value: Json)
    requires WellFormed(value)
    ensures var printed := DefinitionToJson(Parsed(value));
            WellFormed(printed) && Parsed(printed) == Parsed(value)
  {
    var d := Parsed(value);
    var printed := DefinitionToJson(d);
    var items := value.fields[STEPS].items;
    WellFormedSteps(items);
    StepsReadBack(items);
    var i :| 0 <= i < |items| && NameOf(items[i]) == Some(value.fields[START_STEP].s);
    assert NameOf(StepsToJson(d.steps)[i]) == Some(d.startWorkflowStepName);
    HeadReadBack(value, d);
  }

  lemma HeadReadBack(value: Json, d: WorkflowDefinition)
    requires WellFormed(value) && d == Parsed(value)
    ensures var printed := DefinitionToJson(d);
            && HeadWellFormed(printed)
            && Has(printed, WORKFLOW_NAME) && printed.fields[WORKFLOW_NAME] == String(d.workflowName)
            && Has(printed, WORKFLOW_VERSION) && printed.fields[WORKFLOW_VERSION] == Int(d.workflowVersion)
            && Has(printed, START_STEP) && printed.fields[START_STEP] == String(d.startWorkflowStepName)
            && Has(printed, EXPECTED_TIME) && printed.fields[EXPECTED_TIME] == String(d.expectedExecutionTime)
            && Has(printed, SINGLETON) && printed.fields[SINGLETON] == Bool(d.singleton)
            && Has(printed, STEPS) && printed.fields[STEPS] == Array(StepsToJson(d.steps))
  {
    var printed := DefinitionToJson(d);
    assert printed.fields.Keys == ALLOWED_FIELDS;
  }

  /** What parses is a definition with a positive version and retries from 0 whose start step is declared. */
  lemma ParsedShape(value: Json)
    requires WellFormed(value)
    ensures var d := Parsed(value);
            && d.workflowName != "" && 1 <= d.workflowVersion <= MAX_INT32
            && (forall i :: 0 <= i < |d.steps| && d.steps[i].maxRetries.Some? ==> 0 <= d.steps[i].maxRetries.value <= MAX_INT32)
            && (forall i, j :: 0 <= i < j < |d.steps| ==> d.steps[i].name != d.steps[j].name)
            && exists i :: 0 <= i < |d.steps| && d.steps[i].name == d.startWorkflowStepName
  {
    var items := value.fields[STEPS].items;
    WellFormedSteps(items);
    forall i, j | 0 <= i < j < |items| ensures items[i].fields[NAME].s != items[j].fields[NAME].s {
      assert NameOf(items[i]) != NameOf(items[j]);
    }
    var i :| 0 <= i < |items| && NameOf(items[i]) == Some(value.fields[START_STEP].s);
    assert Parsed(value).steps[i].name == Parsed(value).startWorkflowStepName;
  }
}
