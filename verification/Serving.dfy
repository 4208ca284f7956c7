/** Which definitions keep their executions moving: the exact condition on what is registered. */
module Serving {
  import opened Prelude
  import opened JsonValue
  import opened Domain
  import opened Tables
  import opened Operations
  import opened Candidates
  import opened Invariant
  import opened Preservation
  import opened Sweeping
  import opened Runs
  import opened Singletons
  import opened Polling
  import opened Leases
  import opened Reclaim
  import opened Rows
  import opened Definitions
  import Cutting
  import Duration

  /** The start step has a lease and, if it can be completed at all, every declared step has: completeStep
      refuses an empty step name. */
  ghost predicate Fitting(rule: LeaseRule, d: WorkflowDefinition) {
    && LeaseOf(rule, d, d.startWorkflowStepName).Some?
    && (d.startWorkflowStepName != "" ==> forall i :: 0 <= i < |d.steps| ==> LeaseOf(rule, d, d.steps[i].name).Some?)
  }

  ghost predicate RegistersOnly(c: Call, key: DefinitionKey, d: WorkflowDefinition) {
    c.RegisterCall? && KeyOfDefinition(c.definition) == key ==> c.definition == d
  }

  /** A run from empty tables in which the workflow is only ever registered as `d`. */
  ghost predicate RunOf(rule: LeaseRule, d: WorkflowDefinition, states: seq<Store>, calls: seq<Call>) {
    && Run(rule, states, calls) && states[0] == EMPTY
    && forall j :: 0 <= j < |calls| ==> RegistersOnly(calls[j], KeyOfDefinition(d), d)
  }

  ghost predicate Servable(rule: LeaseRule, s: Store, key: DefinitionKey, id: string) {
    Inv(s) && RunningAt(s, key, id) && exists from :: ServedFrom(rule, s, key, id, from)
  }

  /** In every state of every such run, every running execution of the workflow is sure to be handed out. */
  ghost predicate AlwaysServed(rule: LeaseRule, d: WorkflowDefinition) {
    forall states: seq<Store>, calls: seq<Call>, id: string ::
      RunOf(rule, d, states, calls) && RunningAt(states[|calls|], KeyOfDefinition(d), id) ==>
        Servable(rule, states[|calls|], KeyOfDefinition(d), id)
  }

  /* ---- a fitting definition serves ---- */

  function NamesOf(d: WorkflowDefinition): set<string> {
    set i | 0 <= i < |d.steps| :: d.steps[i].name
  }

  lemma FittingIsUsable(rule: LeaseRule, d: WorkflowDefinition)
    requires Fitting(rule, d) && d.startWorkflowStepName != ""
    ensures Usable(rule, d, NamesOf(d))
  {
    var start := FindStep(d.steps, d.startWorkflowStepName).value;
    forall name | FindStep(d.steps, name).Some? ensures name in NamesOf(d) {
      var step := FindStep(d.steps, name).value;
      var i :| 0 <= i < |d.steps| && d.steps[i] == step;
    }
  }

  /** What is registered for the workflow is `d`, and its running executions are all at the empty step name. */
  ghost predicate AtNoName(s: Store, key: DefinitionKey, d: WorkflowDefinition) {
    && (key in s.definitions ==> s.definitions[key] == d && ValidNameAndVersion(key.name, key.version))
    && forall id :: RunningAt(s, key, id) ==> s.executions[id].currentStepName == ""
  }

  /** No completion gets an execution away from a step with no name. */
  lemma StaysAtNoName(rule: LeaseRule, s: Store, c: Call, id: string)
    requires Inv(s) && Allowed(s, c) && id in s.executions && s.executions[id].currentStepName == ""
    ensures id in After(rule, s, c).executions && After(rule, s, c).executions[id].currentStepName == ""
  {
    CallChanges(rule, s, c, id);
    NoNameChange(rule, s, c, After(rule, s, c), id);
  }

  lemma NoNameChange(rule: LeaseRule, s: Store, c: Call, t: Store, id: string)
    requires Inv(s) && Change(rule, s, c, t, id) && id in s.executions && s.executions[id].currentStepName == ""
    ensures id in t.executions && t.executions[id].currentStepName == ""
  {
  }

  lemma StartsAtStart(rule: LeaseRule, s: Store, c: Call, id: string)
    requires Inv(s) && Allowed(s, c) && id !in s.executions && id in After(rule, s, c).executions
    ensures c.StartCall? && c.id == id && DefinitionKey(c.name, c.version) in s.definitions
    ensures After(rule, s, c).executions[id].currentStepName == s.definitions[DefinitionKey(c.name, c.version)].startWorkflowStepName
    ensures WorkflowOf(After(rule, s, c).executions[id]) == DefinitionKey(c.name, c.version)
  {
    CallAdds(rule, s, c);
  }

  lemma CallStaysAtNoName(rule: LeaseRule, s: Store, c: Call, key: DefinitionKey, d: WorkflowDefinition)
    requires Inv(s) && Allowed(s, c) && AtNoName(s, key, d) && RegistersOnly(c, key, d) && d.startWorkflowStepName == ""
    ensures AtNoName(After(rule, s, c), key, d)
  {
    var t := After(rule, s, c);
    LocksAndDefinitions(rule, s, c, key);
    forall id | RunningAt(t, key, id) ensures t.executions[id].currentStepName == "" {
      if id in s.executions {
        RunningBefore(rule, s, c, key, id);
        StaysAtNoName(rule, s, c, id);
      } else {
        StartsAtStart(rule, s, c, id);
      }
    }
  }

  lemma {:induction false} RunStaysAtNoName(rule: LeaseRule, states: seq<Store>, calls: seq<Call>, d: WorkflowDefinition, i: nat)
    requires RunOf(rule, d, states, calls) && d.startWorkflowStepName == "" && i <= |calls|
    ensures AtNoName(states[i], KeyOfDefinition(d), d)
  {
    if i > 0 {
      RunStaysAtNoName(rule, states, calls, d, i - 1);
      NextStaysAtNoName(rule, states, calls, d, i - 1);
    }
  }

  lemma NextStaysAtNoName(rule: LeaseRule, states: seq<Store>, calls: seq<Call>, d: WorkflowDefinition, i: nat)
    requires RunOf(rule, d, states, calls) && d.startWorkflowStepName == "" && i < |calls| && AtNoName(states[i], KeyOfDefinition(d), d)
    ensures AtNoName(states[i + 1], KeyOfDefinition(d), d)
  {
    RunKeeps(rule, states, calls, i);
    assert Next(rule, states[i], calls[i], states[i + 1]);
    CallStaysAtNoName(rule, states[i], calls[i], KeyOfDefinition(d), d);
  }

  lemma FittingServes(rule: LeaseRule, d: WorkflowDefinition, key: DefinitionKey, states: seq<Store>, calls: seq<Call>, id: string)
    requires Fitting(rule, d) && key == KeyOfDefinition(d) && RunOf(rule, d, states, calls) && RunningAt(states[|calls|], key, id)
    ensures Servable(rule, states[|calls|], key, id)
  {
    RunKeeps(rule, states, calls, |calls|);
    if d.startWorkflowStepName != "" {
      FittingIsUsable(rule, d);
      forall j | 0 <= j < |calls| ensures RegistersUsable(rule, calls[j], key, NamesOf(d)) {
        assert RegistersOnly(calls[j], key, d);
      }
      var from := NeverStuck(rule, states, calls, key, NamesOf(d), |calls|, id);
    } else {
      RunStaysAtNoName(rule, states, calls, d, |calls|);
      NoNameServed(rule, states[|calls|], key, d, id);
    }
  }

  lemma NoNameServed(rule: LeaseRule, s: Store, key: DefinitionKey, d: WorkflowDefinition, id: string)
    requires Inv(s) && RunningAt(s, key, id) && AtNoName(s, key, d) && LeaseOf(rule, d, "").Some?
    ensures Servable(rule, s, key, id)
  {
    RunningIsDefined(s, key, id);
    ServedExactly(rule, s, key, id);
  }

  /* ---- any other does not ---- */

  lemma NotReady(rule: LeaseRule, s: Store, key: DefinitionKey, id: string)
    requires Inv(s) && RunningAt(s, key, id) && ValidNameAndVersion(key.name, key.version) && key in s.definitions
    requires LeaseOf(rule, s.definitions[key], s.executions[id].currentStepName).None?
    ensures !Servable(rule, s, key, id)
  {
    ServedExactly(rule, s, key, id);
  }

  lemma LeadsIsRunOf(rule: LeaseRule, d: WorkflowDefinition, states: seq<Store>, calls: seq<Call>)
    requires Run(rule, states, calls) && states[0] == EMPTY && calls != [] && calls[0] == RegisterCall(d)
    requires forall j :: 1 <= j < |calls| ==> !calls[j].RegisterCall?
    ensures RunOf(rule, d, states, calls)
  {
  }

  /** A start step without a lease strands the execution that starts there. */
  lemma StartStrands(rule: LeaseRule, d: WorkflowDefinition, key: DefinitionKey)
    requires key == KeyOfDefinition(d) && ValidNameAndVersion(key.name, key.version)
    requires LeaseOf(rule, d, d.startWorkflowStepName).None?
    ensures !AlwaysServed(rule, d)
  {
    var states, calls := Begun(rule, d, key);
    LeadsIsRunOf(rule, d, states, calls);
    assert Waiting(states[2], d, key, 0);
    NotReady(rule, states[2], key, "a");
  }

  /** A declared step without a lease strands an execution routed to it. */
  lemma StepStrands(rule: LeaseRule, d: WorkflowDefinition, key: DefinitionKey, lease: Time, name: string)
    requires key == KeyOfDefinition(d) && ValidNameAndVersion(key.name, key.version) && d.startWorkflowStepName != ""
    requires LeaseOf(rule, d, d.startWorkflowStepName) == Some(lease)
    requires FindStep(d.steps, name).Some? && LeaseOf(rule, d, name).None?
    ensures !AlwaysServed(rule, d)
  {
    var states, calls, s := RoutedTo(rule, d, key, lease, name);
    LeadsIsRunOf(rule, d, states, calls);
    StrandedAt(rule, states, calls, s, d, key, name);
  }

  lemma StrandedAt(rule: LeaseRule, states: seq<Store>, calls: seq<Call>, s: Store, d: WorkflowDefinition, key: DefinitionKey, name: string)
    requires RunOf(rule, d, states, calls) && states[|calls|] == s && key == KeyOfDefinition(d)
    requires RunningAt(s, key, "a") && s.executions["a"].currentStepName == name
    requires ValidNameAndVersion(key.name, key.version) && key in s.definitions && s.definitions[key] == d && LeaseOf(rule, d, name).None?
    ensures !AlwaysServed(rule, d)
  {
    RunKeeps(rule, states, calls, |calls|);
    NotReady(rule, s, key, "a");
  }

  /** A run that takes "a" from its first step to the given one. */
  lemma RoutedTo(rule: LeaseRule, d: WorkflowDefinition, key: DefinitionKey, lease: Time, name: string)
    returns (states: seq<Store>, calls: seq<Call>, s: Store)
    requires key == KeyOfDefinition(d) && ValidNameAndVersion(key.name, key.version) && d.startWorkflowStepName != ""
    requires LeaseOf(rule, d, d.startWorkflowStepName) == Some(lease) && FindStep(d.steps, name).Some?
    ensures Leads(rule, states, calls, s) && |calls| == 4
    ensures calls[0] == RegisterCall(d) && forall j :: 1 <= j < |calls| ==> !calls[j].RegisterCall?
    ensures RunningAt(s, key, "a") && s.executions["a"].currentStepName == name && s.definitions == map[key := d]
  {
    var held := Lease("worker", lease);
    states, calls := Begun(rule, d, key);
    assert Waiting(states[2], d, key, 0);
    var c, t := ClaimFirst(rule, states, calls, states[2], d, key, 0, lease, held);
    var c';
    c', s := CompleteFirst(rule, states + [t], calls + [c], t, d, key, held, NextStepDecision(false, Some(name), EMPTY_OBJECT, EMPTY_OBJECT));
    OnceRegistered(calls, c, c', d);
    states, calls := states + [t] + [s], calls + [c] + [c'];
  }

  lemma OnceRegistered(calls: seq<Call>, c: Call, c': Call, d: WorkflowDefinition)
    requires |calls| == 2 && calls[0] == RegisterCall(d) && calls[1].StartCall? && c.PollCall? && c'.CompleteCall?
    ensures var all := calls + [c] + [c'];
            |all| == 4 && all[0] == RegisterCall(d) && forall j :: 1 <= j < |all| ==> !all[j].RegisterCall?
  {
  }

  /** A definition keeps every execution of its workflow moving, in every run from empty tables in which it is
      the one registered, exactly when it is fitting. */
  lemma ServedByDefinition(rule: LeaseRule, d: WorkflowDefinition)
    requires ValidNameAndVersion(d.workflowName, d.workflowVersion)
    ensures AlwaysServed(rule, d) <==> Fitting(rule, d)
  {
    var key := KeyOfDefinition(d);
    if Fitting(rule, d) {
      forall states: seq<Store>, calls: seq<Call>, id: string | RunOf(rule, d, states, calls) && RunningAt(states[|calls|], key, id)
        ensures Servable(rule, states[|calls|], key, id)
      {
        FittingServes(rule, d, key, states, calls, id);
      }
    } else if LeaseOf(rule, d, d.startWorkflowStepName).None? {
      StartStrands(rule, d, key);
    } else {
      var i :| 0 <= i < |d.steps| && LeaseOf(rule, d, d.steps[i].name).None?;
      StepStrands(rule, d, key, LeaseOf(rule, d, d.startWorkflowStepName).value, d.steps[i].name);
    }
  }

  /* ---- the same of a definition in JSON ---- */

  /** The step has an expected time, without years, months or weeks, whose total is positive and fits 63 bits. */
  ghost predicate Timed(step: Json) {
    && Has(step, EXPECTED_TIME) && step.fields[EXPECTED_TIME].String?
    && Duration.MatchValidator(step.fields[EXPECTED_TIME].s).Some?
    && var p := Duration.MatchValidator(step.fields[EXPECTED_TIME].s).value;
       p.date == Duration.NO_DATE && 0 < Duration.Total(p) <= Duration.MAX_INT64
  }

  lemma {:induction false} FindsDeclared(steps: seq<WorkflowStep>, i: nat)
    requires i < |steps| && forall j, k :: 0 <= j < k < |steps| ==> steps[j].name != steps[k].name
    ensures FindStep(steps, steps[i].name) == Some(steps[i])
  {
    if i > 0 {
      assert steps[0].name != steps[i].name;
      FindsDeclared(steps[1..], i - 1);
    }
  }

  lemma TimedHasLease(step: Json)
    requires StepFieldsOk(step)
    ensures Timed(step) <==>
              ParseStep(step).expectedExecutionTime.Some? && Duration.LeaseSeconds(ParseStep(step).expectedExecutionTime.value).Some?
  {
    if Has(step, EXPECTED_TIME) {
      Duration.ValidatorAgainstCalculator(step.fields[EXPECTED_TIME].s);
    }
  }

  lemma StepLease(value: Json, i: nat)
    requires WellFormed(value) && i < |value.fields[STEPS].items|
    ensures i < |Parsed(value).steps|
    ensures LeaseOf(Duration.LeaseSeconds, Parsed(value), Parsed(value).steps[i].name).Some? <==> Timed(value.fields[STEPS].items[i])
  {
    var items := value.fields[STEPS].items;
    WellFormedSteps(items);
    ParsedShape(value);
    FindsDeclared(Parsed(value).steps, i);
    TimedHasLease(items[i]);
  }

  lemma ParsedFits(value: Json)
    requires WellFormed(value)
    ensures Fitting(Duration.LeaseSeconds, Parsed(value))
       <==> forall i :: 0 <= i < |value.fields[STEPS].items| ==> Timed(value.fields[STEPS].items[i])
  {
    var d, items := Parsed(value), value.fields[STEPS].items;
    StartIsNamed(value);
    assert |d.steps| == |items| by { WellFormedSteps(items); }
    forall i | 0 <= i < |items| ensures LeaseOf(Duration.LeaseSeconds, d, d.steps[i].name).Some? <==> Timed(items[i]) {
      StepLease(value, i);
    }
  }

  lemma StartIsNamed(value: Json)
    requires WellFormed(value)
    ensures Parsed(value).startWorkflowStepName != ""
    ensures exists i :: 0 <= i < |Parsed(value).steps| && Parsed(value).steps[i].name == Parsed(value).startWorkflowStepName
  {
    DeclaredNames(value.fields[STEPS].items, value.fields[START_STEP]);
    ParsedShape(value);
  }

  /** A definition the validator accepts keeps every execution of its workflow moving exactly when each of its
      steps has a time the lease calculator accepts as well. */
  lemma ServedByJson(value: Json)
    requires WellFormed(value)
    ensures AlwaysServed(Duration.LeaseSeconds, Parsed(value))
       <==> forall i :: 0 <= i < |value.fields[STEPS].items| ==> Timed(value.fields[STEPS].items[i])
  {
    ParsedShape(value);
    ServedByDefinition(Duration.LeaseSeconds, Parsed(value));
    ParsedFits(value);
  }

  /* ---- definitions no poll gets past ---- */

  lemma NoPollPasses(rule: LeaseRule, s: Store, d: WorkflowDefinition, key: DefinitionKey, now: Time, workerId: string, max: nat)
    requires Fresh(s, d, key) && LeaseOf(rule, d, d.startWorkflowStepName).None? && Inv(s)
    ensures Poll(rule, s, now, key.name, key.version, workerId, max).Thrown?
  {
    assert Waiting(s, d, key, now);
    RunningIsDefined(s, key, "a");
    assert Current(s, "a") in Claimable(s, key, now);
    NoLeaseNoPoll(rule, s, now, key, workerId, max);
  }

  /** Once an execution has been started whose start step has no usable lease, every poll of its workflow throws,
      at any time. */
  lemma StuckFromStart(rule: LeaseRule, d: WorkflowDefinition, key: DefinitionKey) returns (states: seq<Store>, calls: seq<Call>)
    requires key == KeyOfDefinition(d) && ValidNameAndVersion(key.name, key.version)
    requires LeaseOf(rule, d, d.startWorkflowStepName).None?
    ensures |calls| == 2 && |states| == 3 && Leads(rule, states, calls, states[2])
    ensures calls[0] == RegisterCall(d) && RunningAt(states[2], key, "a") && Inv(states[2])
    ensures forall now: Time, workerId: string, max: nat :: Poll(rule, states[2], now, key.name, key.version, workerId, max).Thrown?
  {
    states, calls := Begun(rule, d, key);
    assert Waiting(states[2], d, key, 0);
    forall now: Time, workerId: string, max: nat ensures Poll(rule, states[2], now, key.name, key.version, workerId, max).Thrown? {
      NoPollPasses(rule, states[2], d, key, now, workerId, max);
    }
  }

  /** The validator lets a step through that has no expected time at all, and nothing can poll such a workflow. */
  lemma UntimedYetStuck() returns (states: seq<Store>, calls: seq<Call>)
    ensures WellFormed(Cutting.Sample(1, 0)) && |calls| == 2 && |states| == 3 && Leads(Duration.LeaseSeconds, states, calls, states[2])
    ensures calls[0] == RegisterCall(Parsed(Cutting.Sample(1, 0))) && Inv(states[2])
    ensures var key := KeyOfDefinition(Parsed(Cutting.Sample(1, 0)));
            forall now: Time, workerId: string, max: nat ::
              Poll(Duration.LeaseSeconds, states[2], now, key.name, key.version, workerId, max).Thrown?
  {
    var value := Cutting.Sample(1, 0);
    Cutting.SampleDecided(1, 0);
    Cutting.SampleSteps(1, 0);
    ParsedShape(value);
    StepLease(value, 0);
    StartIsNamed(value);
    states, calls := StuckFromStart(Duration.LeaseSeconds, Parsed(value), KeyOfDefinition(Parsed(value)));
  }

  const YEARLY := WorkflowDefinition("w", 1, "step", "P1Y", false, [WorkflowStep("step", Some("P1Y"), None, map[])])

  /** Nor a workflow whose step takes years, which the validator lets through as well. */
  lemma ValidatedYetStuck() returns (states: seq<Store>, calls: seq<Call>)
    ensures Duration.IsValidDuration(YEARLY.expectedExecutionTime) && Duration.IsValidDuration(YEARLY.steps[0].expectedExecutionTime.value)
    ensures |calls| == 2 && |states| == 3 && Leads(Duration.LeaseSeconds, states, calls, states[2]) && calls[0] == RegisterCall(YEARLY)
    ensures Inv(states[2])
    ensures forall now: Time, workerId: string, max: nat :: Poll(Duration.LeaseSeconds, states[2], now, "w", 1, workerId, max).Thrown?
  {
    Duration.YearsGap();
    states, calls := StuckFromStart(Duration.LeaseSeconds, YEARLY, DefinitionKey("w", 1));
  }
}
