/** What input a step gets: carried through a visit's attempts, and from one step's output to the next. */
module Inputs {
  import opened Prelude
  import opened JsonValue
  import opened Domain
  import opened Tables
  import opened Operations
  import opened Candidates
  import opened Invariant
  import opened Preservation
  import opened Sweeping
  import opened Runs
  import opened Singletons
  import opened Routing

  /** The input of the step a running execution is at. */
  ghost function CurrentInput(s: Store, id: string): Json
    requires Inv(s) && id in s.executions && s.executions[id].status.Running?
  {
    Current(s, id).input
  }

  ghost predicate Running(s: Store, id: string) {
    id in s.executions && s.executions[id].status.Running?
  }

  /** A completion of one of the execution's steps that goes through. */
  ghost predicate Completes(rule: LeaseRule, s: Store, c: Call, id: string)
    requires Keyed(s)
  {
    c.CompleteCall? && c.id == id && Effect(rule, s, c).Some?
  }

  lemma InputFromRows(s: Store, t: Store, id: string, r: StepExecution)
    requires Inv(s) && Inv(t) && Running(s, id) && Running(t, id) && SameRows(PutStep(s, r), t, id)
    requires KeyOfStep(r) == CurrentKey(t.executions[id])
    ensures CurrentInput(t, id) == r.input
  {
    assert Lookup(PutStep(s, r).steps, KeyOfStep(r)) == Lookup(t.steps, KeyOfStep(r));
  }

  lemma WorkedInput(s: Store, t: Store, id: string, r: StepExecution)
    requires Inv(s) && Inv(t) && Worked(s, t, id, r) && r.input == Current(s, id).input
    ensures CurrentInput(t, id) == CurrentInput(s, id)
  {
    InputFromRows(s, t, id, r);
  }

  lemma UntouchedInput(s: Store, t: Store, id: string)
    requires Inv(s) && Inv(t) && Untouched(s, t, id) && Running(s, id)
    ensures CurrentInput(t, id) == CurrentInput(s, id)
  {
    var k := CurrentKey(s.executions[id]);
    assert Lookup(s.steps, k) == Lookup(t.steps, k);
  }

  lemma ClaimedInput(rule: LeaseRule, s: Store, t: Store, id: string, now: Time, key: DefinitionKey, workerId: string)
    requires Inv(s) && Inv(t) && ClaimedBy(rule, s, t, id, now, key, workerId)
    ensures CurrentInput(t, id) == CurrentInput(s, id)
  {
    var r := Current(s, id);
    WorkedInput(s, t, id, ClaimedRow(r, workerId, now, LeaseOf(rule, s.definitions[key], r.stepName).value));
  }

  lemma RenewedInput(rule: LeaseRule, s: Store, t: Store, id: string, clock: Clock, stepName: string, workerId: string)
    requires Inv(s) && Inv(t) && RenewedBy(rule, s, t, id, clock, stepName, workerId)
    ensures CurrentInput(t, id) == CurrentInput(s, id)
  {
    var r, until := RenewedRowOf(rule, s, t, id, clock, stepName, workerId);
    WorkedInput(s, t, id, r);
  }

  lemma FailedInput(s: Store, t: Store, id: string, reason: string, clock: Clock)
    requires Inv(s) && Inv(t) && FailedOnce(s, t, id, reason, clock) && Running(t, id)
    ensures CurrentInput(t, id) == CurrentInput(s, id)
  {
    FailedOnceShape(s, t, id, reason, clock, FailedRow(Current(s, id), reason, clock.stored));
  }

  /** Nothing but a completion changes the input of the step an execution is at. */
  lemma CallKeepsInput(rule: LeaseRule, s: Store, c: Call, id: string)
    requires Inv(s) && Allowed(s, c) && Running(s, id) && !Completes(rule, s, c, id)
    ensures var t := After(rule, s, c);
            Inv(t) && id in t.executions && (Running(t, id) ==> CurrentInput(t, id) == CurrentInput(s, id))
  {
    var t := After(rule, s, c);
    CallKeeps(rule, s, c);
    CallChanges(rule, s, c, id);
    if Untouched(s, t, id) {
      UntouchedInput(s, t, id);
    } else if Running(t, id) {
      match c
      case PollCall(now, name, version, workerId, _) => ClaimedInput(rule, s, t, id, now, DefinitionKey(name, version), workerId);
      case KeepAliveCall(clock, _, stepName, workerId) => RenewedInput(rule, s, t, id, clock, stepName, workerId);
      case FailCall(clock, _, _, _, reason) => FailedInput(s, t, id, reason, clock);
      case SweepCall(now, created, _) => FailedInput(s, t, id, LEASE_EXPIRED, SweepClock(now, created, id));
      case _ =>
    }
  }

  /** No completion of the execution's steps goes through between two points of a run. */
  ghost predicate NoCompletion(rule: LeaseRule, states: seq<Store>, calls: seq<Call>, i: nat, j: nat, id: string)
    requires Run(rule, states, calls) && i <= j <= |calls|
  {
    forall n :: i <= n < j ==> Next(rule, states[n], calls[n], states[n + 1]) && !Completes(rule, states[n], calls[n], id)
  }

  /** As long as none of its steps is completed, an execution works on one input: through claims, reclaims,
      failures, expiries and all the attempts they lead to. */
  lemma {:induction false} VisitKeepsInput(rule: LeaseRule, states: seq<Store>, calls: seq<Call>, i: nat, j: nat, id: string)
    requires Run(rule, states, calls) && i <= j <= |calls| && NoCompletion(rule, states, calls, i, j, id)
    requires Running(states[i], id) && Running(states[j], id)
    ensures Inv(states[i]) && Inv(states[j]) && CurrentInput(states[j], id) == CurrentInput(states[i], id)
    decreases j - i
  {
    RunKeeps(rule, states, calls, i);
    if i < j {
      assert Next(rule, states[i], calls[i], states[i + 1]) && !Completes(rule, states[i], calls[i], id);
      CallKeepsInput(rule, states[i], calls[i], id);
      StillRunning(rule, states, calls, i + 1, j, id);
      VisitKeepsInput(rule, states, calls, i + 1, j, id);
    }
  }

  /** An execution running later in a run has been running all along. */
  lemma {:induction false} StillRunning(rule: LeaseRule, states: seq<Store>, calls: seq<Call>, i: nat, j: nat, id: string)
    requires Run(rule, states, calls) && i <= j <= |calls| && id in states[i].executions && Running(states[j], id)
    ensures Running(states[i], id)
    decreases j - i
  {
    if i < j {
      RunKeeps(rule, states, calls, i);
      assert Next(rule, states[i], calls[i], states[i + 1]);
      CallKeepsWorkflow(rule, states[i], calls[i], id);
      StillRunning(rule, states, calls, i + 1, j, id);
    }
  }

  /** The call that starts an execution. */
  ghost predicate Starts(rule: LeaseRule, s: Store, c: Call, id: string)
    requires Keyed(s)
  {
    c.StartCall? && c.id == id && Effect(rule, s, c).Some?
  }

  lemma StartedInput(rule: LeaseRule, s: Store, c: Call, id: string)
    requires Inv(s) && Allowed(s, c) && Starts(rule, s, c, id)
    ensures var t := After(rule, s, c);
            Inv(t) && Running(t, id) && t.executions[id].input == c.input && CurrentInput(t, id) == c.input
  {
    CallKeeps(rule, s, c);
  }

  /** The first step works on the workflow's input until it is completed. */
  lemma FirstStepInput(rule: LeaseRule, states: seq<Store>, calls: seq<Call>, i: nat, j: nat, id: string)
    requires Run(rule, states, calls) && i < j <= |calls| && NoCompletion(rule, states, calls, i + 1, j, id)
    requires Next(rule, states[i], calls[i], states[i + 1]) && Starts(rule, states[i], calls[i], id) && Running(states[j], id)
    ensures Inv(states[j]) && CurrentInput(states[j], id) == calls[i].input
  {
    RunKeeps(rule, states, calls, i);
    StartedInput(rule, states[i], calls[i], id);
    VisitKeepsInput(rule, states, calls, i + 1, j, id);
  }

  /* ---- under the stock logic ---- */

  /** A completion decided by the stock logic goes on to the step the output names, on the output without its
      routing field and with an empty state, when it names one, and finishes the execution otherwise. */
  lemma RoutedCompletion(s: Store, clock: Clock, id: string, stepName: string, workerId: string, output: Json, delay: Option<Time>, e: Execution)
    requires Inv(s) && id in s.executions && e == s.executions[id]
    requires Complete(s, clock, id, stepName, workerId, output, delay, DecideNextStep(CompletionContext(e, stepName, output))).Done?
    ensures RoutedTo(Apply(s, Complete(s, clock, id, stepName, workerId, output, delay,
                                       DecideNextStep(CompletionContext(e, stepName, output))).writes), id, output)
  {
    var context := CompletionContext(e, stepName, output);
    CompletionGoes(s, clock, id, stepName, workerId, output, delay, DecideNextStep(context));
    GoesWhereRouted(Apply(s, Complete(s, clock, id, stepName, workerId, output, delay, DecideNextStep(context)).writes), id, context);
  }

  lemma GoesWhereRouted(t: Store, id: string, context: StepCompletionContext)
    requires GoesOn(t, id, DecideNextStep(context))
    ensures RoutedTo(t, id, context.stepOutput)
  {
    Routes(context);
  }

  /** What an execution looks like after a routed completion. */
  ghost predicate RoutedTo(t: Store, id: string, output: Json) {
    && id in t.executions
    && var e := t.executions[id];
       && e.state == EMPTY_OBJECT
       && if NamesStep(output) then
            && e.status.Running? && e.currentStepName == output.fields[NEXT_STEP].s && e.currentStepAttempt == 0
            && CurrentKey(e) in t.steps && OutputWithoutRoute(t.steps[CurrentKey(e)].input, output)
          else e.status.Completed?
  }

  lemma CompletionGoes(s: Store, clock: Clock, id: string, stepName: string, workerId: string, output: Json,
                       delay: Option<Time>, decision: NextStepDecision)
    requires Inv(s) && Complete(s, clock, id, stepName, workerId, output, delay, decision).Done?
    ensures GoesOn(Apply(s, Complete(s, clock, id, stepName, workerId, output, delay, decision).writes), id, decision)
  {
    var t := Apply(s, Complete(s, clock, id, stepName, workerId, output, delay, decision).writes);
    var e, closed, next := CompletionPuts(s, clock, id, stepName, workerId, output, delay, decision, t);
  }

  /** The execution has done what the decision says. */
  ghost predicate GoesOn(t: Store, id: string, decision: NextStepDecision) {
    && id in t.executions
    && var e := t.executions[id];
       && e.state == decision.updatedState
       && if decision.workflowComplete then e.status.Completed?
          else
            && e.status.Running? && e.currentStepAttempt == 0 && decision.nextStepName == Some(e.currentStepName)
            && CurrentKey(e) in t.steps && t.steps[CurrentKey(e)].input == decision.nextStepInput
  }
}
