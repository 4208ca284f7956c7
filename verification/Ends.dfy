/** How executions end and how calls reply: which call ended an execution, when and as what; what callers are
    told of it; what the workflow logic is asked on the way. */
module Ends {
  import opened Prelude
  import opened JsonValue
  import opened Domain
  import opened Tables
  import opened Operations
  import opened Candidates
  import opened Invariant
  import opened Preservation
  import opened Sweeping
  import opened Runs
  import opened Inputs
  import opened Leases
  import opened Progress
  import opened Records
  import opened Origins
  import opened Admission
  import opened Verdicts
  import opened Histories

  /* ---- ends ---- */

  function EndReading(c: Call): Time {
    match c
    case CompleteCall(clock, _, _, _, _, _, _) => clock.settled
    case FailCall(clock, _, _, _, _) => clock.settled
    case CancelCall(now, _) => now
    case SweepCall(now, _, _) => now
    case _ => 0
  }

  /** The call is one that can end the execution: its cancellation, a failure or a completion that decides for
      the end, or a sweep that finds its lease run out. */
  ghost predicate CanEnd(s: Store, c: Call, id: string) {
    match c
    case CompleteCall(_, id', _, _, _, _, decision) => id' == id && decision.workflowComplete
    case FailCall(_, id', _, _, _) => id' == id
    case CancelCall(_, id') => id' == id
    case SweepCall(now, _, _) => RunOut(s, now, id)
    case _ => false
  }

  /** The execution has ended as such a call ends it: when, as what, and for what reason; its last attempt has
      ended with it. */
  ghost predicate EndedBy(c: Call, t: Store, id: string) {
    && id in t.executions
    && var e, k := t.executions[id], CurrentKey(t.executions[id]);
       && e.completedAt == Some(EndReading(c)) && k in t.steps
       && match c
          case CompleteCall(_, _, _, _, _, _, _) => e.status.Completed? && t.steps[k].status.Completed? && e.failureReason == None
          case FailCall(_, _, _, _, reason) => e.status.Failed? && t.steps[k].status.Failed? && e.failureReason == Some(reason)
          case CancelCall(_, _) => e.status.Canceled? && t.steps[k].status.Canceled? && e.failureReason == None
          case SweepCall(_, _, _) => e.status.Failed? && t.steps[k].status.Failed? && e.failureReason == Some("lease expired")
          case _ => false
  }

  lemma CompletionEnds(rule: LeaseRule, s: Store, c: Call, t: Store, id: string)
    requires Inv(s) && Next(rule, s, c, t) && Completes(rule, s, c, id) && Inv(t) && id in t.executions && !t.executions[id].status.Running?
    ensures CanEnd(s, c, id) && EndedBy(c, t, id)
  {
    var e, closed, next := CompletionPuts(s, c.clock, c.id, c.stepName, c.workerId, c.output, c.delay, c.decision, t);
    if c.decision.workflowComplete {
      EndThere(s, t, e, closed);
    }
  }

  lemma EndThere(s: Store, t: Store, e: Execution, closed: StepExecution)
    requires t == PutExecution(PutStep(s, closed), e) && CurrentKey(e) == KeyOfStep(closed) && Inv(t)
    ensures e.id in t.executions && t.executions[e.id] == e && CurrentKey(e) in t.steps && t.steps[CurrentKey(e)] == closed
    ensures !e.status.Failed? ==> e.failureReason == None
  {
    assert t.executions[e.id] == e;
    assert ExecutionOk(t, t.executions[e.id]);
  }

  lemma FailureEnds(s: Store, t: Store, id: string, reason: string, clock: Clock)
    requires Inv(s) && FailedOnce(s, t, id, reason, clock) && !t.executions[id].status.Running?
    ensures var e, k := t.executions[id], CurrentKey(t.executions[id]);
            && e.status.Failed? && e.failureReason == Some(reason) && e.completedAt == Some(clock.settled)
            && k in t.steps && t.steps[k].status.Failed?
  {
    FailureTimes(s, t, id, reason, clock);
    var r := FailureCloses(s, t, id, reason, clock, CurrentKey(s.executions[id]));
  }

  lemma FailureTimes(s: Store, t: Store, id: string, reason: string, clock: Clock)
    requires Inv(s) && FailedOnce(s, t, id, reason, clock) && !t.executions[id].status.Running?
    ensures t.executions[id].status.Failed? && t.executions[id].failureReason == Some(reason)
    ensures t.executions[id].completedAt == Some(clock.settled)
  {
  }

  lemma CancelEnds(s: Store, t: Store, id: string, now: Time)
    requires Inv(s) && CanceledBy(s, t, id, now) && Inv(t)
    ensures EndedBy(CancelCall(now, id), t, id)
  {
    OnceRow(s, t, CanceledRow(Current(s, id), now));
    assert ExecutionOk(t, t.executions[id]);
  }

  lemma ChangeEnds(rule: LeaseRule, s: Store, c: Call, t: Store, id: string)
    requires Inv(s) && Inv(t) && Next(rule, s, c, t) && Inputs.Running(s, id) && id in t.executions && !t.executions[id].status.Running?
    ensures CanEnd(s, c, id) && EndedBy(c, t, id)
  {
    CallChanges(rule, s, c, id);
    match c
    case CompleteCall(_, _, _, _, _, _, _) => CompletionEnds(rule, s, c, t, id);
    case FailCall(clock, _, _, _, reason) => FailureEnds(s, t, id, reason, clock);
    case CancelCall(now, _) => CancelEnds(s, t, id, now);
    case SweepCall(now, created, _) =>
      FailureEnds(s, t, id, LEASE_EXPIRED, SweepClock(now, created, id));
      RunOutIsDue(s, now, id);
    case _ =>
  }

  /** An execution is over after a call that is in the tables before it: it was over, or the call ends it. */
  lemma OverAfter(rule: LeaseRule, s: Store, c: Call, t: Store, id: string)
    requires Inv(s) && Next(rule, s, c, t) && id in t.executions && !t.executions[id].status.Running?
    ensures id in s.executions
    ensures s.executions[id].status.Running? ==> CanEnd(s, c, id) && EndedBy(c, t, id)
  {
    CallKeeps(rule, s, c);
    if id in s.executions && s.executions[id].status.Running? {
      ChangeEnds(rule, s, c, t, id);
    } else if id !in s.executions {
      CallAdds(rule, s, c);
    }
  }

  lemma NextOver(rule: LeaseRule, states: seq<Store>, calls: seq<Call>, i: nat, id: string)
    requires Run(rule, states, calls) && i < |calls| && IsOver(states[i + 1], id)
    ensures id in states[i].executions
    ensures states[i].executions[id].status.Running? ==> CanEnd(states[i], calls[i], id) && EndedBy(calls[i], states[i + 1], id)
  {
    RunKeeps(rule, states, calls, i);
    assert Next(rule, states[i], calls[i], states[i + 1]);
    OverAfter(rule, states[i], calls[i], states[i + 1], id);
  }

  lemma {:induction false} WhereEnded(rule: LeaseRule, states: seq<Store>, calls: seq<Call>, j: nat, id: string) returns (i: nat)
    requires Run(rule, states, calls) && states[0] == EMPTY && j <= |calls| && IsOver(states[j], id)
    ensures i < j && Inputs.Running(states[i], id) && CanEnd(states[i], calls[i], id) && EndedBy(calls[i], states[i + 1], id)
  {
    i := j - 1;
    NextOver(rule, states, calls, i, id);
    if !states[i].executions[id].status.Running? {
      i := WhereEnded(rule, states, calls, i, id);
    }
  }

  /** Every execution that is over was ended by one call of the run, at the time that call read and with the
      status and reason that belong to it: completed by a decision to end, failed by a worker's report or an
      expiry, cancelled. Its last attempt ended with it, and nothing of either has changed since. */
  lemma EndTraced(rule: LeaseRule, states: seq<Store>, calls: seq<Call>, j: nat, id: string) returns (i: nat)
    requires Run(rule, states, calls) && states[0] == EMPTY && j <= |calls| && IsOver(states[j], id)
    ensures i < j && Inputs.Running(states[i], id) && CanEnd(states[i], calls[i], id) && EndedBy(calls[i], states[i + 1], id)
    ensures Untouched(states[i + 1], states[j], id)
  {
    i := WhereEnded(rule, states, calls, j, id);
    RunFreezesFinished(rule, states, calls, i + 1, j, id);
  }

  /* ---- replies ---- */

  /** What the caller is returned is what the tables then hold: the definition, the execution, the step row it
      asked about, or, for a poll, the rows of just the steps it has been given. */
  ghost predicate ReplyHolds(rule: LeaseRule, s: Store, c: Call, t: Store)
    requires Keyed(s) && Effect(rule, s, c).Some?
  {
    match c
    case RegisterCall(d) => Lookup(t.definitions, KeyOfDefinition(d)) == Some(Register(s, d).value) && Register(s, d).value == d
    case StartCall(clock, id, name, version, input) => Lookup(t.executions, id) == Some(Start(s, clock, id, name, version, input).value)
    case PollCall(now, name, version, workerId, max) =>
      var rows := Poll(rule, s, now, name, version, workerId, max).value;
      DistinctKeys(rows) && forall p :: 0 <= p < |rows| ==> Lookup(t.steps, KeyOfStep(rows[p])) == Some(rows[p])
    case KeepAliveCall(clock, id, stepName, workerId) =>
      var r := KeepAlive(rule, s, clock, id, stepName, workerId).value;
      r.executionId == id && r.stepName == stepName && Lookup(t.steps, KeyOfStep(r)) == Some(r)
    case CompleteCall(clock, id, stepName, workerId, output, delay, decision) =>
      Lookup(t.executions, id) == Some(Complete(s, clock, id, stepName, workerId, output, delay, decision).value)
    case FailCall(clock, id, stepName, workerId, reason) => Lookup(t.executions, id) == Some(Fail(s, clock, id, stepName, workerId, reason).value)
    case CancelCall(now, id) => Lookup(t.executions, id) == Some(Cancel(s, now, id).value)
    case SweepCall(now, created, rows) =>
      Sweep(s, now, created, rows).value == SweepResult(|NowRunning(s, t, now)|, |NowFailed(s, t, now)|)
  }

  lemma PollReply(rule: LeaseRule, s: Store, now: Time, key: DefinitionKey, workerId: string, max: nat)
    requires Inv(s) && key in s.definitions && Poll(rule, s, now, key.name, key.version, workerId, max).Done?
    ensures var o := Poll(rule, s, now, key.name, key.version, workerId, max);
            DistinctKeys(o.value) && forall p :: 0 <= p < |o.value| ==> Lookup(Apply(s, o.writes).steps, KeyOfStep(o.value[p])) == Some(o.value[p])
  {
    var rows := Poll(rule, s, now, key.name, key.version, workerId, max).value;
    PollDistinct(rule, s, now, key, workerId, max);
    PollWritesApply(rule, s, now, key.name, key.version, workerId, max);
    forall p | 0 <= p < |rows| ensures Lookup(PutSteps(s, rows).steps, KeyOfStep(rows[p])) == Some(rows[p]) {
      PutThere(s, rows, p);
    }
  }

  lemma KeepAliveReply(rule: LeaseRule, s: Store, clock: Clock, id: string, stepName: string, workerId: string)
    requires Inv(s) && KeepAlive(rule, s, clock, id, stepName, workerId).Done?
    ensures var o := KeepAlive(rule, s, clock, id, stepName, workerId);
            o.value.executionId == id && o.value.stepName == stepName && Lookup(Apply(s, o.writes).steps, KeyOfStep(o.value)) == Some(o.value)
  {
    OwnedIsCurrent(s, id, stepName, workerId, clock.checked);
  }

  lemma CompleteReply(s: Store, clock: Clock, id: string, stepName: string, workerId: string, output: Json, delay: Option<Time>,
                      decision: NextStepDecision)
    requires Inv(s) && Complete(s, clock, id, stepName, workerId, output, delay, decision).Done?
    ensures var o := Complete(s, clock, id, stepName, workerId, output, delay, decision);
            Lookup(Apply(s, o.writes).executions, id) == Some(o.value)
  {
    OwnedIsCurrent(s, id, stepName, workerId, clock.checked);
  }

  lemma FailReply(s: Store, clock: Clock, id: string, stepName: string, workerId: string, reason: string)
    requires Inv(s) && Fail(s, clock, id, stepName, workerId, reason).Done?
    ensures var o := Fail(s, clock, id, stepName, workerId, reason);
            Lookup(Apply(s, o.writes).executions, id) == Some(o.value)
  {
    OwnedIsCurrent(s, id, stepName, workerId, clock.checked);
  }

  /** No call that goes through tells its caller anything but what it has made of the tables. */
  lemma RepliesHold(rule: LeaseRule, s: Store, c: Call)
    requires Inv(s) && Allowed(s, c) && Effect(rule, s, c).Some?
    ensures ReplyHolds(rule, s, c, After(rule, s, c))
  {
    match c
    case PollCall(now, name, version, workerId, max) => PollReply(rule, s, now, DefinitionKey(name, version), workerId, max);
    case KeepAliveCall(clock, id, stepName, workerId) => KeepAliveReply(rule, s, clock, id, stepName, workerId);
    case CompleteCall(clock, id, stepName, workerId, output, delay, decision) =>
      CompleteReply(s, clock, id, stepName, workerId, output, delay, decision);
    case FailCall(clock, id, stepName, workerId, reason) => FailReply(s, clock, id, stepName, workerId, reason);
    case SweepCall(now, created, rows) => SweepTally(s, After(rule, s, c), now, created, rows);
    case CancelCall(now, id) =>
    case RegisterCall(_) =>
    case StartCall(_, _, _, _, _) =>
  }

  /* ---- what the logic is asked ---- */

  /** The logic is asked about the execution as its start and its last decision have made it. */
  ghost predicate AskedOf(started: Call, state: Json, stepName: string, output: Json, context: StepCompletionContext) {
    && started.StartCall? && context.executionId == started.id
    && context.workflowName == started.name && context.workflowVersion == started.version
    && context.input == started.input && context.state == state
    && context.completedStepName == stepName && context.stepOutput == output
  }

  /** Until a first step is completed the logic is asked with an empty state. */
  lemma FirstQuestion(rule: LeaseRule, states: seq<Store>, calls: seq<Call>, i: nat, j: nat, id: string, stepName: string, output: Json)
    requires Run(rule, states, calls) && states[0] == EMPTY && i < j <= |calls| && Keyed(states[i]) && Starts(rule, states[i], calls[i], id)
    requires NoCompletion(rule, states, calls, i + 1, j, id)
    ensures id in states[j].executions
    ensures AskedOf(calls[i], EMPTY_OBJECT, stepName, output, CompletionContext(states[j].executions[id], stepName, output))
  {
    NextBegins(rule, states, calls, i, id);
    RunKeepsState(rule, states, calls, i + 1, j, id);
    var n := RunOrigin(rule, states, calls, j, id);
    assert n == i;
  }

  /** After that, with the state the last completion's decision left. */
  lemma LaterQuestion(rule: LeaseRule, states: seq<Store>, calls: seq<Call>, i: nat, j: nat, id: string, stepName: string, output: Json)
    returns (n: nat)
    requires Run(rule, states, calls) && states[0] == EMPTY && i < j <= |calls| && Keyed(states[i]) && Completes(rule, states[i], calls[i], id)
    requires NoCompletion(rule, states, calls, i + 1, j, id)
    ensures id in states[j].executions && n < j
    ensures AskedOf(calls[n], calls[i].decision.updatedState, stepName, output, CompletionContext(states[j].executions[id], stepName, output))
  {
    StateDecided(rule, states, calls, i, j, id);
    n := RunOrigin(rule, states, calls, j, id);
  }
}
