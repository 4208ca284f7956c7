/** What the tables record of a step's end, and for how long, over whole runs: delays, outputs and reasons. */
module Records {
  import opened Prelude
  import opened JsonValue
  import opened Domain
  import opened Tables
  import opened Operations
  import opened Candidates
  import opened Invariant
  import opened Preservation
  import opened Sweeping
  import opened Runs
  import opened Inputs
  import opened Leases
  import opened Progress

  /* ---- delays ---- */

  /** A running execution waits at the pending row `r`. */
  ghost predicate WaitsOn(s: Store, r: StepExecution) {
    && Inv(s) && Inputs.Running(s, r.executionId) && CurrentKey(s.executions[r.executionId]) == KeyOfStep(r)
    && KeyOfStep(r) in s.steps && s.steps[KeyOfStep(r)] == r && r.status.Pending?
  }

  lemma UntouchedWaits(s: Store, t: Store, r: StepExecution)
    requires WaitsOn(s, r) && Inv(t) && Untouched(s, t, r.executionId)
    ensures WaitsOn(t, r)
  {
    assert Lookup(s.steps, KeyOfStep(r)) == Lookup(t.steps, KeyOfStep(r));
  }

  /** A claim leaves the step in its worker's hands. */
  lemma ClaimHolds(rule: LeaseRule, s: Store, t: Store, k: StepKey, now: Time, key: DefinitionKey, workerId: string)
    requires Inv(s) && RunningOn(s, k) && ClaimedBy(rule, s, t, k.executionId, now, key, workerId)
    ensures IsClaimable(Current(s, k.executionId), now) && HeldBy(t, k, workerId)
  {
    var r := Current(s, k.executionId);
    WorkedLease(s, t, k, ClaimedRow(r, workerId, now, LeaseOf(rule, s.definitions[key], r.stepName).value));
  }

  /** A waiting execution waits on, until it is over or a poll claims the row. */
  lemma WaitsOrClaimed(rule: LeaseRule, s: Store, c: Call, r: StepExecution)
    requires WaitsOn(s, r) && Allowed(s, c)
    ensures var t, id := After(rule, s, c), r.executionId;
            || WaitsOn(t, r)
            || (id in t.executions && !t.executions[id].status.Running?)
            || (c.PollCall? && IsClaimable(r, c.now) && HeldBy(t, KeyOfStep(r), c.workerId))
  {
    var t, id := After(rule, s, c), r.executionId;
    CallKeeps(rule, s, c);
    CallChanges(rule, s, c, id);
    if c.PollCall? && ClaimedBy(rule, s, t, id, c.now, DefinitionKey(c.name, c.version), c.workerId) {
      ClaimHolds(rule, s, t, KeyOfStep(r), c.now, DefinitionKey(c.name, c.version), c.workerId);
    } else {
      PendingStays(rule, s, c, t, id);
      if Untouched(s, t, id) {
        UntouchedWaits(s, t, r);
      }
    }
  }

  lemma WaitingHasNoLease(s: Store, r: StepExecution)
    requires WaitsOn(s, r)
    ensures LeaseAt(s, KeyOfStep(r)).None?
  {
  }

  /** Where a row waited on is first claimed. */
  lemma {:induction false} FirstClaim(rule: LeaseRule, states: seq<Store>, calls: seq<Call>, i: nat, j: nat, r: StepExecution) returns (n: nat)
    requires Run(rule, states, calls) && i <= j <= |calls|
    requires WaitsOn(states[i], r) && LeaseAt(states[j], KeyOfStep(r)).Some?
    ensures i <= n < j && WaitsOn(states[n], r) && calls[n].PollCall? && IsClaimable(r, calls[n].now)
    ensures HeldBy(states[n + 1], KeyOfStep(r), calls[n].workerId)
    decreases j - i
  {
    WaitingHasNoLease(states[i], r);
    var on := NextWait(rule, states, calls, i, j, r);
    if on {
      n := FirstClaim(rule, states, calls, i + 1, j, r);
    } else {
      n := i;
    }
  }

  lemma NextWait(rule: LeaseRule, states: seq<Store>, calls: seq<Call>, i: nat, j: nat, r: StepExecution) returns (on: bool)
    requires Run(rule, states, calls) && i < j <= |calls|
    requires WaitsOn(states[i], r) && LeaseAt(states[j], KeyOfStep(r)).Some?
    ensures if on then WaitsOn(states[i + 1], r) else calls[i].PollCall? && IsClaimable(r, calls[i].now) && HeldBy(states[i + 1], KeyOfStep(r), calls[i].workerId)
  {
    assert Next(rule, states[i], calls[i], states[i + 1]);
    WaitsOrClaimed(rule, states[i], calls[i], r);
    on := WaitsOn(states[i + 1], r);
    if !on && IsOver(states[i + 1], r.executionId) {
      RunKeeps(rule, states, calls, j);
      LeaseIsCurrent(states[j], KeyOfStep(r));
      StillRunning(rule, states, calls, i + 1, j, r.executionId);
    }
  }

  predicate IsOver(s: Store, id: string) {
    id in s.executions && !s.executions[id].status.Running?
  }

  lemma MovedWaits(s: Store, e: Execution, closed: StepExecution, r: StepExecution, t: Store)
    requires t == PutStep(PutExecution(PutStep(s, closed), e), r) && Inv(t)
    requires e.status.Running? && KeyOfStep(r) == CurrentKey(e) && r.status.Pending?
    ensures WaitsOn(t, r) && t.executions[e.id] == e
  {
  }

  /** Where a completion with a delay leaves an execution that goes on. */
  lemma CompletionWaits(rule: LeaseRule, s: Store, c: Call, t: Store, k: StepKey) returns (r: StepExecution)
    requires Inv(s) && Next(rule, s, c, t) && Completes(rule, s, c, k.executionId) && RunningOn(t, k)
    ensures WaitsOn(t, r) && KeyOfStep(r) == k
    ensures r.scheduledAt == DelayEnd(c.clock, c.delay) && r.input == c.decision.nextStepInput && r.output == EMPTY_OBJECT
  {
    NextInv(rule, s, c, t);
    CompletionAfter(rule, s, c, t);
    r := GoesToWait(s, c.clock, c.id, c.stepName, c.workerId, c.output, c.delay, c.decision, t, k);
  }

  lemma NextInv(rule: LeaseRule, s: Store, c: Call, t: Store)
    requires Inv(s) && Next(rule, s, c, t)
    ensures Inv(t)
  {
    CallKeeps(rule, s, c);
  }

  lemma CompletionAfter(rule: LeaseRule, s: Store, c: Call, t: Store)
    requires Keyed(s) && Next(rule, s, c, t) && c.CompleteCall? && Effect(rule, s, c).Some?
    ensures Complete(s, c.clock, c.id, c.stepName, c.workerId, c.output, c.delay, c.decision).Done?
    ensures t == Apply(s, Complete(s, c.clock, c.id, c.stepName, c.workerId, c.output, c.delay, c.decision).writes)
  {
  }

  lemma GoesToWait(s: Store, clock: Clock, id: string, stepName: string, workerId: string, output: Json,
                   delay: Option<Time>, decision: NextStepDecision, t: Store, k: StepKey)
    returns (r: StepExecution)
    requires Inv(s) && Complete(s, clock, id, stepName, workerId, output, delay, decision).Done?
    requires t == Apply(s, Complete(s, clock, id, stepName, workerId, output, delay, decision).writes) && Inv(t)
    requires RunningOn(t, k) && k.executionId == id
    ensures WaitsOn(t, r) && KeyOfStep(r) == k
    ensures r.scheduledAt == DelayEnd(clock, delay) && r.input == decision.nextStepInput && r.output == EMPTY_OBJECT
  {
    var e, closed;
    e, closed, r := CompletionPuts(s, clock, id, stepName, workerId, output, delay, decision, t);
    if !decision.workflowComplete {
      MovedWaits(s, e, closed, r, t);
    }
  }

  /** The step an execution goes on to when its current one is completed with a delay cannot be had before the
      delay is over: it waits in a row scheduled for then, and when it is found under a lease, the poll that took
      that row out of waiting came at or after that time. */
  lemma DelayHonoured(rule: LeaseRule, states: seq<Store>, calls: seq<Call>, i: nat, j: nat, k: StepKey) returns (n: nat, r: StepExecution)
    requires Run(rule, states, calls) && i < j <= |calls|
    requires Keyed(states[i]) && Completes(rule, states[i], calls[i], k.executionId)
    requires calls[i].delay.Some? && RunningOn(states[i + 1], k) && LeaseAt(states[j], k).Some?
    ensures KeyOfStep(r) == k && r.scheduledAt == DelayEnd(calls[i].clock, calls[i].delay) && WaitsOn(states[i + 1], r)
    ensures i < n < j && WaitsOn(states[n], r) && calls[n].PollCall? && HeldBy(states[n + 1], k, calls[n].workerId)
    ensures DelayEnd(calls[i].clock, calls[i].delay).value <= calls[n].now
  {
    r := RunWaits(rule, states, calls, i, k);
    n := FirstClaim(rule, states, calls, i + 1, j, r);
  }

  lemma RunWaits(rule: LeaseRule, states: seq<Store>, calls: seq<Call>, i: nat, k: StepKey) returns (r: StepExecution)
    requires Run(rule, states, calls) && i < |calls|
    requires Keyed(states[i]) && Completes(rule, states[i], calls[i], k.executionId)
    requires RunningOn(states[i + 1], k)
    ensures WaitsOn(states[i + 1], r) && KeyOfStep(r) == k
    ensures r.scheduledAt == DelayEnd(calls[i].clock, calls[i].delay)
  {
    RunKeeps(rule, states, calls, i);
    assert Next(rule, states[i], calls[i], states[i + 1]);
    r := CompletionWaits(rule, states[i], calls[i], states[i + 1], k);
  }

  /* ---- closed rows ---- */

  ghost predicate ClosedAs(s: Store, k: StepKey, r: StepExecution) {
    k in s.steps && s.steps[k] == r && !r.Open()
  }

  lemma ShapeKeepsClosed(s: Store, t: Store, k: StepKey, closed: StepExecution, r: StepExecution)
    requires Inv(s) && ClosedAs(s, k, closed) && k.executionId in s.executions && Shapes(s, t, k.executionId, r)
    requires !RunningOn(t, k)
    ensures ClosedAs(t, k, closed)
  {
    var id := k.executionId;
    assert ExecutionOk(s, s.executions[id]);
    if Untouched(s, t, id) {
      assert Lookup(s.steps, k) == Lookup(t.steps, k);
    } else if SameRows(PutStep(s, r), t, id) {
      assert Lookup(PutStep(s, r).steps, k) == Lookup(t.steps, k);
    } else {
      var next := t.steps[CurrentKey(t.executions[id])];
      assert Lookup(PutStep(PutStep(s, r), next).steps, k) == Lookup(t.steps, k);
    }
  }

  /** A call leaves a closed row alone unless it takes its execution to the row's key. */
  lemma CallKeepsClosed(rule: LeaseRule, s: Store, c: Call, k: StepKey, closed: StepExecution)
    requires Inv(s) && Allowed(s, c) && ClosedAs(s, k, closed) && !RunningOn(After(rule, s, c), k)
    ensures ClosedAs(After(rule, s, c), k, closed)
  {
    assert StepOk(s, closed);
    CallChanges(rule, s, c, k.executionId);
    var r := ChangeShapes(rule, s, c, After(rule, s, c), k.executionId);
    ShapeKeepsClosed(s, After(rule, s, c), k, closed, r);
  }

  /** The execution is not at the key in any state from `i` to `j`. */
  ghost predicate NotAt(states: seq<Store>, i: nat, j: nat, k: StepKey)
    requires j < |states|
  {
    forall n :: i <= n <= j ==> !RunningOn(states[n], k)
  }

  /** A closed row stays as it is, under every call there is, until its execution comes back to its key. */
  lemma {:induction false} ClosedRowKept(rule: LeaseRule, states: seq<Store>, calls: seq<Call>, i: nat, j: nat, k: StepKey, closed: StepExecution)
    requires Run(rule, states, calls) && i <= j <= |calls| && ClosedAs(states[i], k, closed) && NotAt(states, i, j, k)
    ensures ClosedAs(states[j], k, closed)
    decreases j - i
  {
    if i < j {
      NextKeepsClosed(rule, states, calls, i, j, k, closed);
      ClosedRowKept(rule, states, calls, i + 1, j, k, closed);
    }
  }

  lemma NextKeepsClosed(rule: LeaseRule, states: seq<Store>, calls: seq<Call>, i: nat, j: nat, k: StepKey, closed: StepExecution)
    requires Run(rule, states, calls) && i < j <= |calls| && ClosedAs(states[i], k, closed) && NotAt(states, i, j, k)
    ensures ClosedAs(states[i + 1], k, closed)
  {
    RunKeeps(rule, states, calls, i);
    assert Next(rule, states[i], calls[i], states[i + 1]);
    CallKeepsClosed(rule, states[i], calls[i], k, closed);
  }

  lemma CompletionCloses(rule: LeaseRule, s: Store, c: Call, t: Store, k: StepKey) returns (r: StepExecution)
    requires Inv(s) && Next(rule, s, c, t) && Completes(rule, s, c, k.executionId)
    requires RunningOn(s, k) && !RunningOn(t, k)
    ensures ClosedAs(t, k, r) && r.status.Completed? && r.output == c.output
    ensures r.workerId == Some(c.workerId) && r.completedAt == Some(c.clock.stored)
  {
    CompletionAfter(rule, s, c, t);
    r := CompletesRow(s, c.clock, c.id, c.stepName, c.workerId, c.output, c.delay, c.decision, t, k);
  }

  lemma CompletesRow(s: Store, clock: Clock, id: string, stepName: string, workerId: string, output: Json,
                     delay: Option<Time>, decision: NextStepDecision, t: Store, k: StepKey)
    returns (r: StepExecution)
    requires Inv(s) && Complete(s, clock, id, stepName, workerId, output, delay, decision).Done?
    requires t == Apply(s, Complete(s, clock, id, stepName, workerId, output, delay, decision).writes)
    requires RunningOn(s, k) && !RunningOn(t, k) && k.executionId == id
    ensures ClosedAs(t, k, r) && r.status.Completed? && r.output == output
    ensures r.workerId == Some(workerId) && r.completedAt == Some(clock.stored)
  {
    var e, next;
    e, r, next := CompletionPuts(s, clock, id, stepName, workerId, output, delay, decision, t);
    ClosedThere(s, t, e, r, next, clock, id, workerId, output, delay, decision, k);
  }

  lemma ClosedThere(s: Store, t: Store, e: Execution, closed: StepExecution, next: StepExecution, clock: Clock, id: string,
                    workerId: string, output: Json, delay: Option<Time>, decision: NextStepDecision, k: StepKey)
    requires AfterCompletion(s, t, e, closed, next, clock, id, workerId, output, delay, decision)
    requires RunningOn(s, k) && !RunningOn(t, k) && k.executionId == id
    ensures ClosedAs(t, k, closed) && closed.status.Completed? && closed.output == output
    ensures closed.workerId == Some(workerId) && closed.completedAt == Some(clock.stored)
  {
  }

  /** The output of a completed attempt, and who completed it and when, can be read from its row for as long
      as the execution does not come back to that step and attempt. */
  lemma OutputKept(rule: LeaseRule, states: seq<Store>, calls: seq<Call>, i: nat, j: nat, k: StepKey)
    requires Run(rule, states, calls) && i < j <= |calls|
    requires Keyed(states[i]) && Completes(rule, states[i], calls[i], k.executionId)
    requires RunningOn(states[i], k) && NotAt(states, i + 1, j, k)
    ensures k in states[j].steps
    ensures var r := states[j].steps[k];
            r.status.Completed? && r.output == calls[i].output && r.workerId == Some(calls[i].workerId)
            && r.completedAt == Some(calls[i].clock.stored)
  {
    var r := RunCloses(rule, states, calls, i, k);
    ClosedRowKept(rule, states, calls, i + 1, j, k, r);
  }

  lemma RunCloses(rule: LeaseRule, states: seq<Store>, calls: seq<Call>, i: nat, k: StepKey) returns (r: StepExecution)
    requires Run(rule, states, calls) && i < |calls| && Keyed(states[i]) && Completes(rule, states[i], calls[i], k.executionId)
    requires RunningOn(states[i], k) && !RunningOn(states[i + 1], k)
    ensures ClosedAs(states[i + 1], k, r) && r.status.Completed? && r.output == calls[i].output
    ensures r.workerId == Some(calls[i].workerId) && r.completedAt == Some(calls[i].clock.stored)
  {
    RunKeeps(rule, states, calls, i);
    assert Next(rule, states[i], calls[i], states[i + 1]);
    r := CompletionCloses(rule, states[i], calls[i], states[i + 1], k);
  }

  /** A completion that goes on to the key it completes puts a fresh row there: that output is gone. */
  lemma OutputReplaced(rule: LeaseRule, s: Store, c: Call, t: Store, k: StepKey)
    requires Inv(s) && Next(rule, s, c, t) && Completes(rule, s, c, k.executionId) && RunningOn(t, k)
    ensures k in t.steps && WaitsOn(t, t.steps[k]) && t.steps[k].input == c.decision.nextStepInput && t.steps[k].output == EMPTY_OBJECT
  {
    var r := CompletionWaits(rule, s, c, t, k);
  }

  /* ---- failures ---- */

  /** The call fails the execution's current step: a worker reports it failed, or its lease has run out. */
  ghost predicate FailsStep(rule: LeaseRule, s: Store, c: Call, id: string)
    requires Keyed(s)
  {
    Progresses(rule, s, c, id) && !c.CompleteCall?
  }

  /** The reason a failing call gives. */
  function ReasonOf(c: Call): string {
    if c.FailCall? then c.reason else LEASE_EXPIRED
  }

  function FailClock(c: Call, id: string): Clock
    requires c.FailCall? || c.SweepCall?
  {
    if c.FailCall? then c.clock else SweepClock(c.now, c.created, id)
  }

  lemma FailsOnce(rule: LeaseRule, s: Store, c: Call, id: string)
    requires Inv(s) && Allowed(s, c) && FailsStep(rule, s, c, id)
    ensures FailedOnce(s, After(rule, s, c), id, ReasonOf(c), FailClock(c, id))
  {
    if c.FailCall? {
      FailedByHolder(s, c.clock, c.id, c.stepName, c.workerId, c.reason, id);
    } else {
      SweptOnce(s, c.now, c.created, c.rows, id);
    }
  }

  lemma FailedByHolder(s: Store, clock: Clock, id': string, stepName: string, workerId: string, reason: string, id: string)
    requires Inv(s) && Fail(s, clock, id', stepName, workerId, reason).Done?
    requires id in Fail(s, clock, id', stepName, workerId, reason).writes.executions
    ensures id' == id && FailedOnce(s, Apply(s, Fail(s, clock, id', stepName, workerId, reason).writes), id, reason, clock)
  {
    OwnedIsCurrent(s, id', stepName, workerId, clock.checked);
  }

  lemma SweptOnce(s: Store, now: Time, created: map<string, Time>, rows: seq<StepExecution>, id: string)
    requires Inv(s) && Enumerates(rows, Select(s, ByStatus(StepStatus.Running))) && Sweep(s, now, created, rows).Done?
    requires id in Sweep(s, now, created, rows).writes.executions
    ensures FailedOnce(s, Apply(s, Sweep(s, now, created, rows).writes), id, LEASE_EXPIRED, SweepClock(now, created, id))
  {
    WrittenIsDue(s, now, created, rows, id);
    SweptExecution(s, now, created, rows, id);
    assert ExecutionOk(s, s.executions[id]);
  }

  lemma OnceRow(s: Store, t: Store, r: StepExecution)
    requires SameRows(PutStep(s, r), t, r.executionId) && !r.Open()
    ensures ClosedAs(t, KeyOfStep(r), r)
  {
    assert Lookup(PutStep(s, r).steps, KeyOfStep(r)) == Lookup(t.steps, KeyOfStep(r));
  }

  lemma OnceRowMoved(s: Store, t: Store, r: StepExecution, next: StepExecution)
    requires SameRows(PutStep(PutStep(s, r), next), t, r.executionId) && !r.Open() && KeyOfStep(next) != KeyOfStep(r)
    ensures ClosedAs(t, KeyOfStep(r), r)
  {
    assert Lookup(PutStep(PutStep(s, r), next).steps, KeyOfStep(r)) == Lookup(t.steps, KeyOfStep(r));
  }

  lemma FailureCloses(s: Store, t: Store, id: string, reason: string, clock: Clock, k: StepKey) returns (r: StepExecution)
    requires Inv(s) && FailedOnce(s, t, id, reason, clock) && RunningOn(s, k) && k.executionId == id
    ensures ClosedAs(t, k, r) && r.status.Failed? && r.failureReason == Some(reason)
    ensures t.executions[id].status.Failed? ==> CurrentKey(t.executions[id]) == k
  {
    r := FailedRow(Current(s, id), reason, clock.stored);
    FailedOnceShape(s, t, id, reason, clock, r);
    if t.executions[id].status.Running? {
      OnceRowMoved(s, t, r, t.steps[CurrentKey(t.executions[id])]);
    } else {
      OnceRow(s, t, r);
    }
  }

  lemma FailureReason(s: Store, t: Store, id: string, reason: string, clock: Clock)
    requires Inv(s) && FailedOnce(s, t, id, reason, clock) && t.executions[id].status.Failed?
    ensures t.executions[id].failureReason == Some(reason)
  {
  }

  /** The reason of a failure can be read from the row of the failed attempt for as long as the execution does
      not come back to that step and attempt. */
  lemma ReasonKept(rule: LeaseRule, states: seq<Store>, calls: seq<Call>, i: nat, j: nat, k: StepKey)
    requires Run(rule, states, calls) && i < j <= |calls|
    requires Keyed(states[i]) && FailsStep(rule, states[i], calls[i], k.executionId)
    requires RunningOn(states[i], k) && NotAt(states, i + 1, j, k)
    ensures k in states[j].steps && states[j].steps[k].status.Failed? && states[j].steps[k].failureReason == Some(ReasonOf(calls[i]))
  {
    RunKeeps(rule, states, calls, i);
    assert Next(rule, states[i], calls[i], states[i + 1]);
    FailsOnce(rule, states[i], calls[i], k.executionId);
    var r := FailureCloses(states[i], states[i + 1], k.executionId, ReasonOf(calls[i]), FailClock(calls[i], k.executionId), k);
    ClosedRowKept(rule, states, calls, i + 1, j, k, r);
  }

  /** The execution has failed for the reason, and so has its last attempt. */
  ghost predicate FailedFor(s: Store, id: string, reason: string) {
    && id in s.executions && s.executions[id].status.Failed? && s.executions[id].failureReason == Some(reason)
    && var k := CurrentKey(s.executions[id]);
       k in s.steps && s.steps[k].status.Failed? && s.steps[k].failureReason == Some(reason)
  }

  /** A running execution that has failed after a call fails with it. */
  lemma FailsNow(rule: LeaseRule, s: Store, c: Call, id: string)
    requires Inv(s) && Allowed(s, c) && id in s.executions && s.executions[id].status.Running?
    requires id in After(rule, s, c).executions && After(rule, s, c).executions[id].status.Failed?
    ensures FailsStep(rule, s, c, id)
  {
    CallChanges(rule, s, c, id);
  }

  lemma FailedNow(rule: LeaseRule, s: Store, c: Call, t: Store, id: string)
    requires Inv(s) && Next(rule, s, c, t) && id in s.executions && s.executions[id].status.Running?
    requires id in t.executions && t.executions[id].status.Failed?
    ensures FailsStep(rule, s, c, id) && FailedFor(t, id, ReasonOf(c))
  {
    FailsNow(rule, s, c, id);
    FailsOnce(rule, s, c, id);
    FailureReason(s, t, id, ReasonOf(c), FailClock(c, id));
    var r := FailureCloses(s, t, id, ReasonOf(c), FailClock(c, id), CurrentKey(s.executions[id]));
  }

  /** An execution that has failed after a call and was not running before it is as it was. */
  lemma FailedBefore(rule: LeaseRule, s: Store, c: Call, id: string)
    requires Inv(s) && Allowed(s, c) && !Inputs.Running(s, id)
    requires id in After(rule, s, c).executions && After(rule, s, c).executions[id].status.Failed?
    ensures id in s.executions && s.executions[id].status.Failed?
  {
    if id in s.executions {
      CallLeavesFinished(rule, s, c, id);
    } else {
      CallAdds(rule, s, c);
    }
  }

  /** An execution that has failed was failed by one call of the run: by a worker, whose reason it carries, or
      by a sweep that found its lease run out. Its last attempt carries the same reason, and since that call
      nothing about the execution has changed. */
  lemma FailureTraced(rule: LeaseRule, states: seq<Store>, calls: seq<Call>, j: nat, id: string) returns (i: nat)
    requires Run(rule, states, calls) && states[0] == EMPTY && j <= |calls|
    requires id in states[j].executions && states[j].executions[id].status.Failed?
    ensures i < j && Inputs.Running(states[i], id) && Keyed(states[i]) && FailsStep(rule, states[i], calls[i], id)
    ensures FailedFor(states[i + 1], id, ReasonOf(calls[i])) && Untouched(states[i + 1], states[j], id)
  {
    i := WhereFailed(rule, states, calls, j, id);
    RunFreezesFinished(rule, states, calls, i + 1, j, id);
  }

  lemma {:induction false} WhereFailed(rule: LeaseRule, states: seq<Store>, calls: seq<Call>, j: nat, id: string) returns (i: nat)
    requires Run(rule, states, calls) && states[0] == EMPTY && j <= |calls|
    requires id in states[j].executions && states[j].executions[id].status.Failed?
    ensures i < j && Inputs.Running(states[i], id) && Keyed(states[i]) && FailsStep(rule, states[i], calls[i], id)
    ensures FailedFor(states[i + 1], id, ReasonOf(calls[i]))
  {
    i := j - 1;
    NextFailed(rule, states, calls, i, id);
    if !Inputs.Running(states[i], id) {
      i := WhereFailed(rule, states, calls, i, id);
    }
  }

  lemma NextFailed(rule: LeaseRule, states: seq<Store>, calls: seq<Call>, i: nat, id: string)
    requires Run(rule, states, calls) && i < |calls| && id in states[i + 1].executions && states[i + 1].executions[id].status.Failed?
    ensures if Inputs.Running(states[i], id) then
              Keyed(states[i]) && FailsStep(rule, states[i], calls[i], id) && FailedFor(states[i + 1], id, ReasonOf(calls[i]))
            else id in states[i].executions && states[i].executions[id].status.Failed?
  {
    RunKeeps(rule, states, calls, i);
    assert Next(rule, states[i], calls[i], states[i + 1]);
    if Inputs.Running(states[i], id) {
      FailedNow(rule, states[i], calls[i], states[i + 1], id);
    } else {
      FailedBefore(rule, states[i], calls[i], id);
    }
  }

  /** A retry can be claimed at once, on the same input, by anyone. */
  lemma RetryReady(s: Store, clock: Clock, id: string, stepName: string, workerId: string, reason: string, now: Time)
    requires Inv(s) && Fail(s, clock, id, stepName, workerId, reason).Done?
    requires Fail(s, clock, id, stepName, workerId, reason).value.status.Running?
    ensures var t := Apply(s, Fail(s, clock, id, stepName, workerId, reason).writes);
            && id in t.executions && CurrentKey(t.executions[id]) in t.steps
            && var r := t.steps[CurrentKey(t.executions[id])];
               IsClaimable(r, now) && r.workerId == None && r.stepName == stepName
               && r.input == s.steps[CurrentKey(s.executions[id])].input
  {
    OwnedIsCurrent(s, id, stepName, workerId, clock.checked);
  }
}
