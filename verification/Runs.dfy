/** Runs: arbitrary sequences of operations, and what one operation can do to one execution. */
module Runs {
  import opened Prelude
  import opened JsonValue
  import opened Domain
  import opened Tables
  import opened Operations
  import opened Candidates
  import opened Invariant
  import opened Preservation
  import opened Sweeping

  /** One call of the orchestrator, with everything it takes from outside: the clock readings, the id drawn
      for a new execution, the logic's decision, the order in which the sweep's query returns its rows. */
  datatype Call =
    | RegisterCall(definition: WorkflowDefinition)
    | StartCall(clock: Clock, id: string, name: string, version: int, input: Json)
    | PollCall(now: Time, name: string, version: int, workerId: string, max: nat)
    | KeepAliveCall(clock: Clock, id: string, stepName: string, workerId: string)
    | CompleteCall(clock: Clock, id: string, stepName: string, workerId: string, output: Json, delay: Option<Time>, decision: NextStepDecision)
    | FailCall(clock: Clock, id: string, stepName: string, workerId: string, reason: string)
    | CancelCall(now: Time, id: string)
    | SweepCall(now: Time, created: map<string, Time>, rows: seq<StepExecution>)

  function WritesOf<T>(o: Outcome<T>): Option<Store> {
    if o.Thrown? then None else Some(o.writes)
  }

  /** The rows a call puts; None when it throws. */
  ghost function Effect(rule: LeaseRule, s: Store, c: Call): Option<Store>
    requires Keyed(s)
  {
    match c
    case RegisterCall(d) => WritesOf(Register(s, d))
    case StartCall(clock, id, name, version, input) => WritesOf(Start(s, clock, id, name, version, input))
    case PollCall(now, name, version, workerId, max) => WritesOf(Poll(rule, s, now, name, version, workerId, max))
    case KeepAliveCall(clock, id, stepName, workerId) => WritesOf(KeepAlive(rule, s, clock, id, stepName, workerId))
    case CompleteCall(clock, id, stepName, workerId, output, delay, decision) =>
      WritesOf(Complete(s, clock, id, stepName, workerId, output, delay, decision))
    case FailCall(clock, id, stepName, workerId, reason) => WritesOf(Fail(s, clock, id, stepName, workerId, reason))
    case CancelCall(now, id) => WritesOf(Cancel(s, now, id))
    case SweepCall(now, created, rows) => WritesOf(Sweep(s, now, created, rows))
  }

  /** The tables after a call; a call that throws leaves them alone. */
  ghost function After(rule: LeaseRule, s: Store, c: Call): Store
    requires Keyed(s)
  {
    match Effect(rule, s, c)
    case None => s
    case Some(w) => Apply(s, w)
  }

  /** A new execution's id is not in use, and a sweep is given its query's rows in some order. */
  ghost predicate Allowed(s: Store, c: Call) {
    match c
    case StartCall(_, id, _, _, _) => id !in s.executions
    case SweepCall(_, _, rows) => Enumerates(rows, Select(s, ByStatus(StepStatus.Running)))
    case _ => true
  }

  ghost predicate Next(rule: LeaseRule, s: Store, c: Call, t: Store) {
    Keyed(s) && Allowed(s, c) && t == After(rule, s, c)
  }

  /** A run: `states[i]` are the tables before `calls[i]`. */
  ghost predicate Run(rule: LeaseRule, states: seq<Store>, calls: seq<Call>) {
    && |states| == |calls| + 1
    && Inv(states[0])
    && forall i :: 0 <= i < |calls| ==> Next(rule, states[i], calls[i], states[i + 1])
  }

  /** A run and one more call. */
  lemma {:induction false} RunOneMore(rule: LeaseRule, states: seq<Store>, calls: seq<Call>, c: Call, t: Store)
    requires Run(rule, states, calls) && Next(rule, states[|calls|], c, t)
    ensures Run(rule, states + [t], calls + [c])
  {
    var s', c' := states + [t], calls + [c];
    forall i | 0 <= i < |c'| ensures Next(rule, s'[i], c'[i], s'[i + 1]) {
      if i < |calls| {
        assert Next(rule, states[i], calls[i], states[i + 1]);
      }
    }
  }

  lemma EmptyTables()
    ensures Inv(EMPTY)
  {
  }

  lemma CallKeeps(rule: LeaseRule, s: Store, c: Call)
    requires Inv(s) && Allowed(s, c)
    ensures Inv(After(rule, s, c))
  {
    if Effect(rule, s, c).Some? {
      match c
      case RegisterCall(d) =>
        ApplyNothing(s);
        ApplyPuts(s, EMPTY);
        KeepsRegister(s, d);
      case StartCall(clock, id, name, version, input) => StartKeeps(s, clock, id, name, version, input);
      case PollCall(now, name, version, workerId, max) => PollKeeps(rule, s, now, name, version, workerId, max);
      case KeepAliveCall(clock, id, stepName, workerId) => KeepAliveKeeps(rule, s, clock, id, stepName, workerId);
      case CompleteCall(clock, id, stepName, workerId, output, delay, decision) =>
        CompleteKeeps(s, clock, id, stepName, workerId, output, delay, decision);
      case FailCall(clock, id, stepName, workerId, reason) => FailKeeps(s, clock, id, stepName, workerId, reason);
      case CancelCall(now, id) => CancelKeeps(s, now, id);
      case SweepCall(now, created, rows) =>
        EnumerationCovers(s, now, rows);
        SweepKeeps(s, now, created, rows);
    }
  }

  /** The invariant holds in every state of every run. */
  lemma {:induction false} RunKeeps(rule: LeaseRule, states: seq<Store>, calls: seq<Call>, i: nat)
    requires Run(rule, states, calls) && i <= |calls|
    ensures Inv(states[i])
  {
    if i > 0 {
      RunKeeps(rule, states, calls, i - 1);
      NextKeeps(rule, states, calls, i - 1);
    }
  }

  lemma NextKeeps(rule: LeaseRule, states: seq<Store>, calls: seq<Call>, i: nat)
    requires Run(rule, states, calls) && i < |calls| && Inv(states[i])
    ensures Inv(states[i + 1])
  {
    assert Next(rule, states[i], calls[i], states[i + 1]);
    CallKeeps(rule, states[i], calls[i]);
  }

  /** In every state of every run a running execution has exactly one open step row, the one its current step
      name and attempt name, and a finished one has none. */
  lemma RunOneOpenRow(rule: LeaseRule, states: seq<Store>, calls: seq<Call>, i: nat, id: string)
    requires Run(rule, states, calls) && i <= |calls| && id in states[i].executions
    ensures var s := states[i];
            var e := s.executions[id];
            (set k | k in s.steps && k.executionId == id && s.steps[k].Open())
            == if e.status.Running? then {CurrentKey(e)} else {}
  {
    RunKeeps(rule, states, calls, i);
    OneOpenRow(states[i], id);
  }

  /* ---- what a call can do to one execution ---- */

  /** The current step row of a running execution. */
  ghost function Current(s: Store, id: string): StepExecution
    requires Inv(s) && id in s.executions && s.executions[id].status.Running?
  {
    assert ExecutionOk(s, s.executions[id]);
    s.steps[CurrentKey(s.executions[id])]
  }

  ghost predicate Untouched(s: Store, t: Store, id: string) {
    id in s.executions && id in t.executions && t.executions[id] == s.executions[id] && SameRows(s, t, id)
  }

  /** The execution keeps its row; of its step rows only the current one changes, from open to open. */
  ghost predicate Worked(s: Store, t: Store, id: string, r: StepExecution) {
    && id in s.executions && id in t.executions && t.executions[id] == s.executions[id] && s.executions[id].status.Running?
    && KeyOfStep(r) == CurrentKey(s.executions[id]) && r.status.Running?
    && SameRows(PutStep(s, r), t, id)
  }

  /** What a start gives an execution for life: its id, its workflow, its input and the time it began. */
  predicate SameOrigin(e: Execution, e': Execution) {
    e'.id == e.id && WorkflowOf(e') == WorkflowOf(e) && e'.input == e.input && e'.startedAt == e.startedAt
  }

  /** The current row is closed as `r`, and the execution becomes `e`. */
  ghost predicate Closed(s: Store, t: Store, id: string, r: StepExecution, e: Execution) {
    && id in s.executions && s.executions[id].status.Running? && id in t.executions && t.executions[id] == e
    && KeyOfStep(r) == CurrentKey(s.executions[id]) && !r.Open()
    && SameOrigin(s.executions[id], e)
  }

  /** Closed and over. */
  ghost predicate Over(s: Store, t: Store, id: string, r: StepExecution, e: Execution) {
    && Closed(s, t, id, r, e) && !e.status.Running?
    && e.currentStepName == s.executions[id].currentStepName && e.currentStepAttempt == s.executions[id].currentStepAttempt
    && SameRows(PutStep(s, r), t, id)
  }

  /** Closed, and `next` opened as the new current row. */
  ghost predicate Moved(s: Store, t: Store, id: string, r: StepExecution, e: Execution, next: StepExecution) {
    && Closed(s, t, id, r, e) && e.status.Running?
    && KeyOfStep(next) == CurrentKey(e) && next.status.Pending?
    && SameRows(PutStep(PutStep(s, r), next), t, id)
  }

  /** Failed or expired: the next attempt on the same input below the bound, the end of the execution at it. */
  ghost predicate FailedOnce(s: Store, t: Store, id: string, reason: string, clock: Clock)
    requires Inv(s)
  {
    && id in s.executions && s.executions[id].status.Running?
    && var e := s.executions[id];
       && CurrentKey(e) in s.steps && s.steps[CurrentKey(e)].status.Running?
       && DueRetries(s, id).Some?
       && var x := Settle(e, s.steps[CurrentKey(e)], DueRetries(s, id).value, reason, clock);
          && id in t.executions && t.executions[id] == x.execution
          && SameRows(Apply(s, x.writes), t, id)
  }

  ghost predicate ClaimedBy(rule: LeaseRule, s: Store, t: Store, id: string, now: Time, key: DefinitionKey, workerId: string)
    requires Inv(s)
  {
    && id in s.executions && s.executions[id].status.Running?
    && WorkflowOf(s.executions[id]) == key && key in s.definitions
    && var r := Current(s, id);
       && IsClaimable(r, now)
       && var lease := LeaseOf(rule, s.definitions[key], r.stepName);
          lease.Some? && Worked(s, t, id, ClaimedRow(r, workerId, now, lease.value))
  }

  ghost predicate RenewedBy(rule: LeaseRule, s: Store, t: Store, id: string, clock: Clock, stepName: string, workerId: string) {
    var claim := Owned(s, id, stepName, workerId, clock.checked);
    && claim.Some?
    && var lease := LeaseOf(rule, claim.value.definition, stepName);
       lease.Some? && Worked(s, t, id, RenewedRow(claim.value.row, clock.stored + lease.value))
  }

  ghost predicate FinishedBy(s: Store, t: Store, id: string, r: StepExecution) {
    id in t.executions && t.executions[id].status.Completed? && Over(s, t, id, r, t.executions[id])
  }

  /** On to attempt 0 of the step the decision names, on the input it gives. */
  ghost predicate AdvancedBy(s: Store, t: Store, id: string, r: StepExecution, d: WorkflowDefinition, decision: NextStepDecision) {
    && id in t.executions
    && var e := t.executions[id];
       && decision.nextStepName == Some(e.currentStepName) && e.currentStepAttempt == 0
       && FindStep(d.steps, e.currentStepName).Some?
       && CurrentKey(e) in t.steps && t.steps[CurrentKey(e)].input == decision.nextStepInput
       && Moved(s, t, id, r, e, t.steps[CurrentKey(e)])
  }

  ghost predicate CompletedBy(s: Store, t: Store, id: string, clock: Clock, stepName: string, workerId: string, output: Json,
                              decision: NextStepDecision)
  {
    var claim := Owned(s, id, stepName, workerId, clock.checked);
    && claim.Some?
    && var r := CompletedRow(claim.value.row, output, clock.stored);
       if decision.workflowComplete then FinishedBy(s, t, id, r) else AdvancedBy(s, t, id, r, claim.value.definition, decision)
  }

  ghost predicate CanceledBy(s: Store, t: Store, id: string, now: Time)
    requires Inv(s)
  {
    && id in s.executions && s.executions[id].status.Running? && id in t.executions
    && t.executions[id].status.Canceled? && t.executions[id].state == s.executions[id].state
    && t.executions[id].completedAt == Some(now)
    && Over(s, t, id, CanceledRow(Current(s, id), now), t.executions[id])
  }

  ghost predicate Change(rule: LeaseRule, s: Store, c: Call, t: Store, id: string)
    requires Inv(s)
  {
    || Untouched(s, t, id)
    || match c
       case RegisterCall(_) => false
       case StartCall(_, _, _, _, _) => false
       case PollCall(now, name, version, workerId, _) => ClaimedBy(rule, s, t, id, now, DefinitionKey(name, version), workerId)
       case KeepAliveCall(clock, id', stepName, workerId) => id' == id && RenewedBy(rule, s, t, id, clock, stepName, workerId)
       case CompleteCall(clock, id', stepName, workerId, output, _, decision) =>
         id' == id && CompletedBy(s, t, id, clock, stepName, workerId, output, decision)
       case FailCall(clock, id', stepName, workerId, reason) =>
         id' == id && Owned(s, id, stepName, workerId, clock.checked).Some? && FailedOnce(s, t, id, reason, clock)
       case CancelCall(now, id') => id' == id && CanceledBy(s, t, id, now)
       case SweepCall(now, created, _) =>
         Due(s, now, id) && FailedOnce(s, t, id, LEASE_EXPIRED, SweepClock(now, created, id))
  }

  /** A change that puts rows of other executions only leaves this one alone. */
  lemma ElsewhereUntouched(s: Store, w: Store, id: string)
    requires id in s.executions && id !in w.executions && forall k :: k in w.steps ==> k.executionId != id
    ensures Untouched(s, Apply(s, w), id)
  {
  }

  /** Every call changes an execution in one of these ways or not at all. */
  lemma CallChanges(rule: LeaseRule, s: Store, c: Call, id: string)
    requires Inv(s) && Allowed(s, c) && id in s.executions
    ensures Change(rule, s, c, After(rule, s, c), id)
  {
    if Effect(rule, s, c).Some? {
      match c
      case RegisterCall(d) => ElsewhereUntouched(s, Effect(rule, s, c).value, id);
      case StartCall(_, _, _, _, _) => ElsewhereUntouched(s, Effect(rule, s, c).value, id);
      case PollCall(now, name, version, workerId, max) => PollChanges(rule, s, now, name, version, workerId, max, id);
      case KeepAliveCall(clock, id', stepName, workerId) => KeepAliveChanges(rule, s, clock, id', stepName, workerId, id);
      case CompleteCall(clock, id', stepName, workerId, output, delay, decision) =>
        CompleteChanges(s, clock, id', stepName, workerId, output, delay, decision, id);
      case FailCall(clock, id', stepName, workerId, reason) => FailChanges(s, clock, id', stepName, workerId, reason, id);
      case CancelCall(now, id') => CancelChanges(s, now, id', id);
      case SweepCall(now, created, rows) =>
        SweptExecution(s, now, created, rows, id);
        assert ExecutionOk(s, s.executions[id]);
    }
  }

  lemma PollChanges(rule: LeaseRule, s: Store, now: Time, name: string, version: int, workerId: string, max: nat, id: string)
    requires Inv(s) && Poll(rule, s, now, name, version, workerId, max).Done? && id in s.executions
    ensures var t := Apply(s, Poll(rule, s, now, name, version, workerId, max).writes);
            Untouched(s, t, id) || ClaimedBy(rule, s, t, id, now, DefinitionKey(name, version), workerId)
  {
    var key := DefinitionKey(name, version);
    var chosen := Chosen(CandidateList(s, key), now, max);
    ChosenRows(s, key, now, max);
    PollWritesApply(rule, s, now, name, version, workerId, max);
    ClaimsChange(rule, s, now, key, workerId, chosen, id);
  }

  lemma ClaimsChange(rule: LeaseRule, s: Store, now: Time, key: DefinitionKey, workerId: string, chosen: seq<StepExecution>, id: string)
    requires Inv(s) && id in s.executions && key in s.definitions && LeasesKnown(rule, s.definitions[key], chosen) && DistinctKeys(chosen)
    requires forall i :: 0 <= i < |chosen| ==>
               var k := KeyOfStep(chosen[i]);
               k in s.steps && s.steps[k] == chosen[i] && chosen[i].Open() && WorkflowKey(chosen[i]) == key
               && IsClaimable(chosen[i], now)
    ensures var t := PutSteps(s, ClaimAll(rule, s.definitions[key], chosen, workerId, now));
            Untouched(s, t, id) || ClaimedBy(rule, s, t, id, now, key, workerId)
  {
    var claimed := ClaimAll(rule, s.definitions[key], chosen, workerId, now);
    ClaimAllKeys(rule, s.definitions[key], chosen, workerId, now);
    forall i | 0 <= i < |chosen| ensures claimed[i].executionId == id ==> KeyOfStep(claimed[i]) == CurrentKey(s.executions[id]) {
      RowIsCurrent(s, chosen[i]);
    }
    if n :| 0 <= n < |chosen| && chosen[n].executionId == id {
      RowIsCurrent(s, chosen[n]);
      OneClaimChanges(s, claimed, n, id);
    } else {
      NoClaimChanges(s, claimed, id);
    }
  }

  lemma OneClaimChanges(s: Store, claimed: seq<StepExecution>, n: nat, id: string)
    requires DistinctKeys(claimed) && n < |claimed| && claimed[n].executionId == id
    requires forall i :: 0 <= i < |claimed| && claimed[i].executionId == id ==> KeyOfStep(claimed[i]) == KeyOfStep(claimed[n])
    ensures SameRows(PutStep(s, claimed[n]), PutSteps(s, claimed), id) && PutSteps(s, claimed).executions == s.executions
  {
    PutStepsAtExecutions(s, claimed);
    forall k: StepKey | k.executionId == id ensures Lookup(PutStep(s, claimed[n]).steps, k) == Lookup(PutSteps(s, claimed).steps, k) {
      if k == KeyOfStep(claimed[n]) {
        PutThere(s, claimed, n);
      } else {
        PutElsewhere(s, claimed, k);
      }
    }
  }

  lemma NoClaimChanges(s: Store, claimed: seq<StepExecution>, id: string)
    requires id in s.executions && forall i :: 0 <= i < |claimed| ==> claimed[i].executionId != id
    ensures Untouched(s, PutSteps(s, claimed), id)
  {
    PutStepsAtExecutions(s, claimed);
    forall k: StepKey | k.executionId == id ensures Lookup(s.steps, k) == Lookup(PutSteps(s, claimed).steps, k) {
      PutElsewhere(s, claimed, k);
    }
  }

  lemma KeepAliveChanges(rule: LeaseRule, s: Store, clock: Clock, id': string, stepName: string, workerId: string, id: string)
    requires Inv(s) && KeepAlive(rule, s, clock, id', stepName, workerId).Done? && id in s.executions
    ensures var t := Apply(s, KeepAlive(rule, s, clock, id', stepName, workerId).writes);
            Untouched(s, t, id) || (id' == id && RenewedBy(rule, s, t, id, clock, stepName, workerId))
  {
    OwnedIsCurrent(s, id', stepName, workerId, clock.checked);
    if id' != id {
      ElsewhereUntouched(s, KeepAlive(rule, s, clock, id', stepName, workerId).writes, id);
    } else {
      KeepAliveRenews(rule, s, Apply(s, KeepAlive(rule, s, clock, id, stepName, workerId).writes), clock, id, stepName, workerId);
    }
  }

  lemma KeepAliveRenews(rule: LeaseRule, s: Store, t: Store, clock: Clock, id: string, stepName: string, workerId: string)
    requires Inv(s) && KeepAlive(rule, s, clock, id, stepName, workerId).Done?
    requires t == Apply(s, KeepAlive(rule, s, clock, id, stepName, workerId).writes)
    ensures RenewedBy(rule, s, t, id, clock, stepName, workerId)
  {
    OwnedIsCurrent(s, id, stepName, workerId, clock.checked);
    var claim, lease := KeepAliveCase(rule, s, clock, id, stepName, workerId);
    RenewalWorks(s, t, id, claim, clock.stored + lease, KeepAlive(rule, s, clock, id, stepName, workerId).writes);
  }

  lemma KeepAliveCase(rule: LeaseRule, s: Store, clock: Clock, id: string, stepName: string, workerId: string)
    returns (claim: Claim, lease: Time)
    requires KeepAlive(rule, s, clock, id, stepName, workerId).Done?
    ensures Owned(s, id, stepName, workerId, clock.checked) == Some(claim) && LeaseOf(rule, claim.definition, stepName) == Some(lease)
    ensures KeepAlive(rule, s, clock, id, stepName, workerId).writes == PutStep(EMPTY, RenewedRow(claim.row, clock.stored + lease))
  {
    claim := Owned(s, id, stepName, workerId, clock.checked).value;
    lease := LeaseOf(rule, claim.definition, stepName).value;
  }

  lemma RenewalWorks(s: Store, t: Store, id: string, claim: Claim, until: Time, w: Store)
    requires id in s.executions && s.executions[id].status.Running? && KeyOfStep(claim.row) == CurrentKey(s.executions[id])
    requires claim.row.status.Running? && t == Apply(s, w) && w == PutStep(EMPTY, RenewedRow(claim.row, until))
    ensures Worked(s, t, id, RenewedRow(claim.row, until))
  {
    RowWorked(s, id, RenewedRow(claim.row, until), t);
  }

  lemma RowWorked(s: Store, id: string, row: StepExecution, t: Store)
    requires id in s.executions && s.executions[id].status.Running? && KeyOfStep(row) == CurrentKey(s.executions[id]) && row.status.Running?
    requires t == Apply(s, PutStep(EMPTY, row))
    ensures Worked(s, t, id, row)
  {
    ApplyStep(s, row);
  }

  lemma CompleteChanges(s: Store, clock: Clock, id': string, stepName: string, workerId: string, output: Json,
                        delay: Option<Time>, decision: NextStepDecision, id: string)
    requires Inv(s) && Complete(s, clock, id', stepName, workerId, output, delay, decision).Done? && id in s.executions
    ensures var t := Apply(s, Complete(s, clock, id', stepName, workerId, output, delay, decision).writes);
            Untouched(s, t, id) || (id' == id && CompletedBy(s, t, id, clock, stepName, workerId, output, decision))
  {
    OwnedIsCurrent(s, id', stepName, workerId, clock.checked);
    var claim := Owned(s, id', stepName, workerId, clock.checked).value;
    var o := Complete(s, clock, id', stepName, workerId, output, delay, decision);
    var r := CompletedRow(claim.row, output, clock.stored);
    var next := CompleteCases(s, clock, id', stepName, workerId, output, delay, decision, claim);
    if id' != id {
      ElsewhereUntouched(s, o.writes, id);
    } else if decision.workflowComplete {
      Finishes(s, id, r, o.value);
    } else {
      Advances(s, id, r, o.value, next, claim.definition, decision);
    }
  }

  /** The two ways a completion ends. */
  lemma CompleteCases(s: Store, clock: Clock, id: string, stepName: string, workerId: string, output: Json,
                      delay: Option<Time>, decision: NextStepDecision, claim: Claim)
    returns (next: StepExecution)
    requires Owned(s, id, stepName, workerId, clock.checked) == Some(claim)
    requires Complete(s, clock, id, stepName, workerId, output, delay, decision).Done?
    ensures var o := Complete(s, clock, id, stepName, workerId, output, delay, decision);
            var r := CompletedRow(claim.row, output, clock.stored);
            && SameOrigin(claim.execution, o.value) && o.value.state == decision.updatedState
            && (decision.workflowComplete ==> o.value.completedAt == Some(clock.settled))
            && if decision.workflowComplete then
                 && o.value.status.Completed? && o.writes == PutExecution(PutStep(EMPTY, r), o.value)
                 && o.value.currentStepName == claim.execution.currentStepName
                 && o.value.currentStepAttempt == claim.execution.currentStepAttempt
               else
                 && o.value.status == claim.execution.status && o.writes == PutStep(PutExecution(PutStep(EMPTY, r), o.value), next)
                 && decision.nextStepName == Some(o.value.currentStepName) && o.value.currentStepAttempt == 0
                 && FindStep(claim.definition.steps, o.value.currentStepName).Some?
                 && KeyOfStep(next) == CurrentKey(o.value) && next.status.Pending? && next.input == decision.nextStepInput
                 && next.state == o.value.state && next.output == EMPTY_OBJECT
                 && next.scheduledAt == DelayEnd(clock, delay) && next.createdAt == Some(clock.created)
                 && next.startedAt.None? && next.completedAt.None? && next.workerId.None? && next.failureReason.None?
  {
    var e := Complete(s, clock, id, stepName, workerId, output, delay, decision).value;
    next := NewStep(e, e.currentStepName, 0, decision.nextStepInput, clock.created, DelayEnd(clock, delay));
  }

  /** The execution runs and is at the key. */
  ghost predicate RunningOn(s: Store, k: StepKey) {
    k.executionId in s.executions && s.executions[k.executionId].status.Running? && CurrentKey(s.executions[k.executionId]) == k
  }

  /** The fresh row of the step a completion goes on to. */
  predicate Opened(r: StepExecution, e: Execution, clock: Clock, delay: Option<Time>, decision: NextStepDecision) {
    && decision.nextStepName == Some(e.currentStepName) && e.currentStepAttempt == 0
    && KeyOfStep(r) == CurrentKey(e) && r.status.Pending? && r.state == e.state && r.input == decision.nextStepInput && r.output == EMPTY_OBJECT
    && r.scheduledAt == DelayEnd(clock, delay) && r.createdAt == Some(clock.created) && r.startedAt.None? && r.completedAt.None?
    && r.workerId.None? && r.failureReason.None?
  }

  /** The tables after a completion: the current row closed, and the execution over or at a fresh row that
      carries its state. */
  ghost predicate AfterCompletion(s: Store, t: Store, e: Execution, closed: StepExecution, next: StepExecution, clock: Clock, id: string,
                                  workerId: string, output: Json, delay: Option<Time>, decision: NextStepDecision)
  {
    && RunningOn(s, KeyOfStep(closed)) && closed.executionId == id && e.id == id && e.state == decision.updatedState
    && SameOrigin(s.executions[id], e)
    && KeyOfStep(closed) in s.steps && closed == CompletedRow(s.steps[KeyOfStep(closed)], output, clock.stored)
    && s.steps[KeyOfStep(closed)].status.Running?
    && closed.status.Completed? && closed.output == output && closed.workerId == Some(workerId) && closed.completedAt == Some(clock.stored)
    && if decision.workflowComplete then
         t == PutExecution(PutStep(s, closed), e) && e.status.Completed? && e.completedAt == Some(clock.settled)
         && CurrentKey(e) == KeyOfStep(closed)
       else t == PutStep(PutExecution(PutStep(s, closed), e), next) && e.status.Running? && Opened(next, e, clock, delay, decision)
  }

  lemma CompletionPuts(s: Store, clock: Clock, id: string, stepName: string, workerId: string, output: Json,
                       delay: Option<Time>, decision: NextStepDecision, t: Store)
    returns (e: Execution, closed: StepExecution, next: StepExecution)
    requires Inv(s) && Complete(s, clock, id, stepName, workerId, output, delay, decision).Done?
    requires t == Apply(s, Complete(s, clock, id, stepName, workerId, output, delay, decision).writes)
    ensures AfterCompletion(s, t, e, closed, next, clock, id, workerId, output, delay, decision)
  {
    OwnedIsCurrent(s, id, stepName, workerId, clock.checked);
    var claim := Owned(s, id, stepName, workerId, clock.checked).value;
    next := CompleteCases(s, clock, id, stepName, workerId, output, delay, decision, claim);
    e := Complete(s, clock, id, stepName, workerId, output, delay, decision).value;
    closed := CompletedRow(claim.row, output, clock.stored);
    ApplyEnd(s, e, closed);
    ApplyMove(s, e, closed, next);
  }

  lemma Finishes(s: Store, id: string, r: StepExecution, e: Execution)
    requires id in s.executions && s.executions[id].status.Running? && e.status.Completed? && e.id == id && SameOrigin(s.executions[id], e)
    requires KeyOfStep(r) == CurrentKey(s.executions[id]) && !r.Open()
    requires e.currentStepName == s.executions[id].currentStepName && e.currentStepAttempt == s.executions[id].currentStepAttempt
    ensures FinishedBy(s, Apply(s, PutExecution(PutStep(EMPTY, r), e)), id, r)
  {
    ApplyEnd(s, e, r);
  }

  lemma Advances(s: Store, id: string, r: StepExecution, e: Execution, next: StepExecution, d: WorkflowDefinition, decision: NextStepDecision)
    requires id in s.executions && s.executions[id].status.Running? && e.status.Running? && e.id == id && SameOrigin(s.executions[id], e)
    requires KeyOfStep(r) == CurrentKey(s.executions[id]) && !r.Open()
    requires decision.nextStepName == Some(e.currentStepName) && e.currentStepAttempt == 0 && FindStep(d.steps, e.currentStepName).Some?
    requires KeyOfStep(next) == CurrentKey(e) && next.status.Pending? && next.input == decision.nextStepInput
    ensures AdvancedBy(s, Apply(s, PutStep(PutExecution(PutStep(EMPTY, r), e), next)), id, r, d, decision)
  {
    ApplyMove(s, e, r, next);
  }

  lemma FailChanges(s: Store, clock: Clock, id': string, stepName: string, workerId: string, reason: string, id: string)
    requires Inv(s) && Fail(s, clock, id', stepName, workerId, reason).Done? && id in s.executions
    ensures var t := Apply(s, Fail(s, clock, id', stepName, workerId, reason).writes);
            Untouched(s, t, id)
            || (id' == id && Owned(s, id, stepName, workerId, clock.checked).Some? && FailedOnce(s, t, id, reason, clock))
  {
    OwnedIsCurrent(s, id', stepName, workerId, clock.checked);
    if id' != id {
      ElsewhereUntouched(s, Fail(s, clock, id', stepName, workerId, reason).writes, id);
    }
  }

  lemma CancelChanges(s: Store, now: Time, id': string, id: string)
    requires Inv(s) && Cancel(s, now, id').Done? && id in s.executions
    ensures var t := Apply(s, Cancel(s, now, id').writes);
            Untouched(s, t, id) || (id' == id && CanceledBy(s, t, id, now))
  {
    CancelClosesCurrent(s, now, id');
    assert ExecutionOk(s, s.executions[id']);
    if id' != id {
      ElsewhereUntouched(s, Cancel(s, now, id').writes, id);
    }
  }

  /** An execution keeps its workflow, and one that is running after a call was running before it. */
  lemma CallKeepsWorkflow(rule: LeaseRule, s: Store, c: Call, id: string)
    requires Inv(s) && Allowed(s, c) && id in s.executions
    ensures var t := After(rule, s, c);
            id in t.executions && WorkflowOf(t.executions[id]) == WorkflowOf(s.executions[id])
            && (t.executions[id].status.Running? ==> s.executions[id].status.Running?)
  {
    var r := CallShapes(rule, s, c, id);
  }

  /** An execution waiting at a pending step stays as it is under a call that cannot claim that step, unless it
      is cancelled. */
  lemma PendingStays(rule: LeaseRule, s: Store, c: Call, t: Store, id: string)
    requires Inv(s) && id in s.executions && s.executions[id].status.Running? && Current(s, id).status.Pending?
    requires Change(rule, s, c, t, id)
    requires c.PollCall? ==> !ClaimedBy(rule, s, t, id, c.now, DefinitionKey(c.name, c.version), c.workerId)
    ensures Untouched(s, t, id) || (c.CancelCall? && id in t.executions && !t.executions[id].status.Running?)
  {
    if c.KeepAliveCall? || c.CompleteCall? || c.FailCall? {
      PendingNotOwned(s, id, c.stepName, c.workerId, c.clock.checked);
    }
  }

  lemma PendingNotOwned(s: Store, id: string, stepName: string, workerId: string, now: Time)
    requires Inv(s) && id in s.executions && s.executions[id].status.Running? && Current(s, id).status.Pending?
    ensures Owned(s, id, stepName, workerId, now).None?
  {
  }

  /** A renewal is of the current row, held by the worker. */
  lemma RenewedRowOf(rule: LeaseRule, s: Store, t: Store, id: string, clock: Clock, stepName: string, workerId: string)
    returns (r: StepExecution, until: Time)
    requires Inv(s) && RenewedBy(rule, s, t, id, clock, stepName, workerId)
    ensures Worked(s, t, id, r) && r == RenewedRow(Current(s, id), until) && OwnsClaim(Current(s, id), workerId, clock.checked)
    ensures clock.stored <= until
  {
    OwnedIsCurrent(s, id, stepName, workerId, clock.checked);
    var claim := Owned(s, id, stepName, workerId, clock.checked).value;
    until := clock.stored + LeaseOf(rule, claim.definition, stepName).value;
    r := RenewedRow(claim.row, until);
    LeaseNotNegative(rule, claim.definition, stepName);
  }

  lemma LeaseNotNegative(rule: LeaseRule, d: WorkflowDefinition, stepName: string)
    requires LeaseOf(rule, d, stepName).Some?
    ensures LeaseOf(rule, d, stepName).value >= 0
  {
  }

  /** What a change comes down to: the execution and its rows as they were; its current row at work; or that
      row closed, and the execution over or moved to a new row. */
  ghost predicate Shapes(s: Store, t: Store, id: string, r: StepExecution) {
    || Untouched(s, t, id)
    || Worked(s, t, id, r)
    || (id in t.executions && Over(s, t, id, r, t.executions[id]))
    || (id in t.executions && CurrentKey(t.executions[id]) in t.steps && Moved(s, t, id, r, t.executions[id], t.steps[CurrentKey(t.executions[id])]))
  }

  /** What a failed or expired step leaves behind: its row failed, and no other row of the execution changed
      except the one opened for the next attempt. */
  lemma FailedOnceRows(s: Store, t: Store, id: string, reason: string, clock: Clock)
    requires Inv(s) && FailedOnce(s, t, id, reason, clock)
    ensures var e := s.executions[id];
            var r := FailedRow(s.steps[CurrentKey(e)], reason, clock.stored);
            && KeyOfStep(r) == CurrentKey(e)
            && if e.currentStepAttempt < DueRetries(s, id).value then
                 && t.executions[id] == e.(currentStepAttempt := e.currentStepAttempt + 1)
                 && SameRows(PutStep(PutStep(s, r), NewStep(t.executions[id], e.currentStepName, e.currentStepAttempt + 1, r.input,
                                                            clock.created, None)), t, id)
               else
                 && t.executions[id].status.Failed? && CurrentKey(t.executions[id]) == CurrentKey(e)
                 && SameRows(PutStep(s, r), t, id)
  {
    var e := s.executions[id];
    var x := Settle(e, s.steps[CurrentKey(e)], DueRetries(s, id).value, reason, clock);
    var r := FailedRow(s.steps[CurrentKey(e)], reason, clock.stored);
    if x.retried {
      ApplyMove(s, x.execution, r, NewStep(x.execution, r.stepName, x.execution.currentStepAttempt, r.input, clock.created, None));
    } else {
      ApplyEnd(s, x.execution, r);
    }
  }

  /** A row as a failure opens it: on the given input and state, to be claimed at once. */
  predicate FreshRow(r: StepExecution, input: Json, state: Json, clock: Clock) {
    && r.input == input && r.state == state && r.createdAt == Some(clock.created)
    && r.scheduledAt.None? && r.startedAt.None? && r.completedAt.None? && r.workerId.None? && r.failureReason.None?
    && r.output == EMPTY_OBJECT
  }

  /** The same as one of the two shapes. */
  lemma FailedOnceShape(s: Store, t: Store, id: string, reason: string, clock: Clock, r: StepExecution)
    requires Inv(s) && FailedOnce(s, t, id, reason, clock)
    requires r == FailedRow(Current(s, id), reason, clock.stored)
    ensures var e := t.executions[id];
            if e.status.Running? then
              CurrentKey(e) in t.steps && Moved(s, t, id, r, e, t.steps[CurrentKey(e)])
              && e.currentStepName == s.executions[id].currentStepName && e.currentStepAttempt == s.executions[id].currentStepAttempt + 1
              && FreshRow(t.steps[CurrentKey(e)], r.input, e.state, clock)
            else Over(s, t, id, r, e)
  {
    if s.executions[id].currentStepAttempt < DueRetries(s, id).value {
      RetriedOnce(s, t, id, reason, clock, r);
    } else {
      EndedOnce(s, t, id, reason, clock, r);
    }
  }

  lemma RetriedOnce(s: Store, t: Store, id: string, reason: string, clock: Clock, r: StepExecution)
    requires Inv(s) && FailedOnce(s, t, id, reason, clock) && s.executions[id].currentStepAttempt < DueRetries(s, id).value
    requires r == FailedRow(Current(s, id), reason, clock.stored)
    ensures var e := t.executions[id];
            && e.currentStepName == s.executions[id].currentStepName && e.currentStepAttempt == s.executions[id].currentStepAttempt + 1
            && CurrentKey(e) in t.steps && Moved(s, t, id, r, e, t.steps[CurrentKey(e)])
            && FreshRow(t.steps[CurrentKey(e)], r.input, e.state, clock)
  {
    var e := t.executions[id];
    RetriedShape(s, t, id, r, e, NewStep(e, r.stepName, e.currentStepAttempt, r.input, clock.created, None));
  }

  lemma EndedOnce(s: Store, t: Store, id: string, reason: string, clock: Clock, r: StepExecution)
    requires Inv(s) && FailedOnce(s, t, id, reason, clock) && s.executions[id].currentStepAttempt >= DueRetries(s, id).value
    requires r == FailedRow(Current(s, id), reason, clock.stored)
    ensures !t.executions[id].status.Running? && Over(s, t, id, r, t.executions[id])
  {
    EndedShape(s, t, id, r, t.executions[id]);
  }

  lemma RetriedShape(s: Store, t: Store, id: string, r: StepExecution, e: Execution, next: StepExecution)
    requires id in s.executions && s.executions[id].status.Running? && id in t.executions && t.executions[id] == e
    requires SameRows(Apply(s, PutStep(PutExecution(PutStep(EMPTY, r), e), next)), t, id)
    requires e.status.Running? && SameOrigin(s.executions[id], e) && e.id == id
    requires KeyOfStep(r) == CurrentKey(s.executions[id]) && !r.Open() && KeyOfStep(next) == CurrentKey(e) && next.status.Pending?
    ensures Moved(s, t, id, r, e, next) && CurrentKey(e) in t.steps && t.steps[CurrentKey(e)] == next
  {
    ApplyMove(s, e, r, next);
    NextThere(s, t, id, r, next);
  }

  lemma EndedShape(s: Store, t: Store, id: string, r: StepExecution, e: Execution)
    requires id in s.executions && s.executions[id].status.Running? && id in t.executions && t.executions[id] == e
    requires SameRows(Apply(s, PutExecution(PutStep(EMPTY, r), e)), t, id)
    requires !e.status.Running? && SameOrigin(s.executions[id], e) && e.id == id
    requires KeyOfStep(r) == CurrentKey(s.executions[id]) && !r.Open()
    requires e.currentStepName == s.executions[id].currentStepName && e.currentStepAttempt == s.executions[id].currentStepAttempt
    ensures Over(s, t, id, r, e)
  {
    ApplyEnd(s, e, r);
  }

  lemma NextThere(s: Store, t: Store, id: string, r: StepExecution, next: StepExecution)
    requires SameRows(PutStep(PutStep(s, r), next), t, id) && next.executionId == id
    ensures KeyOfStep(next) in t.steps && t.steps[KeyOfStep(next)] == next
  {
    assert Lookup(PutStep(PutStep(s, r), next).steps, KeyOfStep(next)) == Lookup(t.steps, KeyOfStep(next));
  }

  lemma FailedOnceShapes(s: Store, t: Store, id: string, reason: string, clock: Clock) returns (r: StepExecution)
    requires Inv(s) && FailedOnce(s, t, id, reason, clock)
    ensures Shapes(s, t, id, r)
  {
    r := FailedRow(Current(s, id), reason, clock.stored);
    FailedOnceShape(s, t, id, reason, clock, r);
  }

  lemma ClaimedShapes(rule: LeaseRule, s: Store, t: Store, id: string, now: Time, key: DefinitionKey, workerId: string) returns (r: StepExecution)
    requires Inv(s) && ClaimedBy(rule, s, t, id, now, key, workerId)
    ensures Shapes(s, t, id, r) && !r.status.Failed?
  {
    var row := Current(s, id);
    r := ClaimedRow(row, workerId, now, LeaseOf(rule, s.definitions[key], row.stepName).value);
  }

  lemma RenewedShapes(rule: LeaseRule, s: Store, t: Store, id: string, clock: Clock, stepName: string, workerId: string) returns (r: StepExecution)
    requires RenewedBy(rule, s, t, id, clock, stepName, workerId)
    ensures Shapes(s, t, id, r) && !r.status.Failed?
  {
    var claim := Owned(s, id, stepName, workerId, clock.checked).value;
    r := RenewedRow(claim.row, clock.stored + LeaseOf(rule, claim.definition, stepName).value);
  }

  lemma CompletedShapes(s: Store, t: Store, id: string, clock: Clock, stepName: string, workerId: string, output: Json, decision: NextStepDecision)
    returns (r: StepExecution)
    requires CompletedBy(s, t, id, clock, stepName, workerId, output, decision)
    ensures Shapes(s, t, id, r) && !r.status.Failed?
  {
    r := CompletedRow(Owned(s, id, stepName, workerId, clock.checked).value.row, output, clock.stored);
  }

  /** Every change has one of the four shapes. */
  lemma ChangeShapes(rule: LeaseRule, s: Store, c: Call, t: Store, id: string) returns (r: StepExecution)
    requires Inv(s) && id in s.executions && Change(rule, s, c, t, id)
    ensures Shapes(s, t, id, r)
    ensures r.status.Failed? ==> c.FailCall? || c.SweepCall? || Untouched(s, t, id)
  {
    if Untouched(s, t, id) {
      r := *;
    } else {
      match c
      case PollCall(now, name, version, workerId, _) => r := ClaimedShapes(rule, s, t, id, now, DefinitionKey(name, version), workerId);
      case KeepAliveCall(clock, _, stepName, workerId) => r := RenewedShapes(rule, s, t, id, clock, stepName, workerId);
      case CompleteCall(clock, _, stepName, workerId, output, _, decision) =>
        r := CompletedShapes(s, t, id, clock, stepName, workerId, output, decision);
      case FailCall(clock, _, _, _, reason) => r := FailedOnceShapes(s, t, id, reason, clock);
      case CancelCall(now, _) => r := CanceledRow(Current(s, id), now);
      case SweepCall(now, created, _) => r := FailedOnceShapes(s, t, id, LEASE_EXPIRED, SweepClock(now, created, id));
    }
  }

  lemma CallShapes(rule: LeaseRule, s: Store, c: Call, id: string) returns (r: StepExecution)
    requires Inv(s) && Allowed(s, c) && id in s.executions
    ensures Shapes(s, After(rule, s, c), id, r)
  {
    CallChanges(rule, s, c, id);
    r := ChangeShapes(rule, s, c, After(rule, s, c), id);
  }

  /** An execution that a call fails has its current row failed and its other rows as they were. */
  lemma HowFailed(rule: LeaseRule, s: Store, c: Call, id: string) returns (r: StepExecution)
    requires Inv(s) && Allowed(s, c) && id in s.executions && s.executions[id].status.Running?
    requires id in After(rule, s, c).executions && After(rule, s, c).executions[id].status.Failed?
    ensures r.status.Failed? && KeyOfStep(r) == CurrentKey(s.executions[id]) && SameRows(PutStep(s, r), After(rule, s, c), id)
  {
    var t := After(rule, s, c);
    CallChanges(rule, s, c, id);
    if c.FailCall? {
      FailedOnceRows(s, t, id, c.reason, c.clock);
      r := FailedRow(s.steps[CurrentKey(s.executions[id])], c.reason, c.clock.stored);
    } else {
      FailedOnceRows(s, t, id, LEASE_EXPIRED, SweepClock(c.now, c.created, id));
      r := FailedRow(s.steps[CurrentKey(s.executions[id])], LEASE_EXPIRED, c.now);
    }
  }

  /** The executions a call writes are ones there are, except the one a start adds. */
  lemma EffectExecutions(rule: LeaseRule, s: Store, c: Call)
    requires Inv(s) && Allowed(s, c) && Effect(rule, s, c).Some?
    ensures var ids := Effect(rule, s, c).value.executions.Keys;
            if c.StartCall? then ids == {c.id} else ids <= s.executions.Keys
  {
    match c
    case PollCall(now, name, version, workerId, max) =>
      PutStepsAtExecutions(EMPTY, Poll(rule, s, now, name, version, workerId, max).value);
    case SweepCall(now, created, rows) => SweepIsPlan(s, now, created, rows);
    case KeepAliveCall(clock, id, stepName, workerId) =>
    case CompleteCall(clock, id, stepName, workerId, _, _, _) => OwnedIsCurrent(s, id, stepName, workerId, clock.checked);
    case FailCall(clock, id, stepName, workerId, _) => OwnedIsCurrent(s, id, stepName, workerId, clock.checked);
    case _ =>
  }

  /** Executions are never removed, and the only new one is the one a start adds. */
  lemma CallAdds(rule: LeaseRule, s: Store, c: Call)
    requires Inv(s) && Allowed(s, c)
    ensures var t := After(rule, s, c);
            s.executions.Keys <= t.executions.Keys
            && t.executions.Keys == s.executions.Keys + if c.StartCall? && Effect(rule, s, c).Some? then {c.id} else {}
  {
    if Effect(rule, s, c).Some? {
      EffectExecutions(rule, s, c);
      KeysAfter(s, Effect(rule, s, c).value);
    }
  }

  lemma KeysAfter(s: Store, w: Store)
    ensures Apply(s, w).executions.Keys == s.executions.Keys + w.executions.Keys
  {
  }

  lemma {:induction false} PutStepsAtExecutions(s: Store, rows: seq<StepExecution>)
    ensures PutSteps(s, rows).executions == s.executions
    ensures PutSteps(s, rows).definitions == s.definitions && PutSteps(s, rows).locks == s.locks
  {
    if rows != [] {
      PutStepsAtExecutions(s, rows[..|rows| - 1]);
    }
  }

  /* ---- finished executions ---- */

  /** No call touches an execution that is not running, nor any of its step rows. */
  lemma CallLeavesFinished(rule: LeaseRule, s: Store, c: Call, id: string)
    requires Inv(s) && Allowed(s, c) && id in s.executions && !s.executions[id].status.Running?
    ensures Untouched(s, After(rule, s, c), id)
  {
    CallChanges(rule, s, c, id);
  }

  /** Once an execution has left Running, its row and its step rows stay as they are for the rest of the run. */
  lemma {:induction false} RunFreezesFinished(rule: LeaseRule, states: seq<Store>, calls: seq<Call>, i: nat, j: nat, id: string)
    requires Run(rule, states, calls) && i <= j <= |calls|
    requires id in states[i].executions && !states[i].executions[id].status.Running?
    ensures Untouched(states[i], states[j], id)
    decreases j - i
  {
    if i < j {
      NextFreezes(rule, states, calls, i, id);
      RunFreezesFinished(rule, states, calls, i + 1, j, id);
      UntouchedSince(states[i], states[i + 1], states[j], id);
    }
  }

  lemma NextFreezes(rule: LeaseRule, states: seq<Store>, calls: seq<Call>, i: nat, id: string)
    requires Run(rule, states, calls) && i < |calls| && id in states[i].executions && !states[i].executions[id].status.Running?
    ensures Untouched(states[i], states[i + 1], id)
  {
    RunKeeps(rule, states, calls, i);
    assert Next(rule, states[i], calls[i], states[i + 1]);
    CallLeavesFinished(rule, states[i], calls[i], id);
  }

  lemma UntouchedSince(s: Store, t: Store, u: Store, id: string)
    requires Untouched(s, t, id) && Untouched(t, u, id)
    ensures Untouched(s, u, id)
  {
    forall k: StepKey | k.executionId == id ensures Lookup(s.steps, k) == Lookup(u.steps, k) {
      assert Lookup(s.steps, k) == Lookup(t.steps, k);
    }
  }

  /** Which optional fields are set follows from the statuses, in every state of a run. */
  lemma RunShapes(rule: LeaseRule, states: seq<Store>, calls: seq<Call>, i: nat)
    requires Run(rule, states, calls) && i <= |calls|
    ensures forall id :: id in states[i].executions ==>
              var e := states[i].executions[id];
              (e.completedAt.Some? <==> !e.status.Running?) && (e.failureReason.Some? <==> e.status.Failed?)
    ensures forall k :: k in states[i].steps ==>
              var r := states[i].steps[k];
              (r.leaseExpiresAt.Some? <==> r.status.Running?) && (r.failureReason.Some? <==> r.status.Failed?)
              && (r.completedAt.Some? <==> !r.Open())
  {
    RunKeeps(rule, states, calls, i);
    var s := states[i];
    assert forall id :: id in s.executions ==> ExecutionOk(s, s.executions[id]);
    assert forall k :: k in s.steps ==> StepOk(s, s.steps[k]);
  }
}
