/** Where what the tables hold comes from: the call that started an execution, the call that gave a lease, the
    decision an execution's state was last set by. */
module Origins {
  import opened Prelude
  import opened JsonValue
  import opened Domain
  import opened Tables
  import opened Operations
  import opened Candidates
  import opened Invariant
  import opened Preservation
  import opened Runs
  import opened Inputs
  import opened Leases
  import opened Singletons
  import opened Polling
  import opened Reclaim
  import opened Records
  import opened Admission

  /* ---- executions ---- */

  lemma CallKeepsOrigin(rule: LeaseRule, s: Store, c: Call, id: string)
    requires Inv(s) && Allowed(s, c) && id in s.executions
    ensures id in After(rule, s, c).executions && SameOrigin(s.executions[id], After(rule, s, c).executions[id])
  {
    CallChanges(rule, s, c, id);
    var r := ChangeShapes(rule, s, c, After(rule, s, c), id);
  }

  lemma {:induction false} RunKeepsOrigin(rule: LeaseRule, states: seq<Store>, calls: seq<Call>, i: nat, j: nat, id: string)
    requires Run(rule, states, calls) && i <= j <= |calls| && id in states[i].executions
    ensures id in states[j].executions && SameOrigin(states[i].executions[id], states[j].executions[id])
    decreases j - i
  {
    if i < j {
      NextKeepsOrigin(rule, states, calls, i, id);
      RunKeepsOrigin(rule, states, calls, i + 1, j, id);
    }
  }

  lemma NextKeepsOrigin(rule: LeaseRule, states: seq<Store>, calls: seq<Call>, i: nat, id: string)
    requires Run(rule, states, calls) && i < |calls| && id in states[i].executions
    ensures id in states[i + 1].executions && SameOrigin(states[i].executions[id], states[i + 1].executions[id])
  {
    RunKeeps(rule, states, calls, i);
    assert Next(rule, states[i], calls[i], states[i + 1]);
    CallKeepsOrigin(rule, states[i], calls[i], id);
  }

  /** The execution as the call that started it asked for: its workflow, its input, the time of the call. */
  ghost predicate StartedBy(c: Call, e: Execution) {
    c.StartCall? && e.id == c.id && WorkflowOf(e) == DefinitionKey(c.name, c.version) && e.input == c.input && e.startedAt == Some(c.clock.stored)
  }

  lemma NewIsStarted(rule: LeaseRule, s: Store, c: Call, id: string)
    requires Inv(s) && Allowed(s, c) && id !in s.executions && id in After(rule, s, c).executions
    ensures Starts(rule, s, c, id) && StartedBy(c, After(rule, s, c).executions[id])
  {
    CallAdds(rule, s, c);
  }

  /** A start adds its execution, its row and, for a singleton, its lock, and nothing else. */
  lemma StartAddsOne(s: Store, clock: Clock, id: string, name: string, version: int, input: Json, e: Execution)
    requires id !in s.executions && Start(s, clock, id, name, version, input).Done?
    requires e == Start(s, clock, id, name, version, input).value
    ensures var t, key := Apply(s, Start(s, clock, id, name, version, input).writes), DefinitionKey(name, version);
            && t.definitions == s.definitions && t.executions == s.executions[id := e]
            && (forall k :: k != CurrentKey(e) ==> Lookup(t.steps, k) == Lookup(s.steps, k))
            && (forall k :: k != key || !s.definitions[key].singleton ==> Lookup(t.locks, k) == Lookup(s.locks, k))
            && (s.definitions[key].singleton ==>
                  key in t.locks && t.locks[key] == SingletonLock(name, version, id, Some(clock.stored)))
  {
  }

  /** The started execution waits at the first step of the definition then registered, on the caller's input
      and an empty state, and can be claimed at once. */
  ghost predicate Begins(s: Store, c: Call, t: Store) {
    && c.StartCall? && DefinitionKey(c.name, c.version) in s.definitions && c.id in t.executions
    && var e := t.executions[c.id];
       && e.currentStepName == s.definitions[DefinitionKey(c.name, c.version)].startWorkflowStepName
       && e.currentStepAttempt == 0 && e.state == Object(map[]) && CurrentKey(e) in t.steps
       && var r := t.steps[CurrentKey(e)];
          WaitsOn(t, r) && r.scheduledAt == None && r.input == c.input && r.state == Object(map[]) && r.output == Object(map[])
  }

  lemma StartBegins(rule: LeaseRule, s: Store, c: Call)
    requires Inv(s) && Allowed(s, c) && c.StartCall? && Starts(rule, s, c, c.id)
    ensures Begins(s, c, After(rule, s, c))
  {
    CallKeeps(rule, s, c);
    var e := NewExecution(s.definitions[DefinitionKey(c.name, c.version)], c.id, c.name, c.version, c.input, c.clock.stored);
    StartWaits(rule, s, c, e, NewStep(e, e.currentStepName, 0, c.input, c.clock.created, None));
  }

  lemma StartWaits(rule: LeaseRule, s: Store, c: Call, e: Execution, r: StepExecution)
    requires Inv(s) && c.StartCall? && Starts(rule, s, c, c.id) && Inv(After(rule, s, c)) && DefinitionKey(c.name, c.version) in s.definitions
    requires e == NewExecution(s.definitions[DefinitionKey(c.name, c.version)], c.id, c.name, c.version, c.input, c.clock.stored)
    requires r == NewStep(e, e.currentStepName, 0, c.input, c.clock.created, None)
    ensures c.id in After(rule, s, c).executions && After(rule, s, c).executions[c.id] == e && WaitsOn(After(rule, s, c), r)
  {
    var d := s.definitions[DefinitionKey(c.name, c.version)];
    ApplyCreate(s, d.singleton, LockFor(e), e, r);
    CreatedWaits(if d.singleton then PutLock(s, LockFor(e)) else s, After(rule, s, c), e, r);
  }

  lemma CreatedWaits(s: Store, t: Store, e: Execution, r: StepExecution)
    requires Inv(t) && t == PutStep(PutExecution(s, e), r)
    requires e.status.Running? && KeyOfStep(r) == CurrentKey(e) && r.status.Pending?
    ensures e.id in t.executions && t.executions[e.id] == e && WaitsOn(t, r)
  {
  }

  lemma NextBegins(rule: LeaseRule, states: seq<Store>, calls: seq<Call>, i: nat, id: string)
    requires Run(rule, states, calls) && i < |calls| && Keyed(states[i]) && Starts(rule, states[i], calls[i], id)
    ensures Begins(states[i], calls[i], states[i + 1])
  {
    RunKeeps(rule, states, calls, i);
    assert Next(rule, states[i], calls[i], states[i + 1]);
    StartBegins(rule, states[i], calls[i]);
  }

  lemma NextIsStarted(rule: LeaseRule, states: seq<Store>, calls: seq<Call>, i: nat, id: string)
    requires Run(rule, states, calls) && i < |calls| && id !in states[i].executions && id in states[i + 1].executions
    ensures Keyed(states[i]) && Starts(rule, states[i], calls[i], id) && StartedBy(calls[i], states[i + 1].executions[id])
  {
    RunKeeps(rule, states, calls, i);
    assert Next(rule, states[i], calls[i], states[i + 1]);
    NewIsStarted(rule, states[i], calls[i], id);
  }

  /** A start that goes through in a run is the first the tables hear of the execution. */
  lemma NextStartsNew(rule: LeaseRule, states: seq<Store>, calls: seq<Call>, i: nat, id: string)
    requires Run(rule, states, calls) && i < |calls| && Keyed(states[i]) && Starts(rule, states[i], calls[i], id)
    ensures id !in states[i].executions && id in states[i + 1].executions
  {
    assert Next(rule, states[i], calls[i], states[i + 1]);
  }

  /** Every execution was started by exactly one call of the run: that call left it waiting at its definition's
      first step, and it has for life the workflow and input the call asked for and the time it was made. */
  lemma RunOrigin(rule: LeaseRule, states: seq<Store>, calls: seq<Call>, j: nat, id: string) returns (i: nat)
    requires Run(rule, states, calls) && states[0] == EMPTY && j <= |calls| && id in states[j].executions
    ensures i < j && Keyed(states[i]) && Starts(rule, states[i], calls[i], id) && StartedBy(calls[i], states[j].executions[id])
    ensures Begins(states[i], calls[i], states[i + 1])
    ensures forall n :: 0 <= n < |calls| && Keyed(states[n]) && Starts(rule, states[n], calls[n], id) ==> n == i
  {
    i := WhereStarted(rule, states, calls, j, id);
    RunKeepsOrigin(rule, states, calls, i + 1, j, id);
    NextBegins(rule, states, calls, i, id);
    forall n | 0 <= n < |calls| && Keyed(states[n]) && Starts(rule, states[n], calls[n], id) ensures n == i {
      StartsOnce(rule, states, calls, i, n, id);
    }
  }

  lemma StartsOnce(rule: LeaseRule, states: seq<Store>, calls: seq<Call>, i: nat, n: nat, id: string)
    requires Run(rule, states, calls) && i < |calls| && n < |calls|
    requires id !in states[i].executions && id in states[i + 1].executions
    requires Keyed(states[n]) && Starts(rule, states[n], calls[n], id)
    ensures n == i
  {
    NextStartsNew(rule, states, calls, n, id);
    if n < i {
      RunKeepsOrigin(rule, states, calls, n + 1, i, id);
    } else if i < n {
      RunKeepsOrigin(rule, states, calls, i + 1, n, id);
    }
  }

  lemma {:induction false} WhereStarted(rule: LeaseRule, states: seq<Store>, calls: seq<Call>, j: nat, id: string) returns (i: nat)
    requires Run(rule, states, calls) && states[0] == EMPTY && j <= |calls| && id in states[j].executions
    ensures i < j && id !in states[i].executions && id in states[i + 1].executions
    ensures Keyed(states[i]) && Starts(rule, states[i], calls[i], id) && StartedBy(calls[i], states[i + 1].executions[id])
  {
    i := j - 1;
    if id in states[i].executions {
      i := WhereStarted(rule, states, calls, i, id);
    } else {
      NextIsStarted(rule, states, calls, i, id);
    }
  }

  /* ---- leases ---- */

  /** The time a lease a call gives is counted from. */
  function GrantedAt(c: Call): Time
    requires c.PollCall? || c.KeepAliveCall?
  {
    if c.PollCall? then c.now else c.clock.stored
  }

  /** The call gives its caller a lease on the step: the caller's own, from the time of the call for the length
      the step's definition then says. */
  ghost predicate Grants(rule: LeaseRule, s: Store, c: Call, k: StepKey, lease: Lease) {
    && (c.PollCall? || c.KeepAliveCall?) && c.workerId == lease.workerId
    && RegisteredFor(s, k.executionId).Some?
    && LeaseOf(rule, RegisteredFor(s, k.executionId).value, k.stepName).Some?
    && lease.until == GrantedAt(c) + LeaseOf(rule, RegisteredFor(s, k.executionId).value, k.stepName).value
  }

  lemma KeepAliveTerm(rule: LeaseRule, s: Store, c: Call, k: StepKey, lease: Lease)
    requires Inv(s) && c.KeepAliveCall? && Granted(rule, s, c, k) == Some(lease)
    ensures Grants(rule, s, c, k, lease)
  {
    OwnedIsCurrent(s, c.id, c.stepName, c.workerId, c.clock.checked);
  }

  /** A lease the returned list gives is on one of its rows. */
  lemma {:induction false} ClaimInRow(claimed: seq<StepExecution>, k: StepKey) returns (i: nat)
    requires ClaimIn(claimed, k).Some?
    ensures i < |claimed| && KeyOfStep(claimed[i]) == k && LeaseOn(claimed[i]) == ClaimIn(claimed, k)
  {
    i := |claimed| - 1;
    if KeyOfStep(claimed[i]) != k {
      i := ClaimInRow(claimed[..i], k);
    }
  }

  lemma PollTerm(rule: LeaseRule, s: Store, now: Time, key: DefinitionKey, workerId: string, max: nat, k: StepKey, lease: Lease)
    requires Inv(s) && Poll(rule, s, now, key.name, key.version, workerId, max).Done? && key in s.definitions
    requires ClaimIn(Poll(rule, s, now, key.name, key.version, workerId, max).value, k) == Some(lease)
    ensures lease.workerId == workerId && RunningAt(s, key, k.executionId) && LeaseOf(rule, s.definitions[key], k.stepName).Some?
    ensures lease.until == now + LeaseOf(rule, s.definitions[key], k.stepName).value
  {
    var claimed := Poll(rule, s, now, key.name, key.version, workerId, max).value;
    AllClaimed(rule, s, now, key, workerId, max);
    var i := ClaimInRow(claimed, k);
    ClaimedRowLease(rule, s, now, key, workerId, claimed[i], k.stepName);
  }

  lemma PollGrantTerm(rule: LeaseRule, s: Store, c: Call, k: StepKey, lease: Lease)
    requires Inv(s) && c.PollCall? && Granted(rule, s, c, k) == Some(lease)
    ensures Grants(rule, s, c, k, lease)
  {
    PollTerm(rule, s, c.now, DefinitionKey(c.name, c.version), c.workerId, c.max, k, lease);
  }

  lemma GrantTerm(rule: LeaseRule, s: Store, c: Call, k: StepKey, lease: Lease)
    requires Inv(s) && Granted(rule, s, c, k) == Some(lease)
    ensures Grants(rule, s, c, k, lease)
  {
    if c.PollCall? {
      PollGrantTerm(rule, s, c, k, lease);
    } else {
      KeepAliveTerm(rule, s, c, k, lease);
    }
  }

  /** The call at `i` gave the lease, and nothing has moved it since. */
  ghost predicate GrantStands(rule: LeaseRule, states: seq<Store>, calls: seq<Call>, i: nat, j: nat, k: StepKey, lease: Lease)
    requires i < j < |states| && |states| == |calls| + 1
  {
    && Keyed(states[i]) && Granted(rule, states[i], calls[i], k) == Some(lease) && Grants(rule, states[i], calls[i], k, lease)
    && forall n :: i < n <= j ==> LeaseAt(states[n], k) == Some(lease)
  }

  /** A lease found in the tables was given by a call of the run to the worker it names, from the time of that
      call for as long as the definition registered then said; and it has stood unchanged since. */
  lemma {:induction false} GrantingCall(rule: LeaseRule, states: seq<Store>, calls: seq<Call>, j: nat, k: StepKey, lease: Lease) returns (i: nat)
    requires Run(rule, states, calls) && states[0] == EMPTY && j <= |calls| && LeaseAt(states[j], k) == Some(lease)
    ensures i < j && GrantStands(rule, states, calls, i, j, k, lease)
  {
    i := j - 1;
    var granted := NextGrant(rule, states, calls, i, k, lease);
    if !granted {
      var before := i;
      i := GrantingCall(rule, states, calls, before, k, lease);
      GrantStaysOn(rule, states, calls, i, before, k, lease);
    }
  }

  lemma GrantStaysOn(rule: LeaseRule, states: seq<Store>, calls: seq<Call>, i: nat, j: nat, k: StepKey, lease: Lease)
    requires i < j < |calls| && |states| == |calls| + 1 && GrantStands(rule, states, calls, i, j, k, lease)
    requires LeaseAt(states[j + 1], k) == Some(lease)
    ensures GrantStands(rule, states, calls, i, j + 1, k, lease)
  {
  }

  lemma NextGrant(rule: LeaseRule, states: seq<Store>, calls: seq<Call>, i: nat, k: StepKey, lease: Lease) returns (granted: bool)
    requires Run(rule, states, calls) && i < |calls| && LeaseAt(states[i + 1], k) == Some(lease)
    ensures if granted then GrantStands(rule, states, calls, i, i + 1, k, lease) else LeaseAt(states[i], k) == Some(lease)
  {
    RunKeeps(rule, states, calls, i);
    GrantsAt(rule, states, calls, i, k);
    granted := Granted(rule, states[i], calls[i], k).Some?;
    if granted {
      GrantTerm(rule, states[i], calls[i], k, lease);
    }
  }

  /* ---- state ---- */

  /** The row a running execution is at carries the execution's state. */
  ghost predicate CarriesState(s: Store, id: string) {
    Inputs.Running(s, id) ==> CurrentKey(s.executions[id]) in s.steps && s.steps[CurrentKey(s.executions[id])].state == s.executions[id].state
  }

  lemma WorkedCarries(s: Store, t: Store, id: string, r: StepExecution)
    requires Worked(s, t, id, r) && r.state == s.executions[id].state && s.executions[id].id == id
    ensures CarriesState(t, id)
  {
    assert Lookup(PutStep(s, r).steps, KeyOfStep(r)) == Lookup(t.steps, KeyOfStep(r));
  }

  lemma UntouchedCarries(s: Store, t: Store, id: string)
    requires Untouched(s, t, id) && CarriesState(s, id) && s.executions[id].id == id
    ensures CarriesState(t, id)
  {
    var k := CurrentKey(s.executions[id]);
    assert Lookup(s.steps, k) == Lookup(t.steps, k);
  }

  lemma ClaimedCarries(rule: LeaseRule, s: Store, t: Store, id: string, now: Time, key: DefinitionKey, workerId: string)
    requires Inv(s) && ClaimedBy(rule, s, t, id, now, key, workerId) && CarriesState(s, id)
    ensures CarriesState(t, id)
  {
    var r := Current(s, id);
    WorkedCarries(s, t, id, ClaimedRow(r, workerId, now, LeaseOf(rule, s.definitions[key], r.stepName).value));
  }

  lemma RenewedCarries(rule: LeaseRule, s: Store, t: Store, id: string, clock: Clock, stepName: string, workerId: string)
    requires Inv(s) && RenewedBy(rule, s, t, id, clock, stepName, workerId) && CarriesState(s, id)
    ensures CarriesState(t, id)
  {
    var r, until := RenewedRowOf(rule, s, t, id, clock, stepName, workerId);
    WorkedCarries(s, t, id, r);
  }

  lemma RetryCarries(s: Store, t: Store, id: string, reason: string, clock: Clock)
    requires Inv(s) && FailedOnce(s, t, id, reason, clock)
    ensures CarriesState(t, id)
  {
    FailedOnceShape(s, t, id, reason, clock, FailedRow(Current(s, id), reason, clock.stored));
  }

  lemma CompletionCarries(rule: LeaseRule, s: Store, c: Call, t: Store)
    requires Inv(s) && Next(rule, s, c, t) && c.CompleteCall? && Completes(rule, s, c, c.id)
    ensures CarriesState(t, c.id)
  {
    var e, closed, next := CompletionPuts(s, c.clock, c.id, c.stepName, c.workerId, c.output, c.delay, c.decision, t);
  }

  lemma ChangeCarries(rule: LeaseRule, s: Store, c: Call, t: Store, id: string)
    requires Inv(s) && id in s.executions && Change(rule, s, c, t, id) && !Untouched(s, t, id) && !c.CompleteCall? && CarriesState(s, id)
    ensures CarriesState(t, id)
  {
    match c
    case PollCall(now, name, version, workerId, _) => ClaimedCarries(rule, s, t, id, now, DefinitionKey(name, version), workerId);
    case KeepAliveCall(clock, _, stepName, workerId) => RenewedCarries(rule, s, t, id, clock, stepName, workerId);
    case FailCall(clock, _, _, _, reason) => RetryCarries(s, t, id, reason, clock);
    case CancelCall(_, _) =>
    case SweepCall(now, created, _) => RetryCarries(s, t, id, LEASE_EXPIRED, SweepClock(now, created, id));
  }

  lemma NewCarries(rule: LeaseRule, s: Store, c: Call, t: Store, id: string)
    requires Inv(s) && Next(rule, s, c, t) && id !in s.executions
    ensures CarriesState(t, id)
  {
    CallAdds(rule, s, c);
  }

  lemma CallCarries(rule: LeaseRule, s: Store, c: Call, t: Store, id: string)
    requires Inv(s) && Next(rule, s, c, t) && CarriesState(s, id)
    ensures CarriesState(t, id)
  {
    if id !in s.executions {
      NewCarries(rule, s, c, t, id);
    } else if Untouched(s, t, id) {
      UntouchedCarries(s, t, id);
    } else {
      CallChanges(rule, s, c, id);
      if c.CompleteCall? {
        CompletionCarries(rule, s, c, t);
      } else {
        ChangeCarries(rule, s, c, t, id);
      }
    }
  }

  /** In every run the row a running execution is at carries the execution's state: what the last decision
      said it to be, handed from attempt to attempt. */
  lemma {:induction false} RunCarriesState(rule: LeaseRule, states: seq<Store>, calls: seq<Call>, i: nat, id: string)
    requires Run(rule, states, calls) && states[0] == EMPTY && i <= |calls|
    ensures CarriesState(states[i], id)
  {
    if i > 0 {
      RunCarriesState(rule, states, calls, i - 1, id);
      NextCarries(rule, states, calls, i - 1, id);
    }
  }

  lemma NextCarries(rule: LeaseRule, states: seq<Store>, calls: seq<Call>, i: nat, id: string)
    requires Run(rule, states, calls) && i < |calls| && CarriesState(states[i], id)
    ensures CarriesState(states[i + 1], id)
  {
    RunKeeps(rule, states, calls, i);
    assert Next(rule, states[i], calls[i], states[i + 1]);
    CallCarries(rule, states[i], calls[i], states[i + 1], id);
  }

  lemma FailureKeepsState(s: Store, t: Store, id: string, reason: string, clock: Clock)
    requires Inv(s) && FailedOnce(s, t, id, reason, clock)
    ensures t.executions[id].state == s.executions[id].state
  {
  }

  /** Nothing but a completion changes an execution's state. */
  lemma CallKeepsState(rule: LeaseRule, s: Store, c: Call, t: Store, id: string)
    requires Inv(s) && Next(rule, s, c, t) && id in s.executions && !Completes(rule, s, c, id)
    ensures id in t.executions && t.executions[id].state == s.executions[id].state
  {
    CallChanges(rule, s, c, id);
    ChangeKeepsState(rule, s, c, t, id);
  }

  lemma ChangeKeepsState(rule: LeaseRule, s: Store, c: Call, t: Store, id: string)
    requires Inv(s) && id in s.executions && Change(rule, s, c, t, id) && (c.CompleteCall? ==> Untouched(s, t, id))
    ensures id in t.executions && t.executions[id].state == s.executions[id].state
  {
    if !Untouched(s, t, id) {
      match c
      case FailCall(clock, _, _, _, reason) => FailureKeepsState(s, t, id, reason, clock);
      case SweepCall(now, created, _) => FailureKeepsState(s, t, id, LEASE_EXPIRED, SweepClock(now, created, id));
      case _ =>
    }
  }

  lemma {:induction false} RunKeepsState(rule: LeaseRule, states: seq<Store>, calls: seq<Call>, i: nat, j: nat, id: string)
    requires Run(rule, states, calls) && i <= j <= |calls| && id in states[i].executions && NoCompletion(rule, states, calls, i, j, id)
    ensures id in states[j].executions && states[j].executions[id].state == states[i].executions[id].state
    decreases j - i
  {
    if i < j {
      NextKeepsState(rule, states, calls, i, j, id);
      RunKeepsState(rule, states, calls, i + 1, j, id);
    }
  }

  lemma NextKeepsState(rule: LeaseRule, states: seq<Store>, calls: seq<Call>, i: nat, j: nat, id: string)
    requires Run(rule, states, calls) && i < j <= |calls| && id in states[i].executions && NoCompletion(rule, states, calls, i, j, id)
    ensures id in states[i + 1].executions && states[i + 1].executions[id].state == states[i].executions[id].state
  {
    RunKeeps(rule, states, calls, i);
    assert Next(rule, states[i], calls[i], states[i + 1]) && !Completes(rule, states[i], calls[i], id);
    CallKeepsState(rule, states[i], calls[i], states[i + 1], id);
  }

  lemma CompletionSetsState(rule: LeaseRule, s: Store, c: Call, t: Store, id: string)
    requires Inv(s) && Next(rule, s, c, t) && Completes(rule, s, c, id)
    ensures id in t.executions && t.executions[id].state == c.decision.updatedState
  {
    var e, closed, next := CompletionPuts(s, c.clock, c.id, c.stepName, c.workerId, c.output, c.delay, c.decision, t);
  }

  lemma NextSetsState(rule: LeaseRule, states: seq<Store>, calls: seq<Call>, i: nat, id: string)
    requires Run(rule, states, calls) && i < |calls| && Keyed(states[i]) && Completes(rule, states[i], calls[i], id)
    ensures id in states[i + 1].executions && states[i + 1].executions[id].state == calls[i].decision.updatedState
  {
    RunKeeps(rule, states, calls, i);
    assert Next(rule, states[i], calls[i], states[i + 1]);
    CompletionSetsState(rule, states[i], calls[i], states[i + 1], id);
  }

  /** The state the logic decides on at a completion is the execution's until its next completion, through
      claims, failures, expiries and the end of the execution; while it runs, the row it is at carries it. */
  lemma StateDecided(rule: LeaseRule, states: seq<Store>, calls: seq<Call>, i: nat, j: nat, id: string)
    requires Run(rule, states, calls) && states[0] == EMPTY && i < j <= |calls|
    requires Keyed(states[i]) && Completes(rule, states[i], calls[i], id) && NoCompletion(rule, states, calls, i + 1, j, id)
    ensures id in states[j].executions && states[j].executions[id].state == calls[i].decision.updatedState
    ensures CarriesState(states[j], id)
  {
    NextSetsState(rule, states, calls, i, id);
    RunKeepsState(rule, states, calls, i + 1, j, id);
    RunCarriesState(rule, states, calls, j, id);
  }
}
