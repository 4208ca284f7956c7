/** A step reclaimed after its lease has run out: a run in which it passes from one worker to another, who
    completes it. The hypotheses of the lease properties are met by it. */
module Reclaim {
  import opened Prelude
  import opened JsonValue
  import opened Domain
  import opened Tables
  import opened Operations
  import opened Candidates
  import opened Invariant
  import opened Preservation
  import opened Runs
  import opened Singletons
  import opened Polling
  import opened Leases

  lemma {:induction false} ClaimInList(claimed: seq<StepExecution>, k: StepKey, i: nat, lease: Lease)
    requires i < |claimed| && KeyOfStep(claimed[i]) == k
    requires forall j :: 0 <= j < |claimed| && KeyOfStep(claimed[j]) == k ==> LeaseOn(claimed[j]) == Some(lease)
    ensures ClaimIn(claimed, k) == Some(lease)
  {
    var n := |claimed| - 1;
    if KeyOfStep(claimed[n]) != k {
      ClaimInList(claimed[..n], k, i, lease);
    }
  }

  lemma ClaimedRowLease(rule: LeaseRule, s: Store, now: Time, key: DefinitionKey, workerId: string, r: StepExecution, stepName: string)
    requires key in s.definitions && ClaimedFor(rule, s, now, key, workerId, r) && r.stepName == stepName
    ensures LeaseOf(rule, s.definitions[key], stepName).Some?
    ensures LeaseOn(r) == Some(Lease(workerId, now + LeaseOf(rule, s.definitions[key], stepName).value))
  {
  }

  lemma ReturnedLease(rule: LeaseRule, s: Store, now: Time, key: DefinitionKey, workerId: string, claimed: seq<StepExecution>, k: StepKey, i: nat,
                      lease: Lease)
    requires key in s.definitions && i < |claimed| && KeyOfStep(claimed[i]) == k
    requires forall j :: 0 <= j < |claimed| ==> ClaimedFor(rule, s, now, key, workerId, claimed[j])
    requires LeaseOf(rule, s.definitions[key], k.stepName).Some?
    requires lease.workerId == workerId && lease.until == now + LeaseOf(rule, s.definitions[key], k.stepName).value
    ensures ClaimIn(claimed, k) == Some(lease)
  {
    forall j | 0 <= j < |claimed| && KeyOfStep(claimed[j]) == k ensures LeaseOn(claimed[j]) == Some(lease) {
      ClaimedRowLease(rule, s, now, key, workerId, claimed[j], k.stepName);
    }
    ClaimInList(claimed, k, i, lease);
  }

  /** A poll that gets a step puts it under a lease of the caller, from now for the step's lease. */
  lemma ClaimTakes(rule: LeaseRule, s: Store, now: Time, key: DefinitionKey, workerId: string, max: nat, id: string, k: StepKey,
                   lease: Time, held: Lease)
    requires Inv(s) && RunningAt(s, key, id) && key in s.definitions && Claims(rule, s, now, key, workerId, max, id)
    requires k == CurrentKey(s.executions[id])
    requires LeaseOf(rule, s.definitions[key], k.stepName).Some? ==> LeaseOf(rule, s.definitions[key], k.stepName).value == lease
    requires held.workerId == workerId && held.until == now + lease
    ensures LeaseAt(Apply(s, Poll(rule, s, now, key.name, key.version, workerId, max).writes), k) == Some(held)
  {
    var claimed := Poll(rule, s, now, key.name, key.version, workerId, max).value;
    var i :| 0 <= i < |claimed| && KeyOfStep(claimed[i]) == k;
    AllClaimed(rule, s, now, key, workerId, max);
    ClaimedRowLease(rule, s, now, key, workerId, claimed[i], k.stepName);
    ReturnedLease(rule, s, now, key, workerId, claimed, k, i, held);
    PollGrants(rule, s, now, key.name, key.version, workerId, max, k);
  }

  lemma AllClaimed(rule: LeaseRule, s: Store, now: Time, key: DefinitionKey, workerId: string, max: nat)
    requires Inv(s) && key in s.definitions && Poll(rule, s, now, key.name, key.version, workerId, max).Done?
    ensures var claimed := Poll(rule, s, now, key.name, key.version, workerId, max).value;
            forall j :: 0 <= j < |claimed| ==> ClaimedFor(rule, s, now, key, workerId, claimed[j])
  {
    PollReturnsFirst(rule, s, now, key.name, key.version, workerId, max);
  }

  /** The first step of execution "a" of a workflow. */
  function FirstStep(d: WorkflowDefinition): StepKey {
    StepKey("a", d.startWorkflowStepName, 0)
  }

  /** The first step of "a" is the only open row of the workflow, and can be claimed at `now`. */
  ghost predicate Waiting(s: Store, d: WorkflowDefinition, key: DefinitionKey, now: Time) {
    && Inv(s) && key == KeyOfDefinition(d) && ValidNameAndVersion(key.name, key.version)
    && RunningAt(s, key, "a") && CurrentKey(s.executions["a"]) == FirstStep(d)
    && s.definitions == map[key := d] && s.executions.Keys == {"a"}
    && FirstStep(d) in s.steps && IsClaimable(s.steps[FirstStep(d)], now)
  }

  /** The run so far, and one more call. */
  ghost predicate Leads(rule: LeaseRule, states: seq<Store>, calls: seq<Call>, s: Store) {
    Run(rule, states, calls) && states[0] == EMPTY && states[|calls|] == s
  }

  lemma LeadsOn(rule: LeaseRule, states: seq<Store>, calls: seq<Call>, s: Store, c: Call, t: Store)
    requires Leads(rule, states, calls, s) && Next(rule, s, c, t)
    ensures Leads(rule, states + [t], calls + [c], t)
  {
    RunOneMore(rule, states, calls, c, t);
  }

  lemma AfterPoll(rule: LeaseRule, s: Store, now: Time, key: DefinitionKey, workerId: string, max: nat)
    requires Inv(s) && Poll(rule, s, now, key.name, key.version, workerId, max).Done?
    ensures var t := Apply(s, Poll(rule, s, now, key.name, key.version, workerId, max).writes);
            && Next(rule, s, PollCall(now, key.name, key.version, workerId, max), t)
            && Inv(t) && t.definitions == s.definitions && t.executions == s.executions
  {
    PollKeeps(rule, s, now, key.name, key.version, workerId, max);
    PollWritesApply(rule, s, now, key.name, key.version, workerId, max);
    PutStepsAtExecutions(s, Poll(rule, s, now, key.name, key.version, workerId, max).value);
  }

  /** The first step claimed, in a run that has come to where it waits. */
  lemma ClaimFirst(rule: LeaseRule, states: seq<Store>, calls: seq<Call>, s: Store, d: WorkflowDefinition, key: DefinitionKey,
                now: Time, lease: Time, held: Lease)
    returns (c: Call, t: Store)
    requires Leads(rule, states, calls, s) && held.until == now + lease
    requires Waiting(s, d, key, now) && held.workerId != "" && LeaseOf(rule, d, d.startWorkflowStepName) == Some(lease)
    ensures c.PollCall? && c.workerId == held.workerId && Leads(rule, states + [t], calls + [c], t)
    ensures LeaseAt(t, FirstStep(d)) == Some(held) && Waiting(t, d, key, held.until)
  {
    var max := |Claimable(s, key, now)| + 1;
    c := PollCall(now, key.name, key.version, held.workerId, max);
    ClaimedLeaseHolds(rule, s, d, key, now, held.workerId, max, lease, held);
    t := Apply(s, Poll(rule, s, now, key.name, key.version, held.workerId, max).writes);
    AfterPoll(rule, s, now, key, held.workerId, max);
    LeadsOn(rule, states, calls, s, c, t);
    WaitsAgain(s, t, d, key, now, held);
  }

  lemma ClaimedLeaseHolds(rule: LeaseRule, s: Store, d: WorkflowDefinition, key: DefinitionKey, now: Time, workerId: string, max: nat,
                          lease: Time, held: Lease)
    requires held.workerId == workerId && held.until == now + lease && Waiting(s, d, key, now) && workerId != "" && LeaseOf(rule, d, d.startWorkflowStepName) == Some(lease)
    requires max == |Claimable(s, key, now)| + 1
    ensures var o := Poll(rule, s, now, key.name, key.version, workerId, max);
            o.Done? && LeaseAt(Apply(s, o.writes), FirstStep(d)) == Some(held)
  {
    IsReady(rule, s, d, key, now);
    ReadyClaims(rule, s, now, key, workerId, max, "a");
    ClaimTakes(rule, s, now, key, workerId, max, "a", FirstStep(d), lease, held);
  }

  lemma WaitsAgain(s: Store, t: Store, d: WorkflowDefinition, key: DefinitionKey, now: Time, held: Lease)
    requires Waiting(s, d, key, now) && Inv(t) && t.definitions == s.definitions && t.executions == s.executions
    requires LeaseAt(t, FirstStep(d)) == Some(held)
    ensures Waiting(t, d, key, held.until)
  {
  }

  lemma IsReady(rule: LeaseRule, s: Store, d: WorkflowDefinition, key: DefinitionKey, now: Time)
    requires Waiting(s, d, key, now) && LeaseOf(rule, d, d.startWorkflowStepName).Some?
    ensures LeasesReady(rule, s, key) && IsClaimable(Current(s, "a"), now)
  {
  }

  lemma StillOwned(s: Store, d: WorkflowDefinition, key: DefinitionKey, held: Lease)
    requires Waiting(s, d, key, held.until) && held.workerId != "" && LeaseAt(s, FirstStep(d)) == Some(held)
    requires d.startWorkflowStepName != ""
    ensures Owned(s, "a", d.startWorkflowStepName, held.workerId, held.until - 1) == Some(Claim(s.executions["a"], s.steps[FirstStep(d)], d))
  {
  }

  /** The holder of the first step completes it, and the execution ends or goes on to a declared step. */
  lemma CompleteFirst(rule: LeaseRule, states: seq<Store>, calls: seq<Call>, s: Store, d: WorkflowDefinition, key: DefinitionKey,
                  held: Lease, decision: NextStepDecision)
    returns (c: Call, t: Store)
    requires Leads(rule, states, calls, s)
    requires Waiting(s, d, key, held.until) && held.workerId != "" && LeaseAt(s, FirstStep(d)) == Some(held)
    requires d.startWorkflowStepName != ""
    requires decision.workflowComplete || (decision.nextStepName.Some? && FindStep(d.steps, decision.nextStepName.value).Some?)
    ensures Leads(rule, states + [t], calls + [c], t) && CompletedBy(rule, s, c, held.workerId)
    ensures t.definitions == s.definitions
    ensures !decision.workflowComplete ==> RunningAt(t, key, "a") && decision.nextStepName == Some(t.executions["a"].currentStepName)
  {
    var clock := Clock(held.until - 1, held.until - 1, held.until - 1, held.until - 1);
    c := CompleteCall(clock, "a", d.startWorkflowStepName, held.workerId, EMPTY_OBJECT, None, decision);
    t := After(rule, s, c);
    FirstCompletes(rule, s, d, key, held, decision, c, t);
    LeadsOn(rule, states, calls, s, c, t);
  }

  lemma FirstGoesThrough(s: Store, d: WorkflowDefinition, key: DefinitionKey, held: Lease, clock: Clock, output: Json, decision: NextStepDecision)
    requires Waiting(s, d, key, held.until) && held.workerId != "" && LeaseAt(s, FirstStep(d)) == Some(held) && d.startWorkflowStepName != ""
    requires decision.workflowComplete || (decision.nextStepName.Some? && FindStep(d.steps, decision.nextStepName.value).Some?)
    requires clock.checked == held.until - 1
    ensures Complete(s, clock, "a", d.startWorkflowStepName, held.workerId, output, None, decision).Done?
  {
    StillOwned(s, d, key, held);
  }

  lemma FirstCompletes(rule: LeaseRule, s: Store, d: WorkflowDefinition, key: DefinitionKey, held: Lease, decision: NextStepDecision, c: Call, t: Store)
    requires Waiting(s, d, key, held.until) && held.workerId != "" && LeaseAt(s, FirstStep(d)) == Some(held) && d.startWorkflowStepName != ""
    requires decision.workflowComplete || (decision.nextStepName.Some? && FindStep(d.steps, decision.nextStepName.value).Some?)
    requires c.CompleteCall? && c.clock.checked == held.until - 1 && c.id == "a" && c.stepName == d.startWorkflowStepName
    requires c.workerId == held.workerId && c.delay == None && c.decision == decision && t == After(rule, s, c)
    ensures CompletedBy(rule, s, c, held.workerId) && t.definitions == s.definitions
    ensures !decision.workflowComplete ==> RunningAt(t, key, "a") && decision.nextStepName == Some(t.executions["a"].currentStepName)
  {
    FirstGoesThrough(s, d, key, held, c.clock, c.output, decision);
    var e, closed, next := CompletionPuts(s, c.clock, c.id, c.stepName, c.workerId, c.output, c.delay, c.decision, t);
  }

  ghost predicate CompletedBy(rule: LeaseRule, s: Store, c: Call, workerId: string) {
    c.CompleteCall? && c.workerId == workerId && Keyed(s) && Effect(rule, s, c).Some?
  }

  ghost predicate HandsOver(s: Store, c: Call, t: Store, k: StepKey) {
    c.PollCall? && c.workerId == "two" && HeldBy(s, k, "one") && HeldBy(t, k, "two")
  }

  /** The first step waits, unscheduled, in the tables a registration and a start leave. */
  ghost predicate Fresh(s: Store, d: WorkflowDefinition, key: DefinitionKey) {
    && (forall now: Time :: Waiting(s, d, key, now))
    && FirstStep(d) in s.steps && s.steps[FirstStep(d)].status.Pending? && s.steps[FirstStep(d)].scheduledAt == None
  }

  lemma StartedIsFresh(s: Store, d: WorkflowDefinition, key: DefinitionKey)
    requires key == KeyOfDefinition(d) && ValidNameAndVersion(key.name, key.version)
    requires s == StartedStore(PutDefinition(EMPTY, d), d, "a") && Inv(s)
    ensures Fresh(s, d, key)
  {
  }

  /** A run that registers the workflow and starts "a". */
  lemma Begun(rule: LeaseRule, d: WorkflowDefinition, key: DefinitionKey) returns (states: seq<Store>, calls: seq<Call>)
    requires key == KeyOfDefinition(d) && ValidNameAndVersion(key.name, key.version)
    ensures |calls| == 2 && calls[0] == RegisterCall(d) && calls[1].StartCall?
    ensures |states| == 3 && Leads(rule, states, calls, states[2]) && Fresh(states[2], d, key)
  {
    EmptyTables();
    var c0, s1 := Registered(rule, EMPTY, d);
    var c1, s2 := Started(rule, s1, d, "a");
    StartedIsFresh(s2, d, key);
    states, calls := TwoCalls(rule, EMPTY, c0, s1, c1, s2);
  }

  /** Claimed by one worker, and reclaimed by another when the lease has run out. */
  lemma ClaimedTwice(rule: LeaseRule, states: seq<Store>, calls: seq<Call>, s: Store, d: WorkflowDefinition, key: DefinitionKey,
                     lease: Time, one: Lease, two: Lease)
    returns (c: Call, t: Store, c': Call, t': Store)
    requires Leads(rule, states, calls, s) && Waiting(s, d, key, 0) && LeaseOf(rule, d, d.startWorkflowStepName) == Some(lease)
    requires one.workerId == "one" && two.workerId == "two" && one.until == lease && two.until == lease + lease
    ensures Leads(rule, states + [t] + [t'], calls + [c] + [c'], t') && HandsOver(t, c', t', FirstStep(d))
    ensures LeaseAt(t', FirstStep(d)) == Some(two) && Waiting(t', d, key, two.until)
  {
    c, t := ClaimFirst(rule, states, calls, s, d, key, 0, lease, one);
    c', t' := ClaimFirst(rule, states + [t], calls + [c], t, d, key, one.until, lease, two);
  }

  /** For any definition whose start step has a name and a lease, a run in which the step is claimed by one
      worker, reclaimed by another when the lease has run out, and completed by the second. */
  lemma ReclaimedStep(rule: LeaseRule, d: WorkflowDefinition, key: DefinitionKey, lease: Time)
    returns (states: seq<Store>, calls: seq<Call>, s: Store, c: Call, t: Store, c': Call)
    requires key == KeyOfDefinition(d) && ValidNameAndVersion(key.name, key.version) && d.startWorkflowStepName != ""
    requires LeaseOf(rule, d, d.startWorkflowStepName) == Some(lease)
    ensures Run(rule, states, calls) && states[0] == EMPTY
    ensures HandsOver(s, c, t, FirstStep(d)) && CompletedBy(rule, t, c', "two")
    ensures |calls| == 5 && states[3] == s && calls[3] == c && states[4] == t && calls[4] == c'
  {
    var two := Lease("two", lease + lease);
    states, calls := Begun(rule, d, key);
    var c2;
    c2, s, c, t := ClaimedTwice(rule, states, calls, states[2], d, key, lease, Lease("one", lease), two);
    var end;
    c', end := CompleteFirst(rule, states + [s] + [t], calls + [c2] + [c], t, d, key, two, NextStepDecision(true, None, EMPTY_OBJECT, EMPTY_OBJECT));
    TheLastThree(states, s, t, end);
    TheLastThree(calls, c2, c, c');
    states, calls := states + [s] + [t] + [end], calls + [c2] + [c] + [c'];
  }

  lemma TheLastThree<T>(front: seq<T>, x: T, y: T, z: T)
    ensures var all := front + [x] + [y] + [z];
            |all| == |front| + 3 && all[|front|] == x && all[|front| + 1] == y && all[|front| + 2] == z
  {
  }
}
